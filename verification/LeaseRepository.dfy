/** The two PGRepository types over the lease tables, as one process sees them. They run the
    same statements; the columns in which they differ are the row's data. */
module LeaseRepository {
  import opened Prelude
  import opened LeaseTable

  /** A row as a query returned it. */
  datatype Task<D> = Task(id: string, row: Row<D>)

  predicate DistinctIds<D>(tasks: seq<Task<D>>) {
    forall i, j :: 0 <= i < j < |tasks| ==> tasks[i].id != tasks[j].id
  }

  function TaskIds<D>(tasks: seq<Task<D>>): seq<string> {
    seq(|tasks|, i requires 0 <= i < |tasks| => tasks[i].id)
  }

  function IdsOf<D>(tasks: seq<Task<D>>): set<string> {
    set i | 0 <= i < |tasks| :: tasks[i].id
  }

  /** What a settling statement reports. */
  function Outcome(fate: Fate, held: bool): Result<()> {
    if fate != Fine then Err(Storage) else if held then Ok(()) else Err(NotFound)
  }

  /** Whether it changed its row, reported or not. */
  predicate Took(fate: Fate, held: bool) {
    fate != Fate.Lost && held
  }

  function Only(id: string, b: bool): set<string> {
    if b then {id} else {}
  }

  /** A successful poll: one atomic claim of the selected ids. */
  ghost predicate Polled<D>(before: Table<D>, after: Table<D>, owner: string, locked: set<string>,
                            filter: D -> bool, limit: int, now: int, until: int, tasks: seq<Task<D>>) {
    && after == Apply(before, Claim(owner, IdsOf(tasks), now, until))
    && IsPoll(before, locked, filter, now, limit, TaskIds(tasks))
    && DistinctIds(tasks)
    && (forall i :: 0 <= i < |tasks| ==>
          && tasks[i].id in before && before[tasks[i].id].status == Pending
          && Held(after, owner, tasks[i].id)
          && after[tasks[i].id] == Claimed(before[tasks[i].id], owner, until))
  }

  /** By available_at, then created_at. */
  predicate NotLater<D>(a: Row<D>, b: Row<D>) {
    a.availableAt < b.availableAt || (a.availableAt == b.availableAt && a.createdAt <= b.createdAt)
  }

  /** What a successful poll did, column by column. The tasks are exactly what the owner holds now
      and did not hold before; they were pending, due, wanted by the filter and unlocked; claiming
      them is all that changed. They come in order, and of the rows that could have been taken one
      is left out only when the limit is reached by rows that are not later. */
  lemma PolledMeans<D>(before: Table<D>, after: Table<D>, owner: string, locked: set<string>, filter: D -> bool,
                       limit: int, now: int, until: int, tasks: seq<Task<D>>)
    requires TableInv(before) && owner != ""
    requires Polled(before, after, owner, locked, filter, limit, now, until, tasks)
    requires forall i :: 0 <= i < |tasks| ==> tasks[i].row == after[tasks[i].id]
    ensures |tasks| <= limit && DistinctIds(tasks) && after.Keys == before.Keys
    ensures forall id :: id in IdsOf(tasks) <==> Held(after, owner, id) && !Held(before, owner, id)
    ensures forall id :: id in before && id !in IdsOf(tasks) ==> after[id] == before[id]
    ensures forall i :: 0 <= i < |tasks| ==>
      && tasks[i].id in before && tasks[i].id !in locked
      && var row := before[tasks[i].id];
      && tasks[i].row == row.(status := Running, lockedBy := owner, lockedUntil := Some(until))
      && row.status == Pending && row.availableAt <= now && filter(row.data)
    ensures forall i, j :: 0 <= i < j < |tasks| ==> NotLater(tasks[i].row, tasks[j].row)
    ensures forall id :: id in before && id !in IdsOf(tasks) && id !in locked && before[id].status == Pending
                         && before[id].availableAt <= now && filter(before[id].data) ==>
      |tasks| == limit && forall i :: 0 <= i < |tasks| ==> NotLater(tasks[i].row, before[id])
  {
    var ids := TaskIds(tasks);
    assert forall i :: 0 <= i < |tasks| ==> ids[i] == tasks[i].id;
    forall id
      ensures id in IdsOf(tasks) <==> id in ids
    {
      if id in ids {
        var i :| 0 <= i < |ids| && ids[i] == id;
        assert tasks[i].id == id;
      }
    }
    forall i | 0 <= i < |tasks|
      ensures Eligible(before[ids[i]], filter, now) && ids[i] !in locked
    {
    }
    forall i, j | 0 <= i < j < |tasks|
      ensures NotLater(tasks[i].row, tasks[j].row)
    {
      assert !Earlier(before[ids[j]], before[ids[i]]);
    }
    forall id | id in before && id !in IdsOf(tasks) && id !in locked && before[id].status == Pending
                && before[id].availableAt <= now && filter(before[id].data)
      ensures |tasks| == limit && forall i :: 0 <= i < |tasks| ==> NotLater(tasks[i].row, before[id])
    {
      assert RowInv(before[id]);
      assert Eligible(before[id], filter, now);
      assert forall i :: 0 <= i < |ids| ==> !Earlier(before[id], before[ids[i]]);
    }
    forall id
      ensures id in IdsOf(tasks) <==> Held(after, owner, id) && !Held(before, owner, id)
    {
      assert id in before ==> RowInv(before[id]);
    }
  }

  /** What the SELECT returns: the chosen ids with their rows. */
  ghost predicate Selected<D>(before: Table<D>, locked: set<string>, filter: D -> bool, limit: int, now: int,
                              tasks: seq<Task<D>>) {
    && IsPoll(before, locked, filter, now, limit, TaskIds(tasks))
    && (forall i :: 0 <= i < |tasks| ==> tasks[i].id in before && tasks[i].row == before[tasks[i].id])
  }

  lemma PollCloses<D>(before: Table<D>, owner: string, locked: set<string>, filter: D -> bool, limit: int, now: int,
                      until: int, selected: seq<Task<D>>, tasks: seq<Task<D>>)
    requires TableInv(before) && owner != "" && Selected(before, locked, filter, limit, now, selected)
    requires |tasks| == |selected|
    requires forall i :: 0 <= i < |tasks| ==> tasks[i] == Task(selected[i].id, Claimed(selected[i].row, owner, until))
    ensures var after := WriteBack(before, owner, IdsOf(selected), until);
      && TableInv(after)
      && Polled(before, after, owner, locked, filter, limit, now, until, tasks)
      && (forall i :: 0 <= i < |tasks| ==> tasks[i].row == after[tasks[i].id])
  {
    assert TaskIds(tasks) == TaskIds(selected);
    assert IdsOf(tasks) == IdsOf(selected);
    forall i | 0 <= i < |selected|
      ensures Claimable(before[selected[i].id], now) && selected[i].id in IdsOf(selected)
    {
      assert TaskIds(selected)[i] == selected[i].id;
    }
    forall i, j | 0 <= i < j < |tasks|
      ensures tasks[i].id != tasks[j].id
    {
      assert TaskIds(selected)[i] != TaskIds(selected)[j];
    }
    WriteBackIsClaim(before, owner, IdsOf(selected), now, until);
    ApplyKeepsInv(before, Claim(owner, IdsOf(selected), now, until));
  }

  /** The loop over the selected rows. */
  method Scan<D>(rows: Table<D>, ids: seq<string>) returns (tasks: seq<Task<D>>)
    requires forall i :: 0 <= i < |ids| ==> ids[i] in rows
    ensures |tasks| == |ids|
    ensures forall i :: 0 <= i < |ids| ==> tasks[i] == Task(ids[i], rows[ids[i]])
  {
    tasks := [];
    for i := 0 to |ids|
      invariant |tasks| == i
      invariant forall j :: 0 <= j < i ==> tasks[j] == Task(ids[j], rows[ids[j]])
    {
      tasks := tasks + [Task(ids[i], rows[ids[i]])];
    }
  }

  method SelectTasks<D>(rows: Table<D>, locked: set<string>, filter: D -> bool, limit: int, now: int)
    returns (tasks: seq<Task<D>>)
    requires limit > 0
    ensures Selected(rows, locked, filter, limit, now, tasks)
  {
    var ids := SelectForUpdate(rows, locked, filter, now, limit);
    tasks := Scan(rows, ids);
    assert TaskIds(tasks) == ids;
  }

  /** The loop that brings the snapshots up to date with the UPDATE. */
  method MarkRunning<D>(selected: seq<Task<D>>, owner: string, lockedUntil: int) returns (tasks: seq<Task<D>>)
    ensures |tasks| == |selected|
    ensures forall i :: 0 <= i < |tasks| ==>
      tasks[i] == Task(selected[i].id, Claimed(selected[i].row, owner, lockedUntil))
  {
    tasks := selected;
    for i := 0 to |tasks|
      invariant |tasks| == |selected|
      invariant forall j :: 0 <= j < i ==>
        tasks[j] == Task(selected[j].id, Claimed(selected[j].row, owner, lockedUntil))
      invariant forall j :: i <= j < |tasks| ==> tasks[j] == selected[j]
    {
      var row := tasks[i].row;
      tasks := tasks[i := Task(tasks[i].id,
        row.(status := Running, lockedBy := owner, lockedUntil := Some(lockedUntil)))];
    }
  }

  lemma SparesWider<D>(owner: string, a: set<string>, b: set<string>, x: Table<D>, y: Table<D>)
    requires a <= b && Spares(owner, a, x, y)
    ensures Spares(owner, b, x, y)
  {
  }

  /** Before this process's n-th statement the others run `others(n)`, any list of statements of
      theirs, and `fate(n)` is what becomes of the statement itself. A poll is one statement here
      because LeaseProtocol proves that its transaction is. Every method also returns the table its
      statement met. `touch` is what the SET clause does to the data columns. */
  class PGRepository<D(!new)> {
    var rows: Table<D>
    var statements: nat
    const others: nat -> seq<Statement<D>>
    const fate: nat -> Fate

    constructor (others: nat -> seq<Statement<D>>, fate: nat -> Fate)
      ensures rows == map[] && statements == 0 && this.others == others && this.fate == fate
    {
      rows := map[];
      statements := 0;
      this.others := others;
      this.fate := fate;
    }

    ghost predicate Serves(owner: string)
      reads this
    {
      && owner != ""
      && TableInv(rows)
      && forall n, i :: 0 <= n && 0 <= i < |others(n)| ==> FromOther(others(n)[i], owner)
    }

    ghost predicate Reliable() {
      forall n :: 0 <= n ==> fate(n) == Fine
    }

    method Arrive(ghost owner: string) returns (fate: Fate, ghost met: Table<D>)
      requires Serves(owner)
      modifies this
      ensures Serves(owner) && rows == met == Exec(old(rows), others(old(statements)))
      ensures Spares(owner, {}, old(rows), met)
      ensures statements == old(statements) + 1 && fate == this.fate(old(statements))
    {
      OthersSpare(rows, others(statements), owner);
      rows := Exec(rows, others(statements));
      fate := this.fate(statements);
      statements := statements + 1;
      met := rows;
    }

    /** Enqueue and CreateTask: the row as given, unlocked; the primary key may refuse it. */
    method Insert(task: Task<D>, ghost owner: string) returns (r: Result<()>, ghost met: Table<D>)
      requires Serves(owner) && RowInv(task.row) && task.row.status != Running
      modifies this
      ensures Serves(owner) && statements == old(statements) + 1
      ensures met == Exec(old(rows), others(old(statements)))
      ensures old(rows).Keys <= met.Keys
      ensures r.Ok? <==> fate(old(statements)) == Fine && task.id !in met
      ensures rows == if fate(old(statements)) != Lost && task.id !in met then met[task.id := task.row] else met
    {
      var fate;
      fate, met := Arrive(owner);
      if fate == Fate.Lost || task.id in rows {
        return Err(Storage), met;
      }
      var row := task.row;
      rows := rows[task.id := Row(row.status, row.attempts, row.maxAttempts, row.availableAt, row.createdAt, "", None,
                                  row.data)];
      return if fate == Fine then Ok(()) else Err(Storage), met;
    }

    /** PollByID and GetTask. */
    method PollByID(id: string, ghost owner: string) returns (r: Result<Task<D>>)
      requires Serves(owner)
      modifies this
      ensures Serves(owner) && statements == old(statements) + 1
      ensures rows == Exec(old(rows), others(old(statements))) && Spares(owner, {}, old(rows), rows)
      ensures r == if fate(old(statements)) != Fine then Err(Storage)
                   else if id in rows then Ok(Task(id, rows[id])) else Err(NotFound)
    {
      var fate, met := Arrive(owner);
      if fate != Fine {
        return Err(Storage);
      }
      if id !in rows {
        return Err(NotFound);
      }
      return Ok(Task(id, rows[id]));
    }

    /** Poll and PollTasks: lock-select, update by id list, rewrite the snapshots, commit.
        `locked` are the rows other open transactions have locked. When only the acknowledgement
        of the commit is lost the claims in `taken` stand, though the caller learns of none. */
    method Poll(filter: D -> bool, limit: int, now: int, lockTTL: int, owner: string, locked: set<string>)
      returns (r: Result<seq<Task<D>>>, ghost met: Table<D>, ghost taken: seq<Task<D>>)
      requires Serves(owner) && limit > 0
      modifies this
      ensures Serves(owner) && statements == old(statements) + 1
      ensures met == Exec(old(rows), others(old(statements)))
      ensures fate(old(statements)) == Lost ==> rows == met
      ensures fate(old(statements)) != Lost ==>
        && Polled(met, rows, owner, locked, filter, limit, now, now + lockTTL, taken)
        && (forall i :: 0 <= i < |taken| ==> taken[i].row == rows[taken[i].id])
      ensures fate(old(statements)) == Fine ==> r == Ok(taken)
      ensures fate(old(statements)) != Fine ==> r.Err?
    {
      hide Polled, Spares;
      var fate;
      taken := [];
      fate, met := Arrive(owner);
      if fate == Fate.Lost {
        return Err(Storage), met, taken;
      }
      var tasks := PollTransaction(filter, limit, now, now + lockTTL, owner, locked);
      taken := tasks;
      return if fate == Fine then Ok(tasks) else Err(Storage), met, taken;
    }

    method PollTransaction(filter: D -> bool, limit: int, now: int, until: int, owner: string, locked: set<string>)
      returns (tasks: seq<Task<D>>)
      requires TableInv(rows) && owner != "" && limit > 0
      modifies this`rows
      ensures TableInv(rows)
      ensures Polled(old(rows), rows, owner, locked, filter, limit, now, until, tasks)
      ensures forall i :: 0 <= i < |tasks| ==> tasks[i].row == rows[tasks[i].id]
    {
      var selected := SelectTasks(rows, locked, filter, limit, now);
      tasks := selected;
      if |selected| > 0 {
        rows := WriteBack(rows, owner, IdsOf(selected), until);
        tasks := MarkRunning(selected, owner, until);
      } else {
        WriteBackNothing(rows, owner, until);
      }
      PollCloses(old(rows), owner, locked, filter, limit, now, until, selected, tasks);
    }

    method Complete(id: string, owner: string, touch: D -> D) returns (r: Result<()>, ghost met: Table<D>)
      requires Serves(owner)
      modifies this
      ensures Serves(owner) && statements == old(statements) + 1
      ensures met == Exec(old(rows), others(old(statements)))
      ensures r == Outcome(fate(old(statements)), Held(old(rows), owner, id))
      ensures Spares(owner, Only(id, Took(fate(old(statements)), Held(old(rows), owner, id))), old(rows), rows)
      ensures if Took(fate(old(statements)), Held(old(rows), owner, id))
              then Held(met, owner, id) && met[id] == old(rows)[id]
                   && rows == Apply(met, LeaseTable.Complete(owner, id, touch(met[id].data)))
              else rows == met
    {
      hide Spares;
      var fate;
      fate, met := Arrive(owner);
      ClaimsLast(owner, id, old(rows), met);
      if fate == Fate.Lost {
        return Err(Storage), met;
      }
      if !Held(rows, owner, id) {
        return Outcome(fate, false), met;
      }
      SettlingAfterOthers(owner, id, old(rows), met, LeaseTable.Complete(owner, id, touch(met[id].data)));
      var row := rows[id];
      rows := rows[id := row.(status := Completed, lockedBy := "", lockedUntil := None, data := touch(row.data))];
      return Outcome(fate, true), met;
    }

    /** `availableAt` is the caller's clock reading plus the retry delay. */
    method Fail(id: string, owner: string, availableAt: int, touch: D -> D) returns (r: Result<()>, ghost met: Table<D>)
      requires Serves(owner)
      modifies this
      ensures Serves(owner) && statements == old(statements) + 1
      ensures met == Exec(old(rows), others(old(statements)))
      ensures r == Outcome(fate(old(statements)), Held(old(rows), owner, id))
      ensures Spares(owner, Only(id, Took(fate(old(statements)), Held(old(rows), owner, id))), old(rows), rows)
      ensures if Took(fate(old(statements)), Held(old(rows), owner, id))
              then Held(met, owner, id) && met[id] == old(rows)[id]
                   && rows == Apply(met, LeaseTable.Fail(owner, id, availableAt, touch(met[id].data)))
              else rows == met
    {
      hide Spares;
      var fate;
      fate, met := Arrive(owner);
      ClaimsLast(owner, id, old(rows), met);
      if fate == Fate.Lost {
        return Err(Storage), met;
      }
      if !Held(rows, owner, id) {
        return Outcome(fate, false), met;
      }
      SettlingAfterOthers(owner, id, old(rows), met, LeaseTable.Fail(owner, id, availableAt, touch(met[id].data)));
      var row := rows[id];
      var status := if row.attempts + 1 >= row.maxAttempts then Failed else Pending;
      rows := rows[id := row.(attempts := row.attempts + 1, status := status, availableAt := availableAt,
                              lockedBy := "", lockedUntil := None, data := touch(row.data))];
      return Outcome(fate, true), met;
    }

    method Requeue(id: string, owner: string, availableAt: int, touch: D -> D)
      returns (r: Result<()>, ghost met: Table<D>)
      requires Serves(owner)
      modifies this
      ensures Serves(owner) && statements == old(statements) + 1
      ensures met == Exec(old(rows), others(old(statements)))
      ensures r == Outcome(fate(old(statements)), Held(old(rows), owner, id))
      ensures Spares(owner, Only(id, Took(fate(old(statements)), Held(old(rows), owner, id))), old(rows), rows)
      ensures if Took(fate(old(statements)), Held(old(rows), owner, id))
              then Held(met, owner, id) && met[id] == old(rows)[id]
                   && rows == Apply(met, LeaseTable.Requeue(owner, id, availableAt, touch(met[id].data)))
                   && !Held(rows, owner, id)
              else rows == met
    {
      hide Spares;
      var fate;
      fate, met := Arrive(owner);
      ClaimsLast(owner, id, old(rows), met);
      if fate == Fate.Lost {
        return Err(Storage), met;
      }
      if !Held(rows, owner, id) {
        return Outcome(fate, false), met;
      }
      SettlingAfterOthers(owner, id, old(rows), met, LeaseTable.Requeue(owner, id, availableAt, touch(met[id].data)));
      var row := rows[id];
      rows := rows[id := row.(status := Pending, availableAt := availableAt, lockedBy := "", lockedUntil := None,
                              data := touch(row.data))];
      return Outcome(fate, true), met;
    }
  }

  /** Other sessions neither take a claim away nor give one. */
  lemma ClaimsLast<D>(owner: string, id: string, start: Table<D>, met: Table<D>)
    requires Spares(owner, {}, start, met)
    ensures Held(met, owner, id) <==> Held(start, owner, id)
    ensures Held(start, owner, id) ==> met[id] == start[id]
  {
  }
}
