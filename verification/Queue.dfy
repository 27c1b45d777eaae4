/** The `queue_items` table and the worker service over it. */
module Queue {
  import opened Prelude
  import opened LeaseTable
  import opened LeaseRepository
  import opened Backoff

  datatype Item = Item(topic: string, payload: string, lastError: string)

  /** The poll's WHERE topic=$1. */
  function OnTopic(topic: string): Item -> bool {
    (item: Item) => item.topic == topic
  }

  // ---------------------------------------------------------------- the service

  /** What a handler says about a task: done, or the cause of its failure. */
  datatype Verdict = Done | Broken(cause: string)

  function Successes(tasks: seq<Task<Item>>, handler: Task<Item> -> Verdict): set<string> {
    set i | 0 <= i < |tasks| && handler(tasks[i]).Done? :: tasks[i].id
  }

  /** A row after its owner failed it once more: the last attempt makes it failed at once, any
      other leaves it pending for the backoff of the attempts made so far. */
  function FailedRow(row: Row<Item>, cause: string, at: int): Row<Item> {
    var last := row.attempts + 1 == row.maxAttempts;
    Row(if last then Failed else Pending, row.attempts + 1, row.maxAttempts,
        at + if last then 0 else BackoffDelay(row.attempts),
        row.createdAt, "", None, row.data.(lastError := cause))
  }

  function DecidedDelay(row: Row<Item>): int {
    if row.attempts + 1 >= row.maxAttempts then 0 else BackoffDelay(row.attempts)
  }

  /** The CASE in the UPDATE and the decision in Go agree on a running row. */
  lemma DecisionFitsRow(rows: Table<Item>, owner: string, id: string, cause: string, at: int)
    requires Held(rows, owner, id) && owner != "" && RowInv(rows[id])
    ensures var row := rows[id];
      var after := Apply(rows, LeaseTable.Fail(owner, id, at + DecidedDelay(row), row.data.(lastError := cause)));
      id in after && after[id] == FailedRow(rows[id], cause, at)
  {
  }

  class QueueService {
    const repo: PGRepository<Item>
    const owner: string
    const lockTTL: int

    /** NewQueueService: an empty owner is replaced by a generated one, so no service ever
        settles with the empty owner that unclaimed rows carry. */
    constructor (repo: PGRepository<Item>, owner: string, lockTTL: int, freshID: string)
      requires freshID != ""
      ensures this.repo == repo && this.owner != "" && this.lockTTL > 0
      ensures this.owner == (if owner != "" then owner else freshID)
      ensures this.lockTTL == if lockTTL > 0 then lockTTL else 60_000_000_000
    {
      this.repo := repo;
      this.owner := if owner == "" then freshID else owner;
      this.lockTTL := if lockTTL <= 0 then 60 * SECOND else lockTTL;
    }

    method Enqueue(id: string, topic: string, payload: string, now: int) returns (r: Result<()>, ghost met: Table<Item>)
      requires repo.Serves(owner)
      modifies repo
      ensures repo.Serves(owner)
      ensures met == Exec(old(repo.rows), repo.others(old(repo.statements)))
      ensures r.Ok? <==> old(repo.fate(repo.statements)) == Fine && id !in met
      ensures repo.rows == if old(repo.fate(repo.statements)) == Lost || id in met then met
                           else met[id := Row(Pending, 0, 5, now, now, "", None, Item(topic, payload, ""))]
    {
      r, met := repo.Insert(Task(id, Fresh(5, now, now, Item(topic, payload, ""))), owner);
    }

    /** Read the row, decide, write. The decision is taken from a row read one statement
        earlier; because the claim freezes the row it is the right one at the time of the
        write, and a service without the claim changes nothing. `charged` says whether the
        write was executed on the row, seen or not. */
    method Fail(id: string, cause: string, at: int) returns (r: Result<()>, ghost charged: bool)
      requires repo.Serves(owner)
      modifies repo
      ensures repo.Serves(owner)
      ensures Spares(owner, Only(id, charged), old(repo.rows), repo.rows)
      ensures charged ==>
        && old(Held(repo.rows, owner, id)) && id in repo.rows
        && repo.rows[id] == FailedRow(old(repo.rows)[id], cause, at)
        && ChargedWell(old(repo.rows)[id], repo.rows[id], cause, at)
      ensures r.Ok? ==> charged
      ensures old(Held(repo.rows, owner, id)) && repo.Reliable() ==> r.Ok?
    {
      hide Spares, BackoffDelay, Apply, Exec, FailedRow, ChargedWell;
      charged := false;
      ghost var start := repo.rows;
      var loaded := repo.PollByID(id, owner);
      if loaded.Err? {
        return Err(loaded.error), charged;
      }
      var row := loaded.value.row;
      ghost var mid, met := repo.rows, repo.rows;
      ClaimsLast(owner, id, start, mid);
      var delay := 0;
      if row.attempts + 1 < row.maxAttempts {
        delay := BackoffDelay(row.attempts);
      }
      charged := Took(repo.fate(repo.statements), Held(mid, owner, id));
      r, met := repo.Fail(id, owner, at + delay, (item: Item) => item.(lastError := cause));
      SparesThen(owner, Only(id, charged), start, mid, repo.rows);
      if charged {
        HeldIsSound(start, mid, owner, id);
        DecisionFitsRow(met, owner, id, cause, at);
        FailedRowIsCharged(met[id], cause, at);
      }
    }

    /** One turn of Handle's loop. `counted` is what the caller counts, `done` whether the row was
        completed: a completed row is not counted when only the acknowledgement got lost. */
    method HandleOne(ghost tasks: seq<Task<Item>>, ghost i: nat, task: Task<Item>, handler: Task<Item> -> Verdict,
                     at: int, ghost completed: set<string>)
      returns (counted: bool, ghost done: bool)
      requires repo.Serves(owner)
      requires i < |tasks| && tasks[i] == task
      requires HandleInv(tasks, i, repo.rows, owner, handler, completed, repo.Reliable())
      modifies repo
      ensures repo.Serves(owner) && task.id !in completed && Spares(owner, {task.id}, old(repo.rows), repo.rows)
      ensures counted ==> done
      ensures repo.Reliable() ==> (counted <==> done)
      ensures HandleInv(tasks, i + 1, repo.rows, owner, handler, completed + Only(task.id, done), repo.Reliable())
      ensures done ==> task.id in repo.rows && CompletedWell(task.row, repo.rows[task.id])
      ensures repo.Reliable() ==>
        && task.id in repo.rows
        && match handler(task)
           case Done => done
           case Broken(cause) => !done && ChargedWell(task.row, repo.rows[task.id], cause, at)
    {
      hide Spares, FailedRow, ChargedWell, CompletedWell, HandleInv, TableInv;
      ghost var start := repo.rows;
      NextIsHeld(tasks, i, start, owner, handler, completed, repo.Reliable());
      var verdict := handler(task);
      if verdict.Broken? {
        var failed, charged := Fail(task.id, verdict.cause, at);
        SparesWider(owner, Only(task.id, charged), {task.id}, start, repo.rows);
        if charged {
          AttemptIsCharged(start[task.id], repo.rows[task.id], verdict.cause, at);
        }
        HandleStep(tasks, i, start, repo.rows, owner, handler, completed, false, repo.Reliable());
        return false, false;
      }
      done := Took(repo.fate(repo.statements), true);
      var settled, met := repo.Complete(task.id, owner, (item: Item) => item);
      SparesWider(owner, Only(task.id, done), {task.id}, start, repo.rows);
      if done {
        DoneIsCompleted(met, owner, task);
      }
      HandleStep(tasks, i, start, repo.rows, owner, handler, completed, done, repo.Reliable());
      if settled.Err? && settled.error != NotFound {
        return false, done;
      }
      return true, done;
    }

    /** The worker loop. Whatever the other workers do between its statements, each task it counts
        is one whose handler succeeded and whose row this call completed for good: a Complete never
        misses its row, so the branch that would count a missing row is dead. A completed row goes
        uncounted only when the acknowledgement got lost. If nothing gets lost, the count is that of
        all the handler's successes, and each failure is charged. */
    method Handle(topic: string, limit: int, now: int, locked: set<string>, handler: Task<Item> -> Verdict,
                  at: nat -> int)
      returns (r: Result<nat>, ghost tasks: seq<Task<Item>>, ghost counted: set<string>, ghost completed: set<string>,
               ghost met: Table<Item>, ghost taken: Table<Item>)
      requires repo.Serves(owner)
      modifies repo
      ensures repo.Serves(owner)
      ensures met == Exec(old(repo.rows), repo.others(old(repo.statements)))
      ensures r.Ok? ==>
        TookBatch(met, taken, owner, topic, if limit <= 0 then 10 else limit, now, now + lockTTL, locked, tasks)
      ensures r.Ok? ==> Spares(owner, IdsOf(tasks), taken, repo.rows)
      ensures repo.Reliable() ==>
        && r == Ok(|set i | 0 <= i < |tasks| && handler(tasks[i]).Done? :: tasks[i].id|)
        && forall i :: 0 <= i < |tasks| ==> !Held(repo.rows, owner, tasks[i].id)
      ensures r.Err? <==> old(repo.fate(repo.statements)) != Fine
      ensures r.Ok? ==> r.value == |counted|
      ensures counted <= completed && (repo.Reliable() ==> counted == completed)
      ensures HandleInv(tasks, |tasks|, repo.rows, owner, handler, completed, repo.Reliable())
    {
      hide HandleInv, Polled, Spares, TookBatch;
      tasks, counted, completed := [], {}, {};
      OthersSpare(repo.rows, repo.others(repo.statements), owner);
      SparesIsSound(repo.rows, Exec(repo.rows, repo.others(repo.statements)), owner);
      var limit' := if limit <= 0 then 10 else limit;
      ghost var claimed: seq<Task<Item>>;
      var polled;
      polled, met, claimed := repo.Poll(OnTopic(topic), limit', now, lockTTL, owner, locked);
      taken := repo.rows;
      if polled.Err? {
        NothingPolled(repo.rows, owner, handler, repo.Reliable());
        return Err(polled.error), tasks, counted, completed, met, taken;
      }
      tasks := polled.value;
      PolledIsReady(met, repo.rows, owner, locked, topic, limit', now, now + lockTTL, tasks, handler, repo.Reliable());
      var processed;
      processed, counted, completed := HandleAll(polled.value, handler, at);
      return Ok(processed), tasks, counted, completed, met, taken;
    }

    /** Handle's loop over the polled tasks. */
    method HandleAll(tasks: seq<Task<Item>>, handler: Task<Item> -> Verdict, at: nat -> int)
      returns (processed: nat, ghost counted: set<string>, ghost completed: set<string>)
      requires repo.Serves(owner) && HandleInv(tasks, 0, repo.rows, owner, handler, {}, repo.Reliable())
      modifies repo
      ensures repo.Serves(owner) && processed == |counted| && Spares(owner, IdsOf(tasks), old(repo.rows), repo.rows)
      ensures counted <= completed && (repo.Reliable() ==> counted == completed)
      ensures HandleInv(tasks, |tasks|, repo.rows, owner, handler, completed, repo.Reliable())
      ensures repo.Reliable() ==>
        && processed == |set i | 0 <= i < |tasks| && handler(tasks[i]).Done? :: tasks[i].id|
        && forall i :: 0 <= i < |tasks| ==> !Held(repo.rows, owner, tasks[i].id)
    {
      hide HandleInv, Spares;
      processed, counted, completed := 0, {}, {};
      SparesNone(owner, IdsOf(tasks), repo.rows);
      for i := 0 to |tasks|
        invariant repo.Serves(owner) && processed == |counted| && Spares(owner, IdsOf(tasks), old(repo.rows), repo.rows)
        invariant counted <= completed && (repo.Reliable() ==> counted == completed)
        invariant HandleInv(tasks, i, repo.rows, owner, handler, completed, repo.Reliable())
      {
        ghost var before := repo.rows;
        var count, done := HandleOne(tasks, i, tasks[i], handler, at(i), completed);
        SparesOnward(tasks, i, owner, old(repo.rows), before, repo.rows);
        completed := completed + Only(tasks[i].id, done);
        counted := counted + Only(tasks[i].id, count);
        if !count {
          continue;
        }
        processed := processed + 1;
      }
      HandleResult(tasks, repo.rows, owner, handler, completed, repo.Reliable());
    }
  }

  /** The batch that a poll of this topic took, column by column: the tasks are exactly the rows
      the owner holds now and did not hold before. They are the topic's, were pending, due and not
      locked, and only status, owner and lease time are new; no other row is touched. They come in
      order, and a row of the topic that could have been taken is left out only when the limit is
      reached by rows that are not later. */
  ghost predicate TookBatch(met: Table<Item>, taken: Table<Item>, owner: string, topic: string, limit: int, now: int,
                            until: int, locked: set<string>, tasks: seq<Task<Item>>) {
    && |tasks| <= limit && DistinctIds(tasks) && taken.Keys == met.Keys
    && (forall id :: id in IdsOf(tasks) <==>
          id in taken && taken[id].lockedBy == owner && !(id in met && met[id].lockedBy == owner))
    && (forall id :: id in met && id !in IdsOf(tasks) ==> taken[id] == met[id])
    && (forall i :: 0 <= i < |tasks| ==>
          && tasks[i].id in met && tasks[i].id !in locked
          && tasks[i].row == taken[tasks[i].id]
          && tasks[i].row.data.topic == topic
          && var row := met[tasks[i].id];
          && row.status == Pending && row.availableAt <= now
          && tasks[i].row == row.(status := Running, lockedBy := owner, lockedUntil := Some(until)))
    && (forall i, j :: 0 <= i < j < |tasks| ==> NotLater(tasks[i].row, tasks[j].row))
    && (forall id :: id in met && id !in IdsOf(tasks) && id !in locked && met[id].status == Pending
                     && met[id].availableAt <= now && met[id].data.topic == topic ==>
          |tasks| == limit && forall i :: 0 <= i < |tasks| ==> NotLater(tasks[i].row, met[id]))
  }

  lemma HeldIsSound(start: Table<Item>, mid: Table<Item>, owner: string, id: string)
    requires Spares(owner, {}, start, mid) && Held(mid, owner, id)
    ensures RowInv(mid[id]) && Held(start, owner, id) && start[id] == mid[id]
  {
  }

  /** From one row to the other: an attempt more, no owner, the cause on record, all else as it
      was. With the last attempt the task has failed for good; any other leaves it pending for the
      backoff of the attempts before this one. */
  predicate ChargedWell(row: Row<Item>, row': Row<Item>, cause: string, at: int) {
    && row'.attempts == row.attempts + 1 && row'.maxAttempts == row.maxAttempts && row'.createdAt == row.createdAt
    && row'.lockedBy == "" && row'.lockedUntil == None
    && row'.data.topic == row.data.topic && row'.data.payload == row.data.payload && row'.data.lastError == cause
    && if row.attempts + 1 == row.maxAttempts then row'.status == Failed && row'.availableAt == at
       else row'.status == Pending && row'.availableAt == at + BackoffDelay(row.attempts)
  }

  lemma NextIsHeld(tasks: seq<Task<Item>>, i: nat, rows: Table<Item>, owner: string, handler: Task<Item> -> Verdict,
                   completed: set<string>, reliable: bool)
    requires i < |tasks| && HandleInv(tasks, i, rows, owner, handler, completed, reliable)
    ensures Held(rows, owner, tasks[i].id) && rows[tasks[i].id] == tasks[i].row
  {
  }

  lemma DoneIsCompleted(met: Table<Item>, owner: string, task: Task<Item>)
    requires owner != "" && Held(met, owner, task.id) && met[task.id] == task.row
    ensures var rows := Apply(met, Complete(owner, task.id, met[task.id].data));
      task.id in rows && CompletedWell(task.row, rows[task.id]) && !Held(rows, owner, task.id)
  {
  }

  lemma AttemptIsCharged(row: Row<Item>, row': Row<Item>, cause: string, at: int)
    requires ChargedWell(row, row', cause, at)
    ensures row'.attempts == row.attempts + 1 && row'.lockedBy == ""
  {
  }

  /** The row of a task that is done: nobody's, and otherwise as it was. */
  predicate CompletedWell(row: Row<Item>, row': Row<Item>) {
    && row'.status == Completed && row'.lockedBy == "" && row'.lockedUntil == None
    && row'.attempts == row.attempts && row'.maxAttempts == row.maxAttempts
    && row'.availableAt == row.availableAt && row'.createdAt == row.createdAt && row'.data == row.data
  }

  lemma FailedRowIsCharged(row: Row<Item>, cause: string, at: int)
    ensures ChargedWell(row, FailedRow(row, cause, at), cause, at)
    ensures FailedRow(row, cause, at).attempts == row.attempts + 1
  {
    hide BackoffDelay;
  }

  /** Handle after i tasks: the others are still exactly as polled, the completed ones are
      completed. */
  ghost predicate HandleInv(tasks: seq<Task<Item>>, i: nat, rows: Table<Item>, owner: string,
                            handler: Task<Item> -> Verdict, completed: set<string>, reliable: bool)
    requires i <= |tasks|
  {
    && DistinctIds(tasks)
    && completed <= Successes(tasks[..i], handler)
    && (reliable ==> completed == Successes(tasks[..i], handler))
    && (forall j :: 0 <= j < |tasks| ==> tasks[j].row.status == Running && tasks[j].row.lockedBy == owner)
    && (forall j :: i <= j < |tasks| ==> Held(rows, owner, tasks[j].id) && rows[tasks[j].id] == tasks[j].row)
    && (forall j :: 0 <= j < i ==> HandledWell(tasks[j], rows, owner, handler, completed, reliable))
  }

  ghost predicate HandledWell(task: Task<Item>, rows: Table<Item>, owner: string, handler: Task<Item> -> Verdict,
                              completed: set<string>, reliable: bool) {
    && task.id in rows
    && (task.id in completed ==> CompletedWell(task.row, rows[task.id]))
    && (reliable ==> !Held(rows, owner, task.id))
    && (reliable && handler(task).Broken? ==> rows[task.id].attempts > task.row.attempts)
  }

  /** What Handle's result means: the completed tasks are handler successes, all of them when
      no statement was lost, and are completed in the table, while they were running when
      polled; a failed handler cost its task an attempt. */
  lemma HandleResult(tasks: seq<Task<Item>>, rows: Table<Item>, owner: string, handler: Task<Item> -> Verdict,
                     completed: set<string>, reliable: bool)
    requires HandleInv(tasks, |tasks|, rows, owner, handler, completed, reliable)
    ensures completed <= Successes(tasks, handler) && (reliable ==> completed == Successes(tasks, handler))
    ensures forall i :: 0 <= i < |tasks| ==>
      && tasks[i].id in rows && tasks[i].row.status == Running
      && (tasks[i].id in completed ==> CompletedWell(tasks[i].row, rows[tasks[i].id]))
      && (reliable ==> !Held(rows, owner, tasks[i].id))
      && (reliable && handler(tasks[i]).Broken? ==> rows[tasks[i].id].attempts > tasks[i].row.attempts)
  {
    assert tasks[..|tasks|] == tasks;
    assert forall i :: 0 <= i < |tasks| ==> HandledWell(tasks[i], rows, owner, handler, completed, reliable);
  }

  lemma NothingPolled(rows: Table<Item>, owner: string, handler: Task<Item> -> Verdict, reliable: bool)
    ensures HandleInv([], 0, rows, owner, handler, {}, reliable)
  {
  }

  lemma PolledIsReady(before: Table<Item>, after: Table<Item>, owner: string, locked: set<string>, topic: string,
                      limit: int, now: int, until: int, tasks: seq<Task<Item>>, handler: Task<Item> -> Verdict,
                      reliable: bool)
    requires TableInv(before) && owner != ""
    requires Polled(before, after, owner, locked, OnTopic(topic), limit, now, until, tasks)
    requires forall i :: 0 <= i < |tasks| ==> tasks[i].row == after[tasks[i].id]
    ensures HandleInv(tasks, 0, after, owner, handler, {}, reliable)
    ensures TookBatch(before, after, owner, topic, limit, now, until, locked, tasks)
  {
    PolledMeans(before, after, owner, locked, OnTopic(topic), limit, now, until, tasks);
    assert Successes(tasks[..0], handler) == {};
  }

  lemma SparesIsSound(start: Table<Item>, met: Table<Item>, owner: string)
    requires Spares(owner, {}, start, met)
    ensures TableInv(met)
  {
  }

  lemma SparesNone(owner: string, own: set<string>, rows: Table<Item>)
    requires TableInv(rows)
    ensures Spares(owner, own, rows, rows)
  {
  }

  lemma SparesOnward(tasks: seq<Task<Item>>, i: nat, owner: string, taken: Table<Item>, rows: Table<Item>,
                     rows': Table<Item>)
    requires i < |tasks| && Spares(owner, IdsOf(tasks), taken, rows) && Spares(owner, {tasks[i].id}, rows, rows')
    ensures Spares(owner, IdsOf(tasks), taken, rows')
  {
    hide Spares;
    SparesTrans(owner, IdsOf(tasks), {tasks[i].id}, taken, rows, rows');
    assert IdsOf(tasks) + {tasks[i].id} == IdsOf(tasks);
  }

  lemma SuccessesStep(tasks: seq<Task<Item>>, i: nat, handler: Task<Item> -> Verdict)
    requires i < |tasks|
    ensures Successes(tasks[..i + 1], handler)
         == Successes(tasks[..i], handler) + if handler(tasks[i]).Done? then {tasks[i].id} else {}
  {
    var before, after := tasks[..i], tasks[..i + 1];
    assert forall j :: 0 <= j < i ==> before[j] == after[j] == tasks[j];
    forall id | id in Successes(before, handler)
      ensures id in Successes(after, handler)
    {
      var j :| 0 <= j < i && handler(before[j]).Done? && before[j].id == id;
      assert after[j].id == id;
    }
    if handler(tasks[i]).Done? {
      assert after[i].id in Successes(after, handler);
    }
  }

  /** One turn of the loop, from what the call on task i left behind. */
  lemma HandleStep(tasks: seq<Task<Item>>, i: nat, rows: Table<Item>, rows': Table<Item>, owner: string,
                   handler: Task<Item> -> Verdict, completed: set<string>, done: bool, reliable: bool)
    requires i < |tasks| && HandleInv(tasks, i, rows, owner, handler, completed, reliable)
    requires Spares(owner, {tasks[i].id}, rows, rows')
    requires done ==> handler(tasks[i]).Done? && CompletedWell(tasks[i].row, rows'[tasks[i].id])
    requires reliable ==> !Held(rows', owner, tasks[i].id)
    requires reliable ==> (done <==> handler(tasks[i]).Done?)
    requires reliable && handler(tasks[i]).Broken? ==> rows'[tasks[i].id].attempts > rows[tasks[i].id].attempts
    ensures HandleInv(tasks, i + 1, rows', owner, handler, completed + Only(tasks[i].id, done), reliable)
    ensures tasks[i].id !in completed
  {
    SuccessesStep(tasks, i, handler);
    assert forall j :: 0 <= j < i ==> tasks[..i][j] == tasks[j];
    forall j | 0 <= j < i + 1
      ensures HandledWell(tasks[j], rows', owner, handler, completed + Only(tasks[i].id, done), reliable)
    {
      if j < i {
        assert HandledWell(tasks[j], rows, owner, handler, completed, reliable);
      }
    }
  }
}
