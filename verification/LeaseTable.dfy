/** The two lease tables, `queue_items` and `notification_tasks`, seen one SQL statement at a
    time. Both tables run the same protocol, so a row has the lease columns and a `data`
    part with whatever else the table stores. */
module LeaseTable {
  import opened Prelude

  datatype Status = Pending | Running | Completed | Failed

  /** Times are nanoseconds. `lockedBy` is '' and `lockedUntil` NULL on an unclaimed row. */
  datatype Row<D> = Row(
    status: Status,
    attempts: nat,
    maxAttempts: nat,
    availableAt: int,
    createdAt: int,
    lockedBy: string,
    lockedUntil: Option<int>,
    data: D)

  type Table<D> = map<string, Row<D>>

  /** One atomic statement. `Claim` is what a whole poll transaction amounts to;
      LeaseProtocol proves that it is. `data` is the row's data after the statement. */
  datatype Statement<D> =
    | Insert(id: string, maxAttempts: nat, availableAt: int, createdAt: int, data: D)
    | Claim(owner: string, ids: set<string>, now: int, until: int)
    | Complete(owner: string, id: string, data: D)
    | Fail(owner: string, id: string, availableAt: int, data: D)
    | Requeue(owner: string, id: string, availableAt: int, data: D)

  /** The WHERE clause of a poll, without the topic or cooldown filter. */
  predicate Claimable<D>(row: Row<D>, now: int) {
    && row.status == Pending
    && row.availableAt <= now
    && (row.lockedUntil.None? || row.lockedUntil.value <= now)
  }

  /** The WHERE clause of a settling UPDATE: id and locked_by, never the status. */
  predicate Held<D>(rows: Table<D>, owner: string, id: string) {
    id in rows && rows[id].lockedBy == owner
  }

  function Fresh<D>(maxAttempts: nat, availableAt: int, createdAt: int, data: D): Row<D> {
    Row(Pending, 0, maxAttempts, availableAt, createdAt, "", None, data)
  }

  function Claimed<D>(row: Row<D>, owner: string, until: int): Row<D> {
    row.(status := Running, lockedBy := owner, lockedUntil := Some(until))
  }

  function Released<D>(row: Row<D>, status: Status, data: D): Row<D> {
    row.(status := status, lockedBy := "", lockedUntil := None, data := data)
  }

  function Charged<D>(row: Row<D>, availableAt: int, data: D): Row<D> {
    var status := if row.attempts + 1 >= row.maxAttempts then Failed else Pending;
    Released(row, status, data).(attempts := row.attempts + 1, availableAt := availableAt)
  }

  /** The table after one statement. */
  function Apply<D>(rows: Table<D>, st: Statement<D>): Table<D> {
    match st
    case Insert(id, maxAttempts, availableAt, createdAt, data) =>
      if id in rows then rows else rows[id := Fresh(maxAttempts, availableAt, createdAt, data)]
    case Claim(owner, ids, now, until) =>
      map id | id in rows ::
        if id in ids && Claimable(rows[id], now) then Claimed(rows[id], owner, until) else rows[id]
    case Complete(owner, id, data) =>
      if Held(rows, owner, id) then rows[id := Released(rows[id], Completed, data)] else rows
    case Fail(owner, id, availableAt, data) =>
      if Held(rows, owner, id) then rows[id := Charged(rows[id], availableAt, data)] else rows
    case Requeue(owner, id, availableAt, data) =>
      if Held(rows, owner, id)
      then rows[id := Released(rows[id], Pending, data).(availableAt := availableAt)]
      else rows
  }

  function Listed(ids: seq<string>): set<string> {
    set id | id in ids
  }

  /** The UPDATE of a poll, ... WHERE id = ANY(ids): nothing but the id list selects its rows. */
  function WriteBack<D>(rows: Table<D>, w: string, ids: set<string>, until: int): Table<D> {
    map id | id in rows :: if id in ids then Claimed(rows[id], w, until) else rows[id]
  }

  /** That UPDATE is an atomic claim as long as every listed row is still claimable. */
  lemma WriteBackIsClaim<D>(rows: Table<D>, owner: string, ids: set<string>, now: int, until: int)
    requires forall id :: id in ids && id in rows ==> Claimable(rows[id], now)
    ensures WriteBack(rows, owner, ids, until) == Apply(rows, Claim(owner, ids, now, until))
  {
  }

  lemma WriteBackNothing<D>(rows: Table<D>, owner: string, until: int)
    ensures WriteBack(rows, owner, {}, until) == rows
  {
  }

  function Exec<D>(rows: Table<D>, sts: seq<Statement<D>>): Table<D> {
    if sts == [] then rows else Apply(Exec(rows, sts[..|sts| - 1]), sts[|sts| - 1])
  }

  // ---------------------------------------------------------------- the invariant

  /** What every reachable row satisfies: a row is running exactly when it names an owner and
      exactly when it carries a lease time, and it has failed exactly when its attempts are
      used up. */
  predicate RowInv<D>(row: Row<D>) {
    && 1 <= row.maxAttempts
    && row.attempts <= row.maxAttempts
    && (row.status == Running <==> row.lockedBy != "")
    && (row.status == Running <==> row.lockedUntil.Some?)
    && (row.status == Failed <==> row.attempts == row.maxAttempts)
  }

  predicate TableInv<D>(rows: Table<D>) {
    forall id :: id in rows ==> RowInv(rows[id])
  }

  /** What the services guarantee about the statements they send: owners are not empty
      (NewQueueService generates one) and a task may be tried at least once. */
  predicate Sound<D>(st: Statement<D>) {
    if st.Insert? then 1 <= st.maxAttempts else st.owner != ""
  }

  predicate AllSound<D>(sts: seq<Statement<D>>) {
    forall i :: 0 <= i < |sts| ==> Sound(sts[i])
  }

  lemma ApplyKeepsInv<D>(rows: Table<D>, st: Statement<D>)
    requires TableInv(rows) && Sound(st)
    ensures TableInv(Apply(rows, st))
  {
  }

  lemma {:induction false} ExecKeepsInv<D>(rows: Table<D>, sts: seq<Statement<D>>)
    requires TableInv(rows) && AllSound(sts)
    ensures TableInv(Exec(rows, sts))
  {
    if sts != [] {
      ExecKeepsInv(rows, sts[..|sts| - 1]);
      ApplyKeepsInv(Exec(rows, sts[..|sts| - 1]), sts[|sts| - 1]);
    }
  }

  lemma {:induction false} ExecConcat<D>(rows: Table<D>, a: seq<Statement<D>>, b: seq<Statement<D>>)
    ensures Exec(rows, a + b) == Exec(Exec(rows, a), b)
  {
    if b == [] {
      assert a + b == a;
    } else {
      ExecConcat(rows, a, b[..|b| - 1]);
      assert (a + b)[..|a + b| - 1] == a + b[..|b| - 1];
    }
  }

  // ---------------------------------------------------------------- who may change a row

  /** `st` is a settling statement of `owner` for `id`. */
  predicate Settles<D>(st: Statement<D>, owner: string, id: string) {
    (st.Complete? || st.Fail? || st.Requeue?) && st.owner == owner && st.id == id
  }

  /** Completed and failed rows never change again, whatever any worker sends: no column of
      them moves. */
  lemma {:induction false} TerminalRowsAreFinal<D>(rows: Table<D>, sts: seq<Statement<D>>, id: string)
    requires TableInv(rows) && AllSound(sts)
    requires id in rows && rows[id].status in {Completed, Failed}
    ensures id in Exec(rows, sts) && Exec(rows, sts)[id] == rows[id]
  {
    if sts != [] {
      TerminalRowsAreFinal(rows, sts[..|sts| - 1], id);
    }
  }

  /** A running row is frozen, in every column, until its own owner settles it. */
  lemma {:induction false} ClaimFreezesRow<D>(rows: Table<D>, sts: seq<Statement<D>>, id: string)
    requires TableInv(rows) && AllSound(sts)
    requires id in rows && rows[id].status == Running
    requires forall i :: 0 <= i < |sts| ==> !Settles(sts[i], rows[id].lockedBy, id)
    ensures id in Exec(rows, sts) && Exec(rows, sts)[id] == rows[id]
  {
    if sts != [] {
      ClaimFreezesRow(rows, sts[..|sts| - 1], id);
    }
  }

  /** The owner guard is the only guard there is. On a row nobody is running, a Fail is
      harmless exactly when its owner is not the empty string; with an empty owner it
      would charge an attempt to a completed or failed task. */
  lemma EmptyOwnerIsTheOnlyHole<D(!new)>(rows: Table<D>, owner: string, id: string, availableAt: int, data: D)
    requires TableInv(rows) && id in rows && rows[id].status != Running
    ensures Apply(rows, Fail(owner, id, availableAt, data)) == rows <==> owner != ""
  {
    if owner == "" {
      assert Apply(rows, Fail(owner, id, availableAt, data))[id].attempts == rows[id].attempts + 1;
    }
  }

  /** The settling statements are for the owner alone: with no claim of its own on `id`,
      an owner's statement changes nothing. */
  lemma SettlingNeedsTheClaim<D>(rows: Table<D>, st: Statement<D>, owner: string, id: string)
    requires TableInv(rows) && owner != "" && Settles(st, owner, id)
    ensures Apply(rows, st) != rows ==> Held(rows, owner, id) && rows[id].status == Running
  {
  }

  /** `st` comes from another session than `owner`'s. */
  predicate FromOther<D>(st: Statement<D>, owner: string) {
    Sound(st) && (st.Insert? || st.owner != owner)
  }

  /** From `rows` to `rows'` nothing happened to owner's claims, except to those on `own`; it
      gained none; terminal rows did not move; no attempt was given back. */
  ghost predicate Spares<D>(owner: string, own: set<string>, rows: Table<D>, rows': Table<D>) {
    && TableInv(rows')
    && rows.Keys <= rows'.Keys
    && (forall id :: Held(rows, owner, id) && id !in own ==> rows'[id] == rows[id])
    && (forall id :: Held(rows', owner, id) ==> Held(rows, owner, id))
    && (forall id :: id in rows && (rows[id].status == Completed || rows[id].status == Failed) ==>
          rows'[id] == rows[id])
    && (forall id :: id in rows ==> rows[id].attempts <= rows'[id].attempts)
  }

  lemma SparesTrans<D>(owner: string, a: set<string>, b: set<string>, x: Table<D>, y: Table<D>, z: Table<D>)
    requires Spares(owner, a, x, y) && Spares(owner, b, y, z)
    ensures Spares(owner, a + b, x, z)
  {
  }

  lemma SparesThen<D>(owner: string, own: set<string>, x: Table<D>, y: Table<D>, z: Table<D>)
    requires Spares(owner, {}, x, y) && Spares(owner, own, y, z)
    ensures Spares(owner, own, x, z)
    ensures forall id :: Held(y, owner, id) <==> Held(x, owner, id)
    ensures forall id :: Held(x, owner, id) ==> y[id] == x[id] && RowInv(x[id])
  {
  }

  lemma StatementSparesOthers<D>(rows: Table<D>, st: Statement<D>, owner: string)
    requires TableInv(rows) && owner != "" && FromOther(st, owner)
    ensures Spares(owner, {}, rows, Apply(rows, st))
  {
    ApplyKeepsInv(rows, st);
    var rows' := Apply(rows, st);
    forall id | id in rows
      ensures id in rows' && rows[id].attempts <= rows'[id].attempts
      ensures rows'[id] == rows[id] || (rows'[id].lockedBy != owner && !Held(rows, owner, id)
                                        && rows[id].status in {Pending, Running})
    {
      assert RowInv(rows[id]);
    }
  }

  lemma OwnStatementSpares<D>(rows: Table<D>, st: Statement<D>, owner: string, id: string)
    requires TableInv(rows) && owner != "" && Settles(st, owner, id)
    ensures Spares(owner, {id}, rows, Apply(rows, st)) && !Held(Apply(rows, st), owner, id)
  {
    ApplyKeepsInv(rows, st);
    assert id in rows ==> RowInv(rows[id]);
  }

  /** An owner's settling statement, after others have run. */
  lemma SettlingAfterOthers<D>(owner: string, id: string, start: Table<D>, arrived: Table<D>, st: Statement<D>)
    requires owner != "" && Spares(owner, {}, start, arrived) && Settles(st, owner, id) && Held(arrived, owner, id)
    ensures Held(start, owner, id) && start[id] == arrived[id]
    ensures TableInv(Apply(arrived, st)) && Spares(owner, {id}, start, Apply(arrived, st))
  {
    OwnStatementSpares(arrived, st, owner, id);
    SparesThen(owner, {id}, start, arrived, Apply(arrived, st));
  }

  /** Whatever other sessions do, an owner's claims stay exactly as they are, it gains none,
      and terminal rows do not move. */
  lemma {:induction false} OthersSpare<D>(rows: Table<D>, sts: seq<Statement<D>>, owner: string)
    requires TableInv(rows) && owner != ""
    requires forall i :: 0 <= i < |sts| ==> FromOther(sts[i], owner)
    ensures Spares(owner, {}, rows, Exec(rows, sts))
  {
    if sts != [] {
      OthersSpare(rows, sts[..|sts| - 1], owner);
      StatementSparesOthers(Exec(rows, sts[..|sts| - 1]), sts[|sts| - 1], owner);
      SparesThen(owner, {}, rows, Exec(rows, sts[..|sts| - 1]), Exec(rows, sts));
    }
  }

  // ---------------------------------------------------------------- SKIP LOCKED

  predicate Eligible<D>(row: Row<D>, filter: D -> bool, now: int) {
    Claimable(row, now) && filter(row.data)
  }

  /** ORDER BY available_at, created_at. */
  predicate Earlier<D>(a: Row<D>, b: Row<D>) {
    a.availableAt < b.availableAt || (a.availableAt == b.availableAt && a.createdAt < b.createdAt)
  }

  /** What a poll's SELECT may return: eligible unlocked rows in order, and it skips an
      eligible row only because another transaction has it locked or because the limit was
      reached by rows that are not later. */
  ghost predicate IsPoll<D>(rows: Table<D>, locked: set<string>, filter: D -> bool, now: int, limit: int,
                            ids: seq<string>) {
    && |ids| <= limit
    && (forall i, j :: 0 <= i < j < |ids| ==> ids[i] != ids[j])
    && (forall i :: 0 <= i < |ids| ==>
          ids[i] in rows && ids[i] !in locked && Eligible(rows[ids[i]], filter, now))
    && (forall i, j :: 0 <= i < j < |ids| ==> !Earlier(rows[ids[j]], rows[ids[i]]))
    && (forall id :: id in rows && Eligible(rows[id], filter, now) && id !in ids ==>
          || id in locked
          || (|ids| == limit && forall i :: 0 <= i < |ids| ==> !Earlier(rows[id], rows[ids[i]])))
  }

  lemma {:induction false} EarliestExists<D>(rows: Table<D>, ids: set<string>)
    requires ids != {} && ids <= rows.Keys
    ensures exists id :: id in ids && forall other :: other in ids ==> !Earlier(rows[other], rows[id])
  {
    var id :| id in ids;
    if ids != {id} {
      EarliestExists(rows, ids - {id});
      var best :| best in ids - {id} && forall other :: other in ids - {id} ==> !Earlier(rows[other], rows[best]);
      var least := if Earlier(rows[id], rows[best]) then id else best;
      assert forall other :: other in ids ==> other == id || other in ids - {id};
      assert forall other :: other in ids ==> !Earlier(rows[other], rows[least]);
    }
  }

  /** SELECT ... ORDER BY ... FOR UPDATE SKIP LOCKED LIMIT; ties come in any order. */
  method SelectForUpdate<D>(rows: Table<D>, locked: set<string>, filter: D -> bool, now: int, limit: int)
    returns (ids: seq<string>)
    requires limit > 0
    ensures IsPoll(rows, locked, filter, now, limit, ids)
  {
    var rest := set id | id in rows && id !in locked && Eligible(rows[id], filter, now);
    ghost var all := rest;
    ids := [];
    while rest != {} && |ids| < limit
      invariant |ids| <= limit && rest <= all
      invariant forall id :: id in all <==> id in rest || id in ids
      invariant forall i :: 0 <= i < |ids| ==> ids[i] !in rest
      invariant forall i, j :: 0 <= i < j < |ids| ==> ids[i] != ids[j]
      invariant forall i, j :: 0 <= i < j < |ids| ==> !Earlier(rows[ids[j]], rows[ids[i]])
      invariant forall i, id :: 0 <= i < |ids| && id in rest ==> !Earlier(rows[id], rows[ids[i]])
      decreases rest
    {
      EarliestExists(rows, rest);
      var id :| id in rest && forall other :: other in rest ==> !Earlier(rows[other], rows[id]);
      ids, rest := ids + [id], rest - {id};
    }
  }

  // ---------------------------------------------------------------- the ledger

  /** What one statement does to one task. */
  datatype Effect = Untouched | Inserted | Taken | Finished | Charge | Returned

  function EffectOn<D>(rows: Table<D>, st: Statement<D>, id: string): Effect {
    match st
    case Insert(i, _, _, _, _) => if i == id && id !in rows then Inserted else Untouched
    case Claim(_, ids, now, _) =>
      if id in rows && id in ids && Claimable(rows[id], now) then Taken else Untouched
    case Complete(owner, i, _) => if i == id && Held(rows, owner, id) then Finished else Untouched
    case Fail(owner, i, _, _) => if i == id && Held(rows, owner, id) then Charge else Untouched
    case Requeue(owner, i, _, _) => if i == id && Held(rows, owner, id) then Returned else Untouched
  }

  /** How often the run had effect `e` on task `id`. */
  function Tally<D>(rows: Table<D>, sts: seq<Statement<D>>, id: string, e: Effect): nat {
    if sts == [] then 0 else
      var before := sts[..|sts| - 1];
      Tally(rows, before, id, e)
      + One(EffectOn(Exec(rows, before), sts[|sts| - 1], id) == e)
  }

  function RunningCount<D>(rows: Table<D>, id: string): nat {
    if id in rows && rows[id].status == Running then 1 else 0
  }

  function AttemptsOf<D>(rows: Table<D>, id: string): nat {
    if id in rows then rows[id].attempts else 0
  }

  predicate IsCompleted<D>(rows: Table<D>, id: string) {
    id in rows && rows[id].status == Completed
  }

  function One(b: bool): nat { if b then 1 else 0 }

  /** The ledger of a single statement. */
  lemma LedgerStep<D>(rows: Table<D>, st: Statement<D>, id: string)
    requires TableInv(rows) && Sound(st)
    ensures var after, e := Apply(rows, st), EffectOn(rows, st, id);
      && RunningCount(rows, id) + One(e == Taken)
         == One(e == Finished) + One(e == Charge) + One(e == Returned) + RunningCount(after, id)
      && AttemptsOf(after, id) == AttemptsOf(rows, id) + One(e == Charge)
      && One(IsCompleted(after, id)) == One(IsCompleted(rows, id)) + One(e == Finished)
  {
    if id in rows {
      assert RowInv(rows[id]);
    }
  }

  /** Conservation, over any run: every claim is still running or was closed by exactly one
      complete, fail or requeue; attempts counts the fails; a task completes at most once, and
      is completed exactly when that happened. */
  lemma {:induction false} Ledger<D>(rows: Table<D>, sts: seq<Statement<D>>, id: string)
    requires TableInv(rows) && AllSound(sts)
    ensures var after := Exec(rows, sts);
      && RunningCount(rows, id) + Tally(rows, sts, id, Taken)
         == Tally(rows, sts, id, Finished) + Tally(rows, sts, id, Charge)
            + Tally(rows, sts, id, Returned) + RunningCount(after, id)
      && AttemptsOf(after, id) == AttemptsOf(rows, id) + Tally(rows, sts, id, Charge)
      && One(IsCompleted(after, id)) == One(IsCompleted(rows, id)) + Tally(rows, sts, id, Finished)
  {
    if sts != [] {
      var before := sts[..|sts| - 1];
      Ledger(rows, before, id);
      ExecKeepsInv(rows, before);
      LedgerStep(Exec(rows, before), sts[|sts| - 1], id);
    }
  }

  lemma {:induction false} MaxAttemptsIsFixed<D>(rows: Table<D>, sts: seq<Statement<D>>, id: string)
    requires id in rows
    ensures id in Exec(rows, sts) && Exec(rows, sts)[id].maxAttempts == rows[id].maxAttempts
  {
    if sts != [] {
      MaxAttemptsIsFixed(rows, sts[..|sts| - 1], id);
    }
  }

  /** Bounded retries: in any run that starts with an empty table a task is claimed at most
      max_attempts times, plus once for every requeue. */
  lemma ClaimsAreBounded<D>(sts: seq<Statement<D>>, id: string)
    requires AllSound(sts) && id in Exec(map[], sts)
    ensures var row := Exec(map[], sts)[id];
      && Tally(map[], sts, id, Taken) <= row.maxAttempts + Tally(map[], sts, id, Returned)
      && row.attempts == Tally(map[], sts, id, Charge) <= row.maxAttempts
      && (row.status == Failed <==> Tally(map[], sts, id, Charge) == row.maxAttempts)
  {
    Ledger(map[], sts, id);
    ExecKeepsInv(map[], sts);
  }

  // ---------------------------------------------------------------- progress

  /** The statements a task can still absorb before it is terminal, if nobody requeues it. */
  function Weight<D>(row: Row<D>): nat {
    var left := if row.attempts < row.maxAttempts then row.maxAttempts - row.attempts else 0;
    match row.status
    case Pending => 2 * left
    case Running => if left > 0 then 2 * left - 1 else 0
    case Completed => 0
    case Failed => 0
  }

  ghost function WeightOver<D>(rows: Table<D>, ids: set<string>): nat
    requires ids <= rows.Keys
  {
    if ids == {} then 0 else
      var id :| id in ids;
      Weight(rows[id]) + WeightOver(rows, ids - {id})
  }

  ghost function Potential<D>(rows: Table<D>): nat {
    WeightOver(rows, rows.Keys)
  }

  lemma {:induction false} WeightExtract<D>(rows: Table<D>, ids: set<string>, id: string)
    requires ids <= rows.Keys && id in ids
    ensures WeightOver(rows, ids) == Weight(rows[id]) + WeightOver(rows, ids - {id})
  {
    var first :| first in ids && WeightOver(rows, ids) == Weight(rows[first]) + WeightOver(rows, ids - {first});
    if first != id {
      WeightExtract(rows, ids - {first}, id);
      WeightExtract(rows, ids - {id}, first);
      assert ids - {first} - {id} == ids - {id} - {first};
    }
  }

  /** The tasks a statement takes, finishes or charges. */
  function Advanced<D>(rows: Table<D>, st: Statement<D>): set<string> {
    set id | id in rows && EffectOn(rows, st, id) in {Taken, Finished, Charge}
  }

  lemma RowWeightDrops<D>(rows: Table<D>, st: Statement<D>, id: string)
    requires TableInv(rows) && Sound(st) && !st.Insert? && !st.Requeue? && id in rows
    ensures TableInv(Apply(rows, st)) && id in Apply(rows, st)
    ensures Weight(Apply(rows, st)[id]) + One(id in Advanced(rows, st)) <= Weight(rows[id])
  {
    ApplyKeepsInv(rows, st);
    assert RowInv(rows[id]);
  }

  /** If every row of `ids` loses weight, and loses it strictly on `moved`, so does the sum. */
  lemma {:induction false} WeightDrops<D>(rows: Table<D>, after: Table<D>, moved: set<string>, ids: set<string>)
    requires ids <= rows.Keys && ids <= after.Keys
    requires forall id :: id in ids ==> Weight(after[id]) + One(id in moved) <= Weight(rows[id])
    ensures WeightOver(after, ids) + |moved * ids| <= WeightOver(rows, ids)
  {
    if ids == {} {
      assert moved * ids == {};
    } else {
      var id :| id in ids;
      WeightDrops(rows, after, moved, ids - {id});
      WeightExtract(rows, ids, id);
      WeightExtract(after, ids, id);
      var rest := moved * (ids - {id});
      if id in moved {
        assert moved * ids == rest + {id};
      } else {
        assert moved * ids == rest;
      }
    }
  }

  /** All the claims, completes and fails of a run, over all tasks. */
  function Work<D>(rows: Table<D>, sts: seq<Statement<D>>): nat {
    if sts == [] then 0 else
      var before := sts[..|sts| - 1];
      Work(rows, before) + |Advanced(Exec(rows, before), sts[|sts| - 1])|
  }

  /** Progress: without new tasks or requeues every claim, fail or complete uses up the
      table's potential, so no schedule of workers can make them go on forever. */
  lemma {:induction false} WorkIsBounded<D>(rows: Table<D>, sts: seq<Statement<D>>)
    requires TableInv(rows) && AllSound(sts)
    requires forall i :: 0 <= i < |sts| ==> !sts[i].Insert? && !sts[i].Requeue?
    ensures TableInv(Exec(rows, sts))
    ensures Potential(Exec(rows, sts)) + Work(rows, sts) <= Potential(rows)
  {
    if sts != [] {
      var before, st := sts[..|sts| - 1], sts[|sts| - 1];
      WorkIsBounded(rows, before);
      var mid := Exec(rows, before);
      ApplyKeepsInv(mid, st);
      assert Apply(mid, st).Keys == mid.Keys;
      forall id | id in mid
        ensures Weight(Apply(mid, st)[id]) + One(id in Advanced(mid, st)) <= Weight(mid[id])
      {
        RowWeightDrops(mid, st, id);
      }
      WeightDrops(mid, Apply(mid, st), Advanced(mid, st), mid.Keys);
      assert Advanced(mid, st) * mid.Keys == Advanced(mid, st);
    }
  }
}
