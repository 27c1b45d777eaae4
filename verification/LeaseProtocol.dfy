/** Any number of workers on one lease table, interleaved statement by statement.

    A poll is an open transaction of several statements: SELECT ... FOR UPDATE SKIP LOCKED,
    an UPDATE by id list with no further guard, and a commit whose acknowledgement may be
    lost. Between any two statements of one worker every other worker may run, and a
    worker may lose a statement or die. A run is a list of steps; each step names the
    choices the database or the clock made. */
module LeaseProtocol {
  import opened Prelude
  import opened LeaseTable
  import opened Backoff

  /** Where a worker's goroutine is. `tasks` are the rows its open transaction has locked,
      with the attempts the SELECT returned; `Loaded` is QueueService.Fail between its
      PollByID and its UPDATE. */
  datatype Phase =
    | Idle
    | Selected(tasks: map<string, nat>, now: int)
    | Written(tasks: map<string, nat>, now: int, until: int)
    | Loaded(id: string, attempts: nat, maxAttempts: nat)
    | Dead

  /** `hand` holds the tasks Poll returned that the worker has not settled yet, with their
      attempts at poll time. `batch` is the latest poll's result as returned, settled tasks
      included: ProcessBatch fails a task from it even after it has requeued it. */
  datatype Worker = Worker(phase: Phase, hand: map<string, nat>, batch: map<string, nat>)

  datatype State<D> = State(rows: Table<D>, workers: map<string, Worker>, clock: int)

  /** Select names what the database returned, `acked` whether the client saw the commit succeed;
      whether it sees a settling statement succeed makes no difference to what it may do next.
      Fail takes its delay either from a row it loads first (QueueService.Fail) or from the polled
      snapshot (ProcessBatch). */
  datatype Step<!D> =
    | Enqueue(id: string, maxAttempts: nat, availableAt: int, createdAt: int, data: D)
    | Join(w: string)
    | Select(w: string, filter: D -> bool, limit: int, ids: seq<string>, now: int)
    | Write(w: string, ttl: int)
    | Commit(w: string, acked: bool)
    | Rollback(w: string)
    | Load(w: string, id: string)
    | DoComplete(w: string, id: string, data: D)
    | DoFail(w: string, id: string, at: int, data: D)
    | DoRequeue(w: string, id: string, at: int, delay: int, data: D)
    | GiveUp(w: string)
    | Crash(w: string)
    | Tick(to: int)

  function Init<D>(): State<D> { State(map[], map[], 0) }

  // ---------------------------------------------------------------- row locks

  function Locked(phase: Phase): map<string, nat> {
    if phase.Selected? || phase.Written? then phase.tasks else map[]
  }

  predicate RowLockedBy<D>(s: State<D>, w: string, id: string) {
    w in s.workers && id in Locked(s.workers[w].phase)
  }

  predicate LockedElsewhere<D>(s: State<D>, w: string, id: string) {
    exists v :: v in s.workers && v != w && RowLockedBy(s, v, id)
  }

  /** The rows other open transactions have locked, from w's point of view. */
  ghost function LockedRows<D>(s: State<D>, w: string): set<string> {
    set id | id in s.rows && LockedElsewhere(s, w, id)
  }

  /** A settling UPDATE waits while another transaction has its row locked. */
  predicate Blocked<D>(s: State<D>, w: string, id: string) {
    Held(s.rows, w, id) && LockedElsewhere(s, w, id)
  }

  // ---------------------------------------------------------------- steps

  predicate At<D>(s: State<D>, w: string) {
    w in s.workers && s.workers[w].phase.Idle?
  }

  /** The worker may call Fail on `id` now. */
  predicate MayFail<D>(s: State<D>, w: string, id: string) {
    w in s.workers &&
    match s.workers[w].phase
    case Loaded(i, _, _) => i == id
    case Idle => id in s.workers[w].hand || id in s.workers[w].batch
    case _ => false
  }

  /** The delay Fail decided on, from what this worker has read. */
  function FailDelay<D>(s: State<D>, w: string, id: string): int
    requires MayFail(s, w, id)
  {
    match s.workers[w].phase
    case Loaded(_, attempts, maxAttempts) =>
      if attempts + 1 >= maxAttempts then 0 else BackoffDelay(attempts)
    case Idle =>
      BackoffDelay(if id in s.workers[w].hand then s.workers[w].hand[id] else s.workers[w].batch[id])
  }

  ghost predicate Enabled<D>(s: State<D>, step: Step<D>) {
    match step
    case Enqueue(id, maxAttempts, _, _, _) => id !in s.rows && maxAttempts >= 1
    case Join(w) => w != "" && w !in s.workers
    case Select(w, filter, limit, ids, now) =>
      At(s, w) && now <= s.clock && IsPoll(s.rows, LockedRows(s, w), filter, now, limit, ids)
    case Write(w, _) => w in s.workers && s.workers[w].phase.Selected?
    case Commit(w, _) => w in s.workers && s.workers[w].phase.Written?
    case Rollback(w) => w in s.workers && (s.workers[w].phase.Selected? || s.workers[w].phase.Written?)
    case Load(w, id) => At(s, w) && id in s.rows
    case DoComplete(w, id, _) => At(s, w) && !Blocked(s, w, id)
    case DoFail(w, id, at, _) => MayFail(s, w, id) && at <= s.clock && !Blocked(s, w, id)
    case DoRequeue(w, id, at, _, _) => At(s, w) && at <= s.clock && !Blocked(s, w, id)
    case GiveUp(w) => w in s.workers && (s.workers[w].phase.Idle? || s.workers[w].phase.Loaded?)
    case Crash(w) => w in s.workers
    case Tick(to) => s.clock <= to
  }

  function SetPhase<D>(s: State<D>, w: string, phase: Phase): State<D>
    requires w in s.workers
  {
    s.(workers := s.workers[w := s.workers[w].(phase := phase)])
  }

  /** The settling statement ran; the worker no longer has the task. */
  function Settled<D>(s: State<D>, w: string, id: string, st: Statement<D>): State<D>
    requires w in s.workers
  {
    s.(rows := Apply(s.rows, st),
       workers := s.workers[w := Worker(Idle, s.workers[w].hand - {id}, s.workers[w].batch)])
  }

  ghost function FailStatement<D>(s: State<D>, step: Step<D>): Statement<D>
    requires step.DoFail? && MayFail(s, step.w, step.id)
  {
    Fail(step.w, step.id, step.at + FailDelay(s, step.w, step.id), step.data)
  }

  ghost function After<D>(s: State<D>, step: Step<D>): State<D>
    requires Enabled(s, step)
  {
    match step
    case Enqueue(id, maxAttempts, availableAt, createdAt, data) =>
      s.(rows := s.rows[id := Fresh(maxAttempts, availableAt, createdAt, data)])
    case Join(w) => s.(workers := s.workers[w := Worker(Idle, map[], map[])])
    case Select(w, _, _, ids, now) =>
      var tasks := map id | id in Listed(ids) && id in s.rows :: s.rows[id].attempts;
      s.(workers := s.workers[w := Worker(Selected(tasks, now), s.workers[w].hand, map[])])
    case Write(w, ttl) =>
      var phase := s.workers[w].phase;
      SetPhase(s, w, Written(phase.tasks, phase.now, phase.now + ttl))
    case Commit(w, acked) =>
      var worker := s.workers[w];
      State(WriteBack(s.rows, w, worker.phase.tasks.Keys, worker.phase.until),
            s.workers[w := if acked then Worker(Idle, worker.hand + worker.phase.tasks, worker.phase.tasks)
                           else Worker(Idle, worker.hand, map[])],
            s.clock)
    case Rollback(w) => SetPhase(s, w, Idle)
    case Load(w, id) => SetPhase(s, w, Loaded(id, s.rows[id].attempts, s.rows[id].maxAttempts))
    case DoComplete(w, id, data) => Settled(s, w, id, Complete(w, id, data))
    case DoFail(w, id, _, _) => Settled(s, w, id, FailStatement(s, step))
    case DoRequeue(w, id, at, delay, data) => Settled(s, w, id, Requeue(w, id, at + delay, data))
    case GiveUp(w) => SetPhase(s, w, Idle)
    case Crash(w) => s.(workers := s.workers[w := Worker(Dead, map[], map[])])
    case Tick(to) => s.(clock := to)
  }

  /** The steps can be taken one after the other. */
  ghost predicate Feasible<D>(s: State<D>, steps: seq<Step<D>>)
    decreases |steps|, 0
  {
    steps == [] ||
    (Feasible(s, steps[..|steps| - 1]) && Enabled(RunTo(s, steps[..|steps| - 1]), steps[|steps| - 1]))
  }

  ghost function RunTo<D>(s: State<D>, steps: seq<Step<D>>): State<D>
    requires Feasible(s, steps)
    decreases |steps|, 1
  {
    if steps == [] then s else After(RunTo(s, steps[..|steps| - 1]), steps[|steps| - 1])
  }

  // ---------------------------------------------------------------- the invariant

  ghost predicate HandInv<D>(s: State<D>, w: string)
    requires w in s.workers
  {
    forall id :: id in s.workers[w].hand ==>
      Held(s.rows, w, id) && s.rows[id].attempts == s.workers[w].hand[id]
  }

  /** What the worker remembers of its latest poll is true of the tasks it still holds, and those
      are in its hand. */
  ghost predicate BatchInv<D>(s: State<D>, w: string)
    requires w in s.workers
  {
    forall id :: id in s.workers[w].batch && Held(s.rows, w, id) ==>
      id in s.workers[w].hand && s.rows[id].attempts == s.workers[w].batch[id]
  }

  ghost predicate LockInv<D>(s: State<D>, w: string)
    requires w in s.workers
  {
    var phase := s.workers[w].phase;
    phase.Selected? || phase.Written? ==>
      && phase.now <= s.clock
      && (forall id :: id in phase.tasks ==>
            && id in s.rows
            && Claimable(s.rows[id], phase.now)
            && s.rows[id].attempts == phase.tasks[id])
  }

  ghost predicate LoadInv<D>(s: State<D>, w: string)
    requires w in s.workers
  {
    var phase := s.workers[w].phase;
    phase.Loaded? && Held(s.rows, w, phase.id) ==>
      s.rows[phase.id].attempts == phase.attempts && s.rows[phase.id].maxAttempts == phase.maxAttempts
  }

  ghost predicate WorkerInv<D>(s: State<D>, w: string)
    requires w in s.workers
  {
    w != "" && HandInv(s, w) && BatchInv(s, w) && LockInv(s, w) && LoadInv(s, w)
  }

  ghost predicate WorkersInv<D>(s: State<D>) {
    forall w :: w in s.workers ==> WorkerInv(s, w)
  }

  ghost predicate LocksDisjoint<D>(s: State<D>) {
    forall v, w, id :: RowLockedBy(s, v, id) && RowLockedBy(s, w, id) ==> v == w
  }

  ghost predicate Inv<D>(s: State<D>) {
    TableInv(s.rows) && WorkersInv(s) && LocksDisjoint(s)
  }

  // ---------------------------------------------------------------- refinement

  /** The one atomic statement a step performs on the table, if any. Of a poll
      transaction only the commit shows. */
  ghost function Visible<D>(s: State<D>, step: Step<D>): seq<Statement<D>>
    requires Enabled(s, step)
  {
    match step
    case Enqueue(id, maxAttempts, availableAt, createdAt, data) =>
      [Insert(id, maxAttempts, availableAt, createdAt, data)]
    case Commit(w, _) =>
      var phase := s.workers[w].phase;
      [Claim(w, phase.tasks.Keys, phase.now, phase.until)]
    case DoComplete(w, id, data) => [Complete(w, id, data)]
    case DoFail(_, _, _, _) => [FailStatement(s, step)]
    case DoRequeue(w, id, at, delay, data) => [Requeue(w, id, at + delay, data)]
    case _ => []
  }

  /** The poll transaction is one atomic claim. Its UPDATE checks nothing, but every row in
      its list is still claimable when the transaction commits. */
  lemma StepRefinesTable<D>(s: State<D>, step: Step<D>)
    requires Inv(s) && Enabled(s, step)
    ensures After(s, step).rows == Exec(s.rows, Visible(s, step))
    ensures AllSound(Visible(s, step))
    ensures step.Commit? ==>
      var phase := s.workers[step.w].phase;
      forall id :: id in phase.tasks ==> id in s.rows && Claimable(s.rows[id], phase.now)
  {
    hide IsPoll, HandInv, BatchInv, LoadInv, LocksDisjoint, TableInv, Released, Charged, Claimed, Fresh;
    var sts := Visible(s, step);
    if sts != [] {
      ExecOne(s.rows, sts);
    }
    if step.Commit? {
      assert WorkerInv(s, step.w);
      var phase := s.workers[step.w].phase;
      WriteBackIsClaim(s.rows, step.w, phase.tasks.Keys, phase.now, phase.until);
    } else if step.DoComplete? || step.DoFail? || step.DoRequeue? {
      assert WorkerInv(s, step.w);
    }
  }

  lemma ExecOne<D>(rows: Table<D>, sts: seq<Statement<D>>)
    requires |sts| == 1
    ensures Exec(rows, sts) == Apply(rows, sts[0])
  {
    assert sts[..0] == [];
  }

  // ---------------------------------------------------------------- every step keeps the invariant

  lemma LocksOnlyShrink<D>(s: State<D>, s': State<D>)
    requires LocksDisjoint(s)
    requires forall v, id :: RowLockedBy(s', v, id) ==> RowLockedBy(s, v, id)
    ensures LocksDisjoint(s')
  {
  }

  /** A worker's knowledge survives any change of the table that spares the rows it holds and
      the rows it has locked. */
  lemma WorkerUnaffected<D>(s: State<D>, s': State<D>, v: string)
    requires v in s.workers && v in s'.workers && s'.workers[v] == s.workers[v] && WorkerInv(s, v)
    requires s.clock <= s'.clock
    requires forall id :: id in s.rows && (s.rows[id].lockedBy == v || RowLockedBy(s, v, id)) ==>
               id in s'.rows && s'.rows[id] == s.rows[id]
    requires forall id :: Held(s'.rows, v, id) ==> Held(s.rows, v, id)
    ensures WorkerInv(s', v)
  {
  }

  /** Settling `id` touches one row, the settling worker's own, so no other worker's
      knowledge goes stale. */
  lemma SettledKeepsInv<D>(s: State<D>, w: string, id: string, st: Statement<D>)
    requires Inv(s) && w in s.workers && Settles(st, w, id)
    requires !s.workers[w].phase.Selected? && !s.workers[w].phase.Written?
    ensures Inv(Settled(s, w, id, st))
  {
    var s' := Settled(s, w, id, st);
    assert WorkerInv(s, w);
    ApplyKeepsInv(s.rows, st);
    forall v | v in s'.workers
      ensures WorkerInv(s', v)
    {
      if v != w {
        assert WorkerInv(s, v);
        SettlingSparesOthers(s, w, id, st, v);
        WorkerUnaffected(s, s', v);
      }
    }
    LocksOnlyShrink(s, s');
  }

  lemma SettlingSparesOthers<D>(s: State<D>, w: string, id: string, st: Statement<D>, v: string)
    requires TableInv(s.rows) && v in s.workers && WorkerInv(s, v) && v != w && w != "" && Settles(st, w, id)
    ensures var rows' := Apply(s.rows, st);
      && rows'.Keys == s.rows.Keys
      && (forall i :: i in s.rows && (s.rows[i].lockedBy == v || RowLockedBy(s, v, i)) ==> rows'[i] == s.rows[i])
      && (forall i :: Held(rows', v, i) ==> Held(s.rows, v, i))
  {
    assert LockInv(s, v);
    assert id in s.rows ==> RowInv(s.rows[id]);
  }

  /** A SELECT returns claimable rows that no other transaction has locked. */
  lemma PollIsClaimable<D>(s: State<D>, w: string, filter: D -> bool, limit: int, ids: seq<string>, now: int)
    requires IsPoll(s.rows, LockedRows(s, w), filter, now, limit, ids)
    ensures forall id :: id in Listed(ids) ==> id in s.rows && Claimable(s.rows[id], now) && !LockedElsewhere(s, w, id)
  {
  }

  lemma SelectKeepsInv<D>(s: State<D>, step: Step<D>)
    requires Inv(s) && Enabled(s, step) && step.Select?
    ensures Inv(After(s, step))
  {
    hide IsPoll;
    var w, s' := step.w, After(s, step);
    PollIsClaimable(s, w, step.filter, step.limit, step.ids, step.now);
    assert WorkerInv(s, w);
    forall v | v in s'.workers
      ensures WorkerInv(s', v)
    {
      if v != w {
        WorkerUnaffected(s, s', v);
      }
    }
    forall u, v, id | RowLockedBy(s', u, id) && RowLockedBy(s', v, id)
      ensures u == v
    {
      assert u != w ==> RowLockedBy(s, u, id);
      assert v != w ==> RowLockedBy(s, v, id);
    }
  }

  lemma WriteBackSparesOthers<D>(s: State<D>, w: string, until: int, v: string)
    requires TableInv(s.rows) && LocksDisjoint(s) && w in s.workers && v in s.workers && v != w
    requires WorkerInv(s, v) && WorkerInv(s, w)
    ensures var rows' := WriteBack(s.rows, w, Locked(s.workers[w].phase).Keys, until);
      && (forall id :: id in s.rows && (s.rows[id].lockedBy == v || RowLockedBy(s, v, id)) ==>
            id in rows' && rows'[id] == s.rows[id])
      && (forall id :: Held(rows', v, id) ==> Held(s.rows, v, id))
  {
    forall id | id in Locked(s.workers[w].phase)
      ensures RowLockedBy(s, w, id) && id in s.rows && RowInv(s.rows[id]) && s.rows[id].lockedBy == ""
    {
      assert LockInv(s, w);
    }
  }

  /** The unguarded UPDATE hits only rows its own transaction has locked: they were pending,
      so in nobody's hand, and locked, so in nobody else's transaction. */
  lemma CommitKeepsInv<D>(s: State<D>, w: string, acked: bool)
    requires Inv(s) && Enabled(s, Commit(w, acked))
    ensures Inv(After(s, Commit(w, acked)))
  {
    var s' := After(s, Commit(w, acked));
    assert WorkerInv(s, w);
    StepRefinesTable(s, Commit(w, acked));
    ApplyKeepsInv(s.rows, Visible(s, Commit(w, acked))[0]);
    forall v | v in s'.workers
      ensures WorkerInv(s', v)
    {
      assert WorkerInv(s, v);
      if v != w {
        WriteBackSparesOthers(s, w, s.workers[w].phase.until, v);
        WorkerUnaffected(s, s', v);
      }
    }
    LocksOnlyShrink(s, s');
  }

  /** One worker moves on, with no more locks than before. */
  lemma OneWorkerMoves<D>(s: State<D>, w: string, worker: Worker)
    requires Inv(s) && WorkerInv(s.(workers := s.workers[w := worker]), w)
    requires forall id :: id in Locked(worker.phase) ==> RowLockedBy(s, w, id)
    ensures Inv(s.(workers := s.workers[w := worker]))
  {
    hide HandInv, BatchInv, LockInv, LoadInv, TableInv, LocksDisjoint;
    var s' := s.(workers := s.workers[w := worker]);
    forall v | v in s'.workers
      ensures WorkerInv(s', v)
    {
      if v != w {
        WorkerUnaffected(s, s', v);
      }
    }
    LocksOnlyShrink(s, s');
  }

  lemma MovingStepKeepsInv<D>(s: State<D>, step: Step<D>)
    requires Inv(s) && Enabled(s, step)
    requires step.Join? || step.Write? || step.Rollback? || step.Load? || step.GiveUp? || step.Crash?
    ensures Inv(After(s, step))
  {
    hide TableInv, LocksDisjoint, IsPoll;
    if step.w in s.workers {
      assert WorkerInv(s, step.w);
    }
    OneWorkerMoves(s, step.w, After(s, step).workers[step.w]);
  }

  lemma QuietStepKeepsInv<D>(s: State<D>, step: Step<D>)
    requires Inv(s) && Enabled(s, step)
    requires step.Enqueue? || step.Tick?
    ensures Inv(After(s, step))
  {
    hide IsPoll, HandInv, BatchInv, LockInv, LoadInv, LocksDisjoint;
    var s' := After(s, step);
    forall v | v in s'.workers
      ensures WorkerInv(s', v)
    {
      assert WorkerInv(s, v);
      if step.Enqueue? {
        UnknownIsNobodys(s, v, step.id);
      }
      WorkerUnaffected(s, s', v);
    }
    LocksOnlyShrink(s, s');
  }

  lemma UnknownIsNobodys<D>(s: State<D>, v: string, id: string)
    requires v in s.workers && WorkerInv(s, v) && id !in s.rows
    ensures v != "" && !RowLockedBy(s, v, id)
  {
  }

  lemma SettlingStepKeepsInv<D>(s: State<D>, step: Step<D>)
    requires Inv(s) && Enabled(s, step)
    requires step.DoComplete? || step.DoFail? || step.DoRequeue?
    ensures Inv(After(s, step))
  {
    var st := Visible(s, step)[0];
    SettledKeepsInv(s, step.w, step.id, st);
    assert After(s, step) == Settled(s, step.w, step.id, st);
  }

  lemma StepKeepsInv<D>(s: State<D>, step: Step<D>)
    requires Inv(s) && Enabled(s, step)
    ensures Inv(After(s, step))
  {
    if step.Select? {
      SelectKeepsInv(s, step);
    } else if step.Commit? {
      CommitKeepsInv(s, step.w, step.acked);
    } else if step.DoComplete? || step.DoFail? || step.DoRequeue? {
      SettlingStepKeepsInv(s, step);
    } else if step.Enqueue? || step.Tick? {
      QuietStepKeepsInv(s, step);
    } else {
      MovingStepKeepsInv(s, step);
    }
  }

  lemma {:induction false} RunKeepsInv<D>(s: State<D>, steps: seq<Step<D>>)
    requires Inv(s) && Feasible(s, steps)
    ensures Inv(RunTo(s, steps))
  {
    if steps != [] {
      RunKeepsInv(s, steps[..|steps| - 1]);
      StepKeepsInv(RunTo(s, steps[..|steps| - 1]), steps[|steps| - 1]);
    }
  }

  // ---------------------------------------------------------------- main results

  /** The statements a run performs on the table, in order. */
  ghost function Trace<D>(s: State<D>, steps: seq<Step<D>>): seq<Statement<D>>
    requires Feasible(s, steps)
  {
    if steps == [] then [] else
      var before := steps[..|steps| - 1];
      Trace(s, before) + Visible(RunTo(s, before), steps[|steps| - 1])
  }

  /** Refinement over whole runs: whatever the workers do, the table is what its atomic
      statements make it, and those are sound. All of LeaseTable's results about Exec are
      therefore about every interleaving. */
  lemma {:induction false} RunRefinesTable<D>(s: State<D>, steps: seq<Step<D>>)
    requires Inv(s) && Feasible(s, steps)
    ensures AllSound(Trace(s, steps))
    ensures RunTo(s, steps).rows == Exec(s.rows, Trace(s, steps))
  {
    if steps != [] {
      var before := steps[..|steps| - 1];
      RunRefinesTable(s, before);
      RunKeepsInv(s, before);
      StepRefinesTable(RunTo(s, before), steps[|steps| - 1]);
      ExecConcat(s.rows, Trace(s, before), Visible(RunTo(s, before), steps[|steps| - 1]));
    }
  }

  /** Worker `w` may act on task `id`: it is in w's hand, or in w's open poll transaction. */
  predicate HasClaim<D>(s: State<D>, w: string, id: string) {
    w in s.workers && (id in s.workers[w].hand || id in Locked(s.workers[w].phase))
  }

  lemma ClaimInHand<D>(s: State<D>, w: string, id: string)
    requires Inv(s) && w in s.workers && id in s.workers[w].hand
    ensures Held(s.rows, w, id) && s.rows[id].status == Running
  {
    assert WorkerInv(s, w);
    assert RowInv(s.rows[id]);
  }

  lemma ClaimInTransaction<D>(s: State<D>, w: string, id: string)
    requires Inv(s) && RowLockedBy(s, w, id)
    ensures id in s.rows && s.rows[id].status == Pending && s.rows[id].lockedBy == ""
    ensures Claimable(s.rows[id], s.workers[w].phase.now) && s.workers[w].phase.now <= s.clock
  {
    assert WorkerInv(s, w);
    assert RowInv(s.rows[id]);
  }

  /** The row itself says who has the claim and how. */
  lemma ClaimIsInRow<D>(s: State<D>, w: string, id: string)
    requires Inv(s) && HasClaim(s, w, id)
    ensures id in s.rows
    ensures id in s.workers[w].hand <==> s.rows[id].status == Running
    ensures id in s.workers[w].hand <==> id !in Locked(s.workers[w].phase)
    ensures id in s.workers[w].hand ==> s.rows[id].lockedBy == w
  {
    if id in s.workers[w].hand {
      ClaimInHand(s, w, id);
    }
    if id in Locked(s.workers[w].phase) {
      ClaimInTransaction(s, w, id);
    }
  }

  /** Exclusive claims, in every reachable state: no task is claimed by two workers, nor both
      polled and being polled again by the same one. */
  lemma ClaimsAreExclusive<D>(steps: seq<Step<D>>, v: string, w: string, id: string)
    requires Feasible(Init(), steps)
    requires HasClaim(RunTo(Init(), steps), v, id) && HasClaim(RunTo(Init(), steps), w, id)
    ensures v == w
    ensures var worker := RunTo(Init(), steps).workers[v];
      id in worker.hand <==> id !in Locked(worker.phase)
  {
    var s := RunTo(Init(), steps);
    RunKeepsInv(Init(), steps);
    ClaimIsInRow(s, v, id);
    ClaimIsInRow(s, w, id);
    assert id in Locked(s.workers[v].phase) ==> RowLockedBy(s, v, id);
    assert id in Locked(s.workers[w].phase) ==> RowLockedBy(s, w, id);
  }

  /** A settling statement never waits for a row lock. */
  lemma SettlingNeverBlocks<D>(steps: seq<Step<D>>, w: string, id: string)
    requires Feasible(Init(), steps) && w != ""
    ensures !Blocked(RunTo(Init(), steps), w, id)
  {
    RunKeepsInv(Init(), steps);
    var s := RunTo(Init(), steps);
    forall v | v in s.workers && RowLockedBy(s, v, id)
      ensures !Held(s.rows, w, id)
    {
      ClaimInTransaction(s, v, id);
    }
  }

  /** The delay Fail means to give a task that has failed `attempts` times before. */
  function MeantDelay<D>(s: State<D>, w: string, row: Row<D>): int
    requires w in s.workers
  {
    if s.workers[w].phase.Loaded? && row.attempts + 1 >= row.maxAttempts then 0 else BackoffDelay(row.attempts)
  }

  /** Read in one statement, decided in Go, written in another: when the UPDATE finds its row,
      the decision made from the earlier read is the one the row itself would give, and
      the CASE in the UPDATE agrees with it about the last attempt. */
  lemma FailAgreesWithRow<D>(steps: seq<Step<D>>, w: string, id: string, at: int, data: D)
    requires Feasible(Init(), steps)
    requires var s := RunTo(Init(), steps); Enabled(s, DoFail(w, id, at, data)) && Held(s.rows, w, id)
    ensures var s := RunTo(Init(), steps);
      var row, row' := s.rows[id], After(s, DoFail(w, id, at, data)).rows[id];
      && row.status == Running
      && row'.availableAt == at + MeantDelay(s, w, row)
      && row'.attempts == row.attempts + 1
      && (row'.status == Failed <==> row.attempts + 1 == row.maxAttempts)
      && row'.status in {Failed, Pending}
      && (s.workers[w].phase.Loaded? ==>
            (row'.status == Failed <==> s.workers[w].phase.attempts + 1 >= s.workers[w].phase.maxAttempts))
  {
    RunKeepsInv(Init(), steps);
    var s := RunTo(Init(), steps);
    assert WorkerInv(s, w) && RowInv(s.rows[id]);
  }

  /** A Fail from the polled batch, on a task the worker has settled already, changes nothing. */
  lemma FailAfterSettlingIsFree<D>(steps: seq<Step<D>>, w: string, id: string, at: int, data: D)
    requires Feasible(Init(), steps) && Enabled(RunTo(Init(), steps), DoFail(w, id, at, data))
    requires var worker := RunTo(Init(), steps).workers[w]; worker.phase.Idle? && id !in worker.hand
    ensures var s := RunTo(Init(), steps); After(s, DoFail(w, id, at, data)).rows == s.rows
  {
    RunKeepsInv(Init(), steps);
    assert WorkerInv(RunTo(Init(), steps), w);
  }

  /** `id` is ready for the poll, sorts before one of the rows it returned, and is not among them. */
  predicate PassedOver<D>(rows: Table<D>, poll: Step<D>, id: string)
    requires poll.Select?
  {
    && id in rows && Eligible(rows[id], poll.filter, poll.now) && id !in poll.ids
    && exists i :: 0 <= i < |poll.ids| && poll.ids[i] in rows && Earlier(rows[id], rows[poll.ids[i]])
  }

  /** The step closes v's open transaction. */
  predicate Closes<D>(step: Step<D>, v: string) {
    (step.Commit? || step.Rollback? || step.Crash?) && step.w == v
  }

  lemma StepKeepsLock<D>(s: State<D>, step: Step<D>, v: string, id: string)
    requires Inv(s) && Enabled(s, step) && RowLockedBy(s, v, id)
    ensures id in s.rows && id in After(s, step).rows
    ensures !Closes(step, v) ==> RowLockedBy(After(s, step), v, id) && After(s, step).rows[id] == s.rows[id]
    ensures Closes(step, v) && step.Commit? ==>
      Held(After(s, step).rows, v, id) && After(s, step).rows[id].status == Running
    ensures Closes(step, v) && !step.Commit? ==> After(s, step).rows[id] == s.rows[id]
  {
    hide IsPoll, LockInv, LoadInv, TableInv, LocksDisjoint;
    ClaimInTransaction(s, v, id);
    if step.DoComplete? || step.DoFail? || step.DoRequeue? {
      assert WorkerInv(s, step.w);
    } else if step.Commit? && step.w != v {
      LockedOnce(s, v, step.w, id);
    }
  }

  lemma LockedOnce<D>(s: State<D>, v: string, w: string, id: string)
    requires Inv(s) && RowLockedBy(s, v, id) && v != w
    ensures !RowLockedBy(s, w, id)
  {
  }

  lemma {:induction false} LockLasts<D>(s: State<D>, steps: seq<Step<D>>, v: string, id: string)
    requires Inv(s) && Feasible(s, steps) && RowLockedBy(s, v, id)
    requires forall i :: 0 <= i < |steps| ==> !Closes(steps[i], v)
    ensures RowLockedBy(RunTo(s, steps), v, id)
    ensures id in s.rows && id in RunTo(s, steps).rows && RunTo(s, steps).rows[id] == s.rows[id]
  {
    hide Inv;
    if steps == [] {
      ClaimInTransaction(s, v, id);
    } else {
      var n := |steps| - 1;
      LockLasts(s, steps[..n], v, id);
      RunKeepsInv(s, steps[..n]);
      StepKeepsLock(RunTo(s, steps[..n]), steps[n], v, id);
    }
  }

  lemma InitInv<D>()
    ensures Inv<D>(Init())
  {
  }

  lemma PassedOverIsLocked<D>(s: State<D>, poll: Step<D>, id: string)
    requires poll.Select? && Enabled(s, poll) && PassedOver(s.rows, poll, id)
    ensures LockedElsewhere(s, poll.w, id)
  {
  }

  /** What SKIP LOCKED guarantees in every run: a row that a poll passed over is locked by another
      worker's open transaction. Whatever happens until that worker closes it, the row stays as it
      is and locked; then it is the worker's task, or free as before. */
  lemma PollSkipsOnlyLockedRows<D>(first: seq<Step<D>>, poll: Step<D>, id: string) returns (v: string)
    requires Feasible(Init(), first) && Enabled(RunTo(Init(), first), poll)
    requires poll.Select? && PassedOver(RunTo(Init(), first).rows, poll, id)
    ensures v != poll.w && RowLockedBy(RunTo(Init(), first), v, id)
    ensures var s := After(RunTo(Init(), first), poll);
      forall later, last :: Feasible(s, later) && Enabled(RunTo(s, later), last) && Closes(last, v)
                            && (forall i :: 0 <= i < |later| ==> !Closes(later[i], v)) ==>
        LockCloses(s, later, last, v, id)
  {
    hide Inv, PassedOver;
    var s0 := RunTo(Init(), first);
    InitInv<D>();
    RunKeepsInv(Init(), first);
    PassedOverIsLocked(s0, poll, id);
    v :| v in s0.workers && v != poll.w && RowLockedBy(s0, v, id);
    var s := After(s0, poll);
    StepKeepsInv(s0, poll);
    StepKeepsLock(s0, poll, v, id);
    forall later, last | Feasible(s, later) && Enabled(RunTo(s, later), last) && Closes(last, v)
                         && (forall i :: 0 <= i < |later| ==> !Closes(later[i], v))
      ensures LockCloses(s, later, last, v, id)
    {
      LockLasts(s, later, v, id);
      RunKeepsInv(s, later);
      StepKeepsLock(RunTo(s, later), last, v, id);
    }
  }

  /** When `last` closes the transaction of v that has `id` locked from `s` on: a claim or nothing. */
  ghost predicate LockCloses<D>(s: State<D>, later: seq<Step<D>>, last: Step<D>, v: string, id: string)
    requires Feasible(s, later) && Enabled(RunTo(s, later), last)
  {
    var end := After(RunTo(s, later), last);
    && id in s.rows && id in end.rows
    && RunTo(s, later).rows.Keys >= {id} && RunTo(s, later).rows[id] == s.rows[id]
    && (if last.Commit? then Held(end.rows, v, id) && end.rows[id].status == Running else end.rows[id] == s.rows[id])
  }

  // ---------------------------------------------------------------- retry spacing

  /** `id` is waiting and not due before `due`, or the clock has already passed `due`. */
  predicate NotBefore<D>(s: State<D>, id: string, due: int) {
    s.clock >= due || (id in s.rows && s.rows[id].status == Pending && s.rows[id].availableAt >= due)
  }

  predicate UnderWay<D>(s: State<D>, id: string) {
    (exists w :: w in s.workers && RowLockedBy(s, w, id)) || (id in s.rows && s.rows[id].status == Running)
  }

  lemma UnderWayMeansDue<D>(s: State<D>, id: string, due: int)
    requires Inv(s) && NotBefore(s, id, due) && UnderWay(s, id)
    ensures s.clock >= due
  {
    if exists w :: w in s.workers && RowLockedBy(s, w, id) {
      var w :| w in s.workers && RowLockedBy(s, w, id);
      ClaimInTransaction(s, w, id);
    }
  }

  lemma StepKeepsNotBefore<D>(s: State<D>, step: Step<D>, id: string, due: int)
    requires Inv(s) && Enabled(s, step) && NotBefore(s, id, due)
    ensures NotBefore(After(s, step), id, due)
  {
    if step.Commit? && s.clock < due {
      assert !RowLockedBy(s, step.w, id) by {
        if RowLockedBy(s, step.w, id) {
          UnderWayMeansDue(s, id, due);
        }
      }
    } else if id in s.rows {
      assert RowInv(s.rows[id]);
      if step.DoComplete? || step.DoFail? || step.DoRequeue? {
        assert step.w != "" by { assert WorkerInv(s, step.w); }
      }
    }
  }

  /** A task left pending by a Fail or Requeue with a due time is not polled, nor running, in
      any later state whose clock is short of that time, whatever the workers do. */
  lemma {:induction false} DueTimeIsKept<D>(s: State<D>, steps: seq<Step<D>>, id: string, due: int)
    requires Inv(s) && Feasible(s, steps) && NotBefore(s, id, due)
    ensures NotBefore(RunTo(s, steps), id, due)
    ensures UnderWay(RunTo(s, steps), id) ==> RunTo(s, steps).clock >= due
  {
    RunKeepsInv(s, steps);
    if steps != [] {
      var before := steps[..|steps| - 1];
      DueTimeIsKept(s, before, id, due);
      RunKeepsInv(s, before);
      StepKeepsNotBefore(RunTo(s, before), steps[|steps| - 1], id, due);
    }
    if UnderWay(RunTo(s, steps), id) {
      UnderWayMeansDue(RunTo(s, steps), id, due);
    }
  }

  /** Retry spacing. A failure made at clock reading `at`, after `attempts` earlier ones, that
      leaves the task pending keeps every worker away for the delay. That is the intended backoff
      whenever the int64 arithmetic does not overflow, and so always for tasks with at most 35
      attempts; both services enqueue with 5. */
  lemma RetriesAreSpaced<D>(first: seq<Step<D>>, w: string, id: string, at: int, data: D,
                            later: seq<Step<D>>)
    requires Feasible(Init(), first)
    requires var s := RunTo(Init(), first);
      && Enabled(s, DoFail(w, id, at, data)) && Held(s.rows, w, id)
      && s.rows[id].attempts + 1 < s.rows[id].maxAttempts
      && Feasible(After(s, DoFail(w, id, at, data)), later)
    ensures var s := RunTo(Init(), first);
      var end, attempts := RunTo(After(s, DoFail(w, id, at, data)), later), s.rows[id].attempts;
      UnderWay(end, id) ==>
        && end.clock >= at + BackoffDelay(attempts)
        && (SignBitClear(attempts) || s.rows[id].maxAttempts <= 35 ==> end.clock >= at + Intended(attempts))
  {
    var s, step := RunTo(Init(), first), DoFail(w, id, at, data);
    RunKeepsInv(Init(), first);
    StepKeepsInv(s, step);
    FailAgreesWithRow(first, w, id, at, data);
    BackoffExact(s.rows[id].attempts);
    BackoffRange(s.rows[id].attempts);
    DueTimeIsKept(After(s, step), later, id, at + BackoffDelay(s.rows[id].attempts));
  }

  // ---------------------------------------------------------------- the table results, for every interleaving

  /** The ledger and the retry bound, for any number of workers in any interleaving. */
  lemma RunLedger<D>(steps: seq<Step<D>>, id: string)
    requires Feasible(Init(), steps)
    ensures var rows, sts := RunTo(Init(), steps).rows, Trace(Init(), steps);
      && TableInv(rows)
      && Tally(map[], sts, id, Taken)
         == Tally(map[], sts, id, Finished) + Tally(map[], sts, id, Charge)
            + Tally(map[], sts, id, Returned) + RunningCount(rows, id)
      && (id in rows ==>
            && rows[id].attempts == Tally(map[], sts, id, Charge)
            && Tally(map[], sts, id, Taken) <= rows[id].maxAttempts + Tally(map[], sts, id, Returned))
  {
    RunKeepsInv(Init(), steps);
    RunRefinesTable(Init(), steps);
    Ledger(map[], Trace(Init(), steps), id);
    if id in RunTo(Init(), steps).rows {
      ClaimsAreBounded(Trace(Init(), steps), id);
    }
  }

  /** The step is a settling call of `w` for `id`. */
  predicate IsSettling<D>(step: Step<D>, w: string, id: string) {
    (step.DoComplete? || step.DoFail? || step.DoRequeue?) && step.w == w && step.id == id
  }

  lemma {:induction false} TraceSettlesOnlyBySteps<D>(s: State<D>, steps: seq<Step<D>>, w: string, id: string)
    requires Feasible(s, steps)
    requires forall i :: 0 <= i < |steps| ==> !IsSettling(steps[i], w, id)
    ensures forall i :: 0 <= i < |Trace(s, steps)| ==> !Settles(Trace(s, steps)[i], w, id)
  {
    if steps != [] {
      TraceSettlesOnlyBySteps(s, steps[..|steps| - 1], w, id);
    }
  }

  /** From any reachable state on: a completed or failed task never changes, and a running
      one stays exactly as it is, owner included, until that owner settles it. Crashes and
      lost statements included: an abandoned claim is never taken over. */
  lemma RowsStayPut<D>(first: seq<Step<D>>, later: seq<Step<D>>, id: string)
    requires Feasible(Init(), first) && id in RunTo(Init(), first).rows
    requires Feasible(RunTo(Init(), first), later)
    requires var row := RunTo(Init(), first).rows[id];
      row.status == Running ==> forall i :: 0 <= i < |later| ==> !IsSettling(later[i], row.lockedBy, id)
    ensures var s, end := RunTo(Init(), first), RunTo(RunTo(Init(), first), later);
      s.rows[id].status != Pending ==> id in end.rows && end.rows[id] == s.rows[id]
  {
    RunKeepsInv(Init(), first);
    var s := RunTo(Init(), first);
    RunRefinesTable(s, later);
    if s.rows[id].status == Running {
      TraceSettlesOnlyBySteps(s, later, s.rows[id].lockedBy, id);
      ClaimFreezesRow(s.rows, Trace(s, later), id);
    } else if s.rows[id].status != Pending {
      TerminalRowsAreFinal(s.rows, Trace(s, later), id);
    }
  }
}
