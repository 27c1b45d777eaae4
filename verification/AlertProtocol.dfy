/** Evaluations and operators working on the alert tables at the same time. Each service call is
    a session of single statements; the statements of different sessions interleave freely. */
module AlertProtocol {
  import opened Prelude
  import opened AlertTable

  /** Where a session is. `mine` is the row as the session's own write left it. An evaluation
      upserts (`Written`), re-selects the row by fingerprint (`Selected`), records the observation
      (`Recorded`) and may log a firing. An operator reads the row (`Chosen`), sets the status if it
      is still the one read (`Won`), logs (`Noted`) and reads the row again. Either ends with the
      row it returns (`Answered`). */
  datatype Phase =
    | Idle
    | Written(e: Evaluation, mine: Alert)
    | Selected(e: Evaluation, mine: Alert, a: Alert)
    | Recorded(mine: Alert, a: Alert)
    | Chosen(a: Alert, goal: Status)
    | Won(row: Transition, mine: Alert)
    | Noted(mine: Alert)
    | Answered(mine: Alert, got: Alert)

  datatype State = State(t: Tables, sessions: map<string, Phase>)

  /** `SkipFiring` is a firing row that could not be stored: its error is ignored. `Abort` is any
      other lost statement, a cancelled context or a crash: what the session has done so far
      stays. */
  datatype Step =
    | Upsert(w: string, e: Evaluation)
    | Reselect(w: string)
    | Observe(w: string)
    | LogFiring(w: string)
    | SkipFiring(w: string)
    | Read(w: string, tenant: string, id: string, goal: Status)
    | CompareAndSet(w: string, at: int)
    | LogMove(w: string)
    | ReadBack(w: string)
    | Abort(w: string)

  const GOALS := {Resolved, Acknowledged, Silenced}

  function PhaseOf(s: State, w: string): Phase {
    if w in s.sessions then s.sessions[w] else Idle
  }

  /** The session may start a call. */
  predicate Free(p: Phase) {
    p.Idle? || p.Answered?
  }

  predicate Enabled(s: State, step: Step) {
    var p := PhaseOf(s, step.w);
    match step
    case Upsert(_, e) => Free(p) && Accepts(s.t, e)
    case Reselect(_) => p.Written?
    case Observe(_) => p.Selected?
    case LogFiring(_) => p.Recorded?
    case SkipFiring(_) => p.Recorded?
    case Read(_, _, _, goal) => Free(p) && goal in GOALS
    case CompareAndSet(_, _) => p.Chosen?
    case LogMove(_) => p.Won?
    case ReadBack(_) => p.Noted?
    case Abort(_) => true
  }

  function TablesAfter(t: Tables, p: Phase, step: Step): Tables {
    match step
    case Upsert(_, e) => Upserted(t, e)
    case Observe(_) => if p.Selected? then Observed(t, p.a.id, p.e) else t
    case LogFiring(_) => if p.Recorded? && LooksNew(p.a) then Logged(t, p.a.id, Pending, Firing) else t
    case CompareAndSet(_, at) => if p.Chosen? then Cas(t, p.a.id, p.a.status, p.goal, at) else t
    case LogMove(_) => if p.Won? then Logged(t, p.row.alertID, p.row.from, p.row.to) else t
    case _ => t
  }

  function PhaseAfter(t: Tables, p: Phase, step: Step): Phase {
    match step
    case Upsert(_, e) =>
      var row := AlertOf(Upserted(t, e), e.fingerprint);
      if row.Some? then Written(e, row.value) else Idle
    case Reselect(_) =>
      if p.Written? && AlertOf(t, p.e.fingerprint).Some?
      then Selected(p.e, p.mine, AlertOf(t, p.e.fingerprint).value) else Idle
    case Observe(_) => if p.Selected? then Recorded(p.mine, p.a) else Idle
    case LogFiring(_) => if p.Recorded? then Answered(p.mine, p.a) else Idle
    case SkipFiring(_) => if p.Recorded? then Answered(p.mine, p.a) else Idle
    case Read(_, tenant, id, goal) =>
      if id !in t.alerts || t.alerts[id].tenant != tenant then Idle
      else if t.alerts[id].status == goal then Answered(t.alerts[id], t.alerts[id])
      else if ValidTransition(t.alerts[id].status, goal) then Chosen(t.alerts[id], goal)
      else Idle
    case CompareAndSet(_, at) =>
      if p.Chosen? && CasWins(t, p.a.id, p.a.status)
      then Won(Transition(p.a.id, p.a.status, p.goal), Moved(t.alerts[p.a.id], p.goal, at)) else Idle
    case LogMove(_) => if p.Won? then Noted(p.mine) else Idle
    case ReadBack(_) => if p.Noted? && p.mine.id in t.alerts then Answered(p.mine, t.alerts[p.mine.id]) else Idle
    case Abort(_) => Idle
  }

  function After(s: State, step: Step): State {
    var p := PhaseOf(s, step.w);
    State(TablesAfter(s.t, p, step), s.sessions[step.w := PhaseAfter(s.t, p, step)])
  }

  const INIT := State(EMPTY, map[])

  function RunTo(s: State, steps: seq<Step>): State {
    if steps == [] then s else After(RunTo(s, steps[..|steps| - 1]), steps[|steps| - 1])
  }

  predicate Feasible(s: State, steps: seq<Step>) {
    steps == [] ||
    (Feasible(s, steps[..|steps| - 1]) && Enabled(RunTo(s, steps[..|steps| - 1]), steps[|steps| - 1]))
  }

  lemma OneMore(s: State, steps: seq<Step>, step: Step)
    requires Feasible(s, steps) && Enabled(RunTo(s, steps), step)
    ensures Feasible(s, steps + [step]) && RunTo(s, steps + [step]) == After(RunTo(s, steps), step)
  {
    assert (steps + [step])[..|steps|] == steps;
  }

  // ---------------------------------------------------------------- the invariant

  /** Only an alert nobody has touched since its insert looks new: operators never set firing. */
  predicate NewOnce(a: Alert) {
    a.status == Firing && a.firedCount == 1 <==> a.version == 1
  }

  /** `a` is, or was, the row of its id. */
  ghost predicate Seen(t: Tables, a: Alert) {
    && RowInv(a) && NewOnce(a)
    && a.id in t.alerts
    && Follows(a, t.alerts[a.id])
  }

  /** From one reading of a row to a later one: the same alert; the counters only grow, and the
      version does whenever anything changes. */
  predicate Follows(a: Alert, b: Alert) {
    && b.id == a.id && b.fingerprint == a.fingerprint && b.tenant == a.tenant && b.key == a.key
    && a.firedCount <= b.firedCount
    && a.version <= b.version
    && (a.version == b.version ==> a == b)
  }

  ghost predicate PhaseInv(t: Tables, p: Phase) {
    match p
    case Idle => true
    case Written(e, mine) => Seen(t, mine) && mine.fingerprint == e.fingerprint && mine.status in {Firing, Acknowledged}
    case Selected(e, mine, a) =>
      Seen(t, mine) && mine.fingerprint == e.fingerprint && mine.status in {Firing, Acknowledged} && Seen(t, a)
        && Follows(mine, a)
    case Recorded(mine, a) => Seen(t, mine) && mine.status in {Firing, Acknowledged} && Seen(t, a) && Follows(mine, a)
    case Chosen(a, goal) => Seen(t, a) && goal in Allowed(a.status) && goal in GOALS
    case Won(row, mine) =>
      && Seen(t, mine) && mine.id == row.alertID && mine.status == row.to
      && row.to in Allowed(row.from) && row.to in GOALS && row.from != Pending
    case Noted(mine) => Seen(t, mine) && mine.status in GOALS
    case Answered(mine, got) => Seen(t, mine) && Seen(t, got) && Follows(mine, got)
  }

  ghost predicate Inv(s: State) {
    && TablesInv(s.t)
    && (forall id :: id in s.t.alerts ==> NewOnce(s.t.alerts[id]))
    && forall w :: w in s.sessions ==> PhaseInv(s.t, s.sessions[w])
  }

  /** What every statement does to the tables. */
  ghost predicate Grows(t: Tables, t': Tables) {
    && (forall id :: id in t.alerts ==> id in t'.alerts && Follows(t.alerts[id], t'.alerts[id]))
    && (forall f :: f in t.byFingerprint ==> f in t'.byFingerprint && t'.byFingerprint[f] == t.byFingerprint[f])
    && t.log <= t'.log && t.observations <= t'.observations
  }

  /** The tables as the protocol keeps them. */
  ghost predicate Kept(t: Tables) {
    TablesInv(t) && forall id :: id in t.alerts ==> NewOnce(t.alerts[id])
  }

  lemma RefiredFollows(a: Alert, e: Evaluation)
    requires RowInv(a)
    ensures Follows(a, Refired(a, e)) && NewOnce(Refired(a, e))
  {
  }

  lemma MovedFollows(a: Alert, to: Status, at: int)
    requires RowInv(a) && to in GOALS
    ensures Follows(a, Moved(a, to, at)) && NewOnce(Moved(a, to, at))
  {
  }

  lemma FollowsSelf(a: Alert)
    ensures Follows(a, a)
  {
  }

  lemma UpdateGrows(t: Tables, b: Alert)
    requires Kept(t) && b.id in t.alerts && Follows(t.alerts[b.id], b) && NewOnce(b)
    ensures var t' := t.(alerts := t.alerts[b.id := b]);
      Grows(t, t') && forall id :: id in t'.alerts ==> NewOnce(t'.alerts[id])
  {
    hide NewOnce, Follows, TablesInv;
    forall id | id in t.alerts
      ensures Follows(t.alerts[id], t.alerts[id])
    {
      FollowsSelf(t.alerts[id]);
    }
  }

  lemma InsertGrows(t: Tables, b: Alert)
    requires Kept(t) && b.id !in t.alerts && b.fingerprint !in t.byFingerprint && NewOnce(b)
    ensures var t' := t.(alerts := t.alerts[b.id := b], byFingerprint := t.byFingerprint[b.fingerprint := b.id]);
      Grows(t, t') && forall id :: id in t'.alerts ==> NewOnce(t'.alerts[id])
  {
    hide NewOnce, Follows, TablesInv;
    forall id | id in t.alerts
      ensures Follows(t.alerts[id], t.alerts[id])
    {
      FollowsSelf(t.alerts[id]);
    }
  }

  lemma UpsertGrows(t: Tables, e: Evaluation)
    requires Kept(t) && Accepts(t, e)
    ensures Grows(t, Upserted(t, e))
    ensures forall id :: id in Upserted(t, e).alerts ==> NewOnce(Upserted(t, e).alerts[id])
  {
    hide NewOnce, Follows, Grows, RowInv, Refired;
    IndexedNow(t, e.fingerprint);
    match AlertOf(t, e.fingerprint)
    case Some(a) =>
      RefiredFollows(a, e);
      RefiredKeepsRow(a, e);
      UpdateGrows(t, Refired(a, e));
    case None =>
      NewAlertIsNew(e);
      InsertGrows(t, NewAlert(e));
  }

  lemma NewAlertIsNew(e: Evaluation)
    ensures NewOnce(NewAlert(e)) && RowInv(NewAlert(e))
  {
  }

  lemma CasGrows(t: Tables, id: string, from: Status, to: Status, at: int)
    requires Kept(t) && to in GOALS
    ensures Grows(t, Cas(t, id, from, to, at))
    ensures forall x :: x in Cas(t, id, from, to, at).alerts ==> NewOnce(Cas(t, id, from, to, at).alerts[x])
  {
    hide NewOnce, Follows, Grows, RowInv, Moved;
    if CasWins(t, id, from) {
      SeenNow(t, id);
      MovedFollows(t.alerts[id], to, at);
      MovedKeepsId(t.alerts[id], to, at);
      UpdateGrows(t, Moved(t.alerts[id], to, at));
    } else {
      GrowsNot(t);
    }
  }

  lemma MovedKeepsId(a: Alert, to: Status, at: int)
    ensures Moved(a, to, at).id == a.id && Moved(a, to, at).fingerprint == a.fingerprint
      && Moved(a, to, at).status == to
  {
  }

  lemma PhaseInvGrows(t: Tables, t': Tables, p: Phase)
    requires PhaseInv(t, p) && Grows(t, t')
    ensures PhaseInv(t', p)
  {
    hide RowInv, NewOnce;
  }

  lemma LogGrows(t: Tables, id: string, from: Status, to: Status)
    requires Kept(t) && id in t.alerts && to in Allowed(from)
    ensures Kept(Logged(t, id, from, to)) && Grows(t, Logged(t, id, from, to))
  {
    hide RowInv, NewOnce;
  }

  lemma ObserveGrows(t: Tables, id: string, e: Evaluation)
    requires Kept(t) && id in t.alerts
    ensures Kept(Observed(t, id, e)) && Grows(t, Observed(t, id, e))
  {
    hide RowInv, NewOnce;
  }

  lemma TablesStep(t: Tables, p: Phase, step: Step)
    requires Kept(t) && PhaseInv(t, p)
    requires step.Upsert? ==> Accepts(t, step.e)
    ensures var t' := TablesAfter(t, p, step); Kept(t') && Grows(t, t')
  {
    hide RowInv, NewOnce, Upserted, Cas, Observed, Logged, TablesInv, Grows;
    GrowsNot(t);
    match step
    case Upsert(_, e) =>
      UpsertKeepsInv(t, e);
      UpsertGrows(t, e);
    case CompareAndSet(_, at) =>
      if p.Chosen? {
        CasKeepsInv(t, p.a.id, p.a.status, p.goal, at);
        CasGrows(t, p.a.id, p.a.status, p.goal, at);
      }
    case Observe(_) =>
      if p.Selected? {
        ObserveGrows(t, p.a.id, p.e);
      }
    case LogFiring(_) =>
      if p.Recorded? {
        LogGrows(t, p.a.id, Pending, Firing);
      }
    case LogMove(_) =>
      if p.Won? {
        LogGrows(t, p.row.alertID, p.row.from, p.row.to);
      }
    case _ =>
  }

  /** A row in the table has been seen. */
  lemma SeenNow(t: Tables, id: string)
    requires Kept(t) && id in t.alerts
    ensures Seen(t, t.alerts[id]) && t.alerts[id].id == id
  {
  }

  lemma IndexedNow(t: Tables, f: string)
    requires Kept(t)
    ensures AlertOf(t, f).Some? <==> f in t.byFingerprint
    ensures AlertOf(t, f).Some? ==>
      var a := AlertOf(t, f).value;
      Seen(t, a) && t.alerts[a.id] == a && a.fingerprint == f && a.id == t.byFingerprint[f]
  {
  }

  /** After an upsert the session knows the row it left. */
  lemma WrittenNow(t: Tables, e: Evaluation)
    requires Kept(t) && Accepts(t, e)
    ensures Kept(Upserted(t, e)) && AlertOf(Upserted(t, e), e.fingerprint).Some?
    ensures var mine := AlertOf(Upserted(t, e), e.fingerprint).value;
      && Seen(Upserted(t, e), mine) && mine.fingerprint == e.fingerprint && mine.status in {Firing, Acknowledged}
      && mine.id in Upserted(t, e).alerts && Upserted(t, e).alerts[mine.id] == mine
  {
    hide NewOnce, Follows, RowInv, Grows;
    UpsertKeepsInv(t, e);
    UpsertGrows(t, e);
    IndexedNow(t, e.fingerprint);
    IndexedNow(Upserted(t, e), e.fingerprint);
    if AlertOf(t, e.fingerprint).Some? {
      RefiredStatus(AlertOf(t, e.fingerprint).value, e);
    }
  }

  lemma RefiredStatus(a: Alert, e: Evaluation)
    requires RowInv(a)
    ensures Refired(a, e).status in {Firing, Acknowledged} && Refired(a, e).id == a.id
  {
  }

  lemma ReselectStep(t: Tables, p: Phase)
    requires Kept(t) && PhaseInv(t, p) && p.Written?
    ensures PhaseInv(t, PhaseAfter(t, p, Reselect("")))
    ensures p.e.fingerprint in t.byFingerprint && p.mine.id in t.alerts
    ensures AlertOf(t, p.e.fingerprint) == Some(t.alerts[p.mine.id])
      && t.alerts[p.mine.id].fingerprint == p.e.fingerprint
    ensures t.alerts[p.mine.id].id == p.mine.id
  {
    hide NewOnce, RowInv;
    SeenNow(t, p.mine.id);
    assert t.byFingerprint[p.e.fingerprint] == p.mine.id;
    IndexedNow(t, p.e.fingerprint);
  }

  lemma PhaseStep(t: Tables, p: Phase, step: Step)
    requires Kept(t) && PhaseInv(t, p)
    requires step.Upsert? ==> Accepts(t, step.e)
    requires step.Read? ==> step.goal in GOALS
    requires step.Reselect? ==> p.Written?
    ensures PhaseInv(TablesAfter(t, p, step), PhaseAfter(t, p, step))
  {
    hide TablesInv, Upserted, Observed, Logged, Cas, Grows, RowInv, NewOnce, Follows, Moved, LooksNew;
    TablesStep(t, p, step);
    match step
    case Upsert(_, e) => WrittenNow(t, e);
    case Reselect(_) => ReselectStep(t, p);
    case Read(_, tenant, id, goal) =>
      if id in t.alerts {
        SeenNow(t, id);
        FollowsSelf(t.alerts[id]);
      }
    case CompareAndSet(_, at) =>
      if p.Chosen? && CasWins(t, p.a.id, p.a.status) {
        WonNow(t, p.a, p.goal, at);
      }
    case ReadBack(_) =>
      if p.Noted? {
        SeenNow(t, p.mine.id);
      }
    case Observe(_) => PhaseInvGrows(t, TablesAfter(t, p, step), PhaseAfter(t, p, step));
    case LogFiring(_) => PhaseInvGrows(t, TablesAfter(t, p, step), PhaseAfter(t, p, step));
    case LogMove(_) => PhaseInvGrows(t, TablesAfter(t, p, step), PhaseAfter(t, p, step));
    case _ =>
  }

  lemma WonNow(t: Tables, a: Alert, goal: Status, at: int)
    requires Kept(t) && Seen(t, a) && goal in GOALS && goal in Allowed(a.status) && CasWins(t, a.id, a.status)
    requires Kept(Cas(t, a.id, a.status, goal, at))
    ensures var mine := Moved(t.alerts[a.id], goal, at);
      PhaseInv(Cas(t, a.id, a.status, goal, at), Won(Transition(a.id, a.status, goal), mine))
  {
    hide NewOnce, Follows, Moved, TablesInv;
    SeenNow(t, a.id);
    NotPending(t, a.id);
    MovedKeepsId(t.alerts[a.id], goal, at);
    SeenNow(Cas(t, a.id, a.status, goal, at), a.id);
  }

  lemma StepKeepsInv(s: State, step: Step)
    requires Inv(s) && Enabled(s, step)
    ensures Inv(After(s, step)) && Grows(s.t, After(s, step).t)
  {
    hide PhaseInv, TablesAfter, PhaseAfter, TablesInv, Grows, NewOnce;
    var p := PhaseOf(s, step.w);
    IdleIsFine(s.t);
    TablesStep(s.t, p, step);
    PhaseStep(s.t, p, step);
    forall w | w in s.sessions
      ensures PhaseInv(After(s, step).t, s.sessions[w])
    {
      PhaseInvGrows(s.t, After(s, step).t, s.sessions[w]);
    }
  }

  lemma IdleIsFine(t: Tables)
    ensures PhaseInv(t, Idle)
  {
  }

  lemma InitInv()
    ensures Inv(INIT)
  {
  }

  /** In every state any interleaving can reach; and from any state to a later one no alert goes
      away, no counter runs back, and no log row is lost. */
  lemma {:induction false} RunKeepsInv(s: State, steps: seq<Step>)
    requires Inv(s) && Feasible(s, steps)
    ensures Inv(RunTo(s, steps)) && Grows(s.t, RunTo(s, steps).t)
  {
    hide Inv, Grows;
    if steps == [] {
      GrowsNot(s.t);
    } else {
      var before := steps[..|steps| - 1];
      RunKeepsInv(s, before);
      StepKeepsInv(RunTo(s, before), steps[|steps| - 1]);
      GrowsTrans(s.t, RunTo(s, before).t, RunTo(s, steps).t);
    }
  }

  lemma GrowsNot(t: Tables)
    ensures Grows(t, t)
  {
  }

  lemma GrowsTrans(a: Tables, b: Tables, c: Tables)
    requires Grows(a, b) && Grows(b, c)
    ensures Grows(a, c)
  {
  }

  lemma UpsertEdge(t: Tables, e: Evaluation, id: string)
    requires TablesInv(t) && Accepts(t, e) && id in t.alerts
    ensures var a, b := t.alerts[id].status, Upserted(t, e).alerts[id].status;
      a != b ==> a in {Resolved, Silenced} && b == Firing
  {
    hide RowInv;
  }

  lemma CasEdge(t: Tables, p: Phase, at: int, id: string)
    requires p.Chosen? && PhaseInv(t, p) && id in t.alerts
    ensures var a, b := t.alerts[id].status, Cas(t, p.a.id, p.a.status, p.goal, at).alerts[id].status;
      a != b ==> b in Allowed(a) && b in GOALS
  {
    hide RowInv;
  }

  /** The moves of operators. */
  predicate OperatorEdge(a: Status, b: Status) {
    match a
    case Firing => b in {Resolved, Acknowledged, Silenced}
    case Acknowledged => b in {Resolved, Silenced}
    case Silenced => b in {Resolved, Acknowledged}
    case _ => false
  }

  /** Every change of a status, the ones an upsert makes in SQL included, is an edge of the
      transition table; an evaluation only ever re-fires a resolved or silenced alert, so it never
      takes back an acknowledgement. */
  lemma StatusMovesAlongEdges(steps: seq<Step>, step: Step, id: string)
    requires Feasible(INIT, steps) && Enabled(RunTo(INIT, steps), step)
    requires id in RunTo(INIT, steps).t.alerts
    ensures id in After(RunTo(INIT, steps), step).t.alerts
    ensures var s := RunTo(INIT, steps);
      var a, b := s.t.alerts[id].status, After(s, step).t.alerts[id].status;
      a != b ==>
        && b in Allowed(a)
        && if step.Upsert? then a in {Resolved, Silenced} && b == Firing
           else step.CompareAndSet? && OperatorEdge(a, b)
  {
    hide RowInv, Upserted, Cas, PhaseInv, TablesInv, NewOnce, Allowed, OperatorEdge;
    InitInv();
    RunKeepsInv(INIT, steps);
    var s := RunTo(INIT, steps);
    StepKeepsInv(s, step);
    IdleIsFine(s.t);
    var p := PhaseOf(s, step.w);
    hide Grows, Enabled, Feasible, RunTo;
    if step.Upsert? {
      UpsertEdge(s.t, step.e, id);
    } else if step.CompareAndSet? {
      CasEdge(s.t, p, step.at, id);
      NotPending(s.t, id);
      EdgesBetween(s.t.alerts[id].status, After(s, step).t.alerts[id].status);
    }
    RefiringIsAllowed();
  }

  lemma EdgesBetween(a: Status, b: Status)
    requires a != Pending
    ensures a != b && b in GOALS && b in Allowed(a) ==> OperatorEdge(a, b)
  {
  }

  lemma RefiringIsAllowed()
    ensures Firing in Allowed(Resolved) && Firing in Allowed(Silenced)
  {
  }

  /** One row per fingerprint, never pending, resolved exactly while it carries a resolve time. */
  lemma ReachableAlerts(steps: seq<Step>, a: Alert, b: Alert)
    requires Feasible(INIT, steps)
    requires var alerts := RunTo(INIT, steps).t.alerts;
      a.id in alerts && b.id in alerts && alerts[a.id] == a && alerts[b.id] == b
    ensures a.status != Pending
    ensures a.resolvedAt.Some? <==> a.status == Resolved
    ensures a.status == Acknowledged ==> a.acknowledgedAt.Some?
    ensures a.status == Silenced ==> a.silencedAt.Some?
    ensures a.fingerprint == b.fingerprint <==> a == b
  {
    InitInv();
    RunKeepsInv(INIT, steps);
  }

  /** Between any two moments, a row whose version did not move did not move at all, and no
      counter ever runs back. */
  lemma VersionTellsChanges(first: seq<Step>, later: seq<Step>, id: string)
    requires Feasible(INIT, first) && Feasible(RunTo(INIT, first), later) && id in RunTo(INIT, first).t.alerts
    ensures id in RunTo(RunTo(INIT, first), later).t.alerts
    ensures var a, b := RunTo(INIT, first).t.alerts[id], RunTo(RunTo(INIT, first), later).t.alerts[id];
      && (a == b <==> a.version == b.version)
      && a.version <= b.version && a.firedCount <= b.firedCount && a.fingerprint == b.fingerprint
  {
    InitInv();
    RunKeepsInv(INIT, first);
    RunKeepsInv(RunTo(INIT, first), later);
  }

  // ---------------------------------------------------------------- tokens

  /** What a session still owes, or knows. */
  datatype Token =
    | Unobserved(fingerprint: string)  // upserted, the observation not yet stored
    | Unread(fingerprint: string)      // upserted, the row not yet re-read
    | First(id: string)                // re-read the row and it looked new, the row not yet logged
    | Unlogged(row: Transition)        // won the row, not yet logged

  predicate Holds(p: Phase, token: Token) {
    match token
    case Unobserved(f) => (p.Written? || p.Selected?) && p.e.fingerprint == f
    case Unread(f) => p.Written? && p.e.fingerprint == f
    case First(id) => (p.Selected? || p.Recorded?) && p.a.id == id && LooksNew(p.a)
    case Unlogged(row) => p.Won? && p.row == row
  }

  function Holders(sessions: map<string, Phase>, token: Token): set<string> {
    set w | w in sessions && Holds(sessions[w], token)
  }

  function One(b: bool): nat { if b then 1 else 0 }

  function Others(sessions: map<string, Phase>, w: string, token: Token): set<string> {
    set v | v in sessions && v != w && Holds(sessions[v], token)
  }

  lemma HoldersSplit(sessions: map<string, Phase>, w: string, token: Token)
    ensures |Holders(sessions, token)| == |Others(sessions, w, token)| + One(w in sessions && Holds(sessions[w], token))
  {
    hide Holds;
    var others := Others(sessions, w, token);
    if w in sessions && Holds(sessions[w], token) {
      assert Holders(sessions, token) == others + {w};
    } else {
      assert Holders(sessions, token) == others;
    }
  }

  lemma IdleHoldsNothing(token: Token)
    ensures !Holds(Idle, token)
  {
  }

  /** One session moves on: only its own tokens change hands. */
  lemma HoldersStep(s: State, w: string, p: Phase, token: Token)
    ensures |Holders(s.sessions[w := p], token)| + One(Holds(PhaseOf(s, w), token))
         == |Holders(s.sessions, token)| + One(Holds(p, token))
  {
    hide Holds, Holders;
    assert Others(s.sessions[w := p], w, token) == Others(s.sessions, w, token);
    HoldersSplit(s.sessions, w, token);
    HoldersSplit(s.sessions[w := p], w, token);
    IdleHoldsNothing(token);
  }

  // ---------------------------------------------------------------- accounts

  /** What happened in a step, for the books. */
  datatype Event =
    | Fires(fingerprint: string)   // an upsert of this alert
    | Wins(fingerprint: string)    // a compare-and-set on its row that matched
    | Moves(row: Transition)       // one that made exactly this change
    | Loses(token: Token)          // a session gave up while it held the token
    | Confirms(id: string)         // a session re-selected the alert and it looked new

  /** The session's compare-and-set would match now. */
  predicate Winning(t: Tables, p: Phase) {
    p.Chosen? && CasWins(t, p.a.id, p.a.status)
  }

  predicate Happens(s: State, step: Step, event: Event) {
    var p := PhaseOf(s, step.w);
    match event
    case Fires(f) => step.Upsert? && step.e.fingerprint == f
    case Wins(f) => step.CompareAndSet? && Winning(s.t, p) && p.a.fingerprint == f
    case Moves(row) => step.CompareAndSet? && Winning(s.t, p) && row == Transition(p.a.id, p.a.status, p.goal)
    case Loses(token) => (step.Abort? || step.SkipFiring?) && Holds(p, token)
    case Confirms(id) =>
      step.Reselect? && p.Written? && AlertOf(s.t, p.e.fingerprint).Some?
      && AlertOf(s.t, p.e.fingerprint).value.id == id && LooksNew(AlertOf(s.t, p.e.fingerprint).value)
  }

  function Count(s: State, steps: seq<Step>, event: Event): nat {
    if steps == [] then 0 else
      var n := |steps| - 1;
      Count(s, steps[..n], event) + One(Happens(RunTo(s, steps[..n]), steps[n], event))
  }

  function FiredCount(t: Tables, f: string): nat {
    match AlertOf(t, f)
    case Some(a) => a.firedCount
    case None => 0
  }

  function Version(t: Tables, f: string): nat {
    match AlertOf(t, f)
    case Some(a) => a.version
    case None => 0
  }

  function ObservationCount(t: Tables, f: string): nat {
    match AlertOf(t, f)
    case Some(a) => ObservationsOf(t.observations, a.id)
    case None => 0
  }

  lemma UpsertCounts(t: Tables, e: Evaluation, f: string)
    requires TablesInv(t) && Accepts(t, e)
    ensures FiredCount(Upserted(t, e), f) == FiredCount(t, f) + One(e.fingerprint == f)
    ensures Version(Upserted(t, e), f) == Version(t, f) + One(e.fingerprint == f)
  {
    hide RowInv;
  }

  lemma CasCounts(t: Tables, a: Alert, goal: Status, at: int, f: string)
    requires TablesInv(t) && Seen(t, a)
    ensures FiredCount(Cas(t, a.id, a.status, goal, at), f) == FiredCount(t, f)
    ensures Version(Cas(t, a.id, a.status, goal, at), f)
         == Version(t, f) + One(a.fingerprint == f && CasWins(t, a.id, a.status))
  {
    hide RowInv;
  }

  lemma CountersStep(s: State, step: Step, f: string)
    requires Inv(s) && Enabled(s, step)
    ensures FiredCount(After(s, step).t, f) == FiredCount(s.t, f) + One(Happens(s, step, Fires(f)))
    ensures Version(After(s, step).t, f)
         == Version(s.t, f) + One(Happens(s, step, Fires(f))) + One(Happens(s, step, Wins(f)))
  {
    hide RowInv, Upserted, Cas, TablesInv;
    var p := PhaseOf(s, step.w);
    IdleIsFine(s.t);
    if step.Upsert? {
      UpsertCounts(s.t, step.e, f);
    } else if step.CompareAndSet? {
      CasCounts(s.t, p.a, p.goal, step.at, f);
    }
  }

  /** The observation rows of an alert together with the upserts still owing theirs. */
  function ObservationBalance(s: State, f: string): nat {
    ObservationCount(s.t, f) + |Holders(s.sessions, Unobserved(f))|
  }

  lemma UpsertKeepsObservations(t: Tables, e: Evaluation, f: string)
    requires TablesInv(t) && Accepts(t, e)
    ensures ObservationCount(Upserted(t, e), f) == ObservationCount(t, f)
  {
    hide RowInv;
    if AlertOf(t, e.fingerprint).None? {
      NoneObserved(t.observations, e.id);
    }
  }

  lemma CasKeepsObservations(t: Tables, id: string, from: Status, to: Status, at: int, f: string)
    requires TablesInv(t)
    ensures ObservationCount(Cas(t, id, from, to, at), f) == ObservationCount(t, f)
  {
    hide RowInv;
  }

  lemma ObserveCounts(t: Tables, a: Alert, e: Evaluation, f: string)
    requires TablesInv(t) && Seen(t, a)
    ensures ObservationCount(Observed(t, a.id, e), f) == ObservationCount(t, f) + One(a.fingerprint == f)
  {
    hide RowInv;
    var longer := t.observations + [Observation(a.id, e.value, e.at)];
    assert longer[..|longer| - 1] == t.observations;
  }

  lemma ObservationsStep(s: State, step: Step, f: string)
    requires Inv(s) && Enabled(s, step)
    ensures ObservationBalance(After(s, step), f) + One(Happens(s, step, Loses(Unobserved(f))))
         == ObservationBalance(s, f) + One(Happens(s, step, Fires(f)))
  {
    hide RowInv, Upserted, Cas, TablesInv, Observed, ObservationCount, Holders;
    var p := PhaseOf(s, step.w);
    IdleIsFine(s.t);
    HoldersStep(s, step.w, PhaseAfter(s.t, p, step), Unobserved(f));
    match step
    case Upsert(_, e) =>
      WrittenNow(s.t, e);
      UpsertKeepsObservations(s.t, e, f);
    case CompareAndSet(_, at) => CasKeepsObservations(s.t, p.a.id, p.a.status, p.goal, at, f);
    case Observe(_) => ObserveCounts(s.t, p.a, p.e, f);
    case Reselect(_) => ReselectStep(s.t, p);
    case LogFiring(_) => LoggingKeepsCounts(s.t, p.a.id, Pending, Firing, f);
    case LogMove(_) => LoggingKeepsCounts(s.t, p.row.alertID, p.row.from, p.row.to, f);
    case _ =>
  }

  lemma LoggingKeepsCounts(t: Tables, id: string, from: Status, to: Status, f: string)
    ensures ObservationCount(Logged(t, id, from, to), f) == ObservationCount(t, f)
  {
  }

  /** The transition rows of one kind together with the won updates still owing theirs. */
  function LogBalance(s: State, row: Transition): nat {
    LoggedTimes(s.t.log, row) + |Holders(s.sessions, Unlogged(row))|
  }

  lemma LoggedCounts(t: Tables, id: string, from: Status, to: Status, row: Transition)
    ensures LoggedTimes(Logged(t, id, from, to).log, row)
         == LoggedTimes(t.log, row) + One(row == Transition(id, from, to))
  {
    var longer := Logged(t, id, from, to).log;
    assert longer[..|longer| - 1] == t.log;
  }

  lemma LogStep(s: State, step: Step, row: Transition)
    requires Inv(s) && Enabled(s, step) && row.from != Pending
    ensures LogBalance(After(s, step), row) + One(Happens(s, step, Loses(Unlogged(row))))
         == LogBalance(s, row) + One(Happens(s, step, Moves(row)))
  {
    hide RowInv, TablesInv, Holders, Logged, LoggedTimes;
    var p := PhaseOf(s, step.w);
    HoldersStep(s, step.w, PhaseAfter(s.t, p, step), Unlogged(row));
    match step
    case LogFiring(_) => LoggedCounts(s.t, p.a.id, Pending, Firing, row);
    case LogMove(_) => LoggedCounts(s.t, p.row.alertID, p.row.from, p.row.to, row);
    case _ =>
  }

  /** The books of any run of any number of sessions. The fired count is the number of upserts,
      the version adds the won updates, every upsert has its observation row unless it is still
      owing or was given up, and likewise every won update its transition row. */
  lemma {:induction false} Books(steps: seq<Step>, f: string, row: Transition)
    requires Feasible(INIT, steps) && row.from != Pending
    ensures var s := RunTo(INIT, steps);
      && FiredCount(s.t, f) == Count(INIT, steps, Fires(f))
      && Version(s.t, f) == FiredCount(s.t, f) + Count(INIT, steps, Wins(f))
      && ObservationCount(s.t, f) + |Holders(s.sessions, Unobserved(f))| + Count(INIT, steps, Loses(Unobserved(f)))
         == FiredCount(s.t, f)
      && LoggedTimes(s.t.log, row) + |Holders(s.sessions, Unlogged(row))| + Count(INIT, steps, Loses(Unlogged(row)))
         == Count(INIT, steps, Moves(row))
  {
    hide Inv, Happens, Enabled, After, FiredCount, Version, ObservationCount, Holders;
    if steps == [] {
      BooksOpen(f, row);
    } else {
      var n := |steps| - 1;
      var before, step := RunTo(INIT, steps[..n]), steps[n];
      Books(steps[..n], f, row);
      InitInv();
      RunKeepsInv(INIT, steps[..n]);
      CountersStep(before, step, f);
      ObservationsStep(before, step, f);
      LogStep(before, step, row);
    }
  }

  lemma {:induction false} NothingIsLost(steps: seq<Step>, token: Token)
    requires Feasible(INIT, steps) && !token.First?
    requires forall i :: 0 <= i < |steps| ==> !steps[i].Abort?
    ensures Count(INIT, steps, Loses(token)) == 0
  {
    if steps != [] {
      NothingIsLost(steps[..|steps| - 1], token);
    }
  }

  /** Once nobody is at work, and if nobody gave up: one observation row per upsert, and for every
      kind of change as many transition rows as there were won updates that made it. */
  lemma QuietBooks(steps: seq<Step>, f: string, row: Transition)
    requires Feasible(INIT, steps) && row.from != Pending
    requires forall i :: 0 <= i < |steps| ==> !steps[i].Abort?
    requires forall w :: w in RunTo(INIT, steps).sessions ==> Free(RunTo(INIT, steps).sessions[w])
    ensures var t := RunTo(INIT, steps).t;
      && ObservationCount(t, f) == FiredCount(t, f) == Count(INIT, steps, Fires(f))
      && LoggedTimes(t.log, row) == Count(INIT, steps, Moves(row))
  {
    Books(steps, f, row);
    NothingIsLost(steps, Unobserved(f));
    NothingIsLost(steps, Unlogged(row));
    assert Holders(RunTo(INIT, steps).sessions, Unobserved(f)) == {};
    assert Holders(RunTo(INIT, steps).sessions, Unlogged(row)) == {};
  }

  lemma BooksOpen(f: string, row: Transition)
    ensures FiredCount(EMPTY, f) == Version(EMPTY, f) == ObservationCount(EMPTY, f) == LoggedTimes(EMPTY.log, row) == 0
    ensures forall token :: Holders(INIT.sessions, token) == {}
  {
  }

  // ---------------------------------------------------------------- one firing row per alert

  /** The pending -> firing rows of an alert, with the sessions that are about to write one. */
  function FirstBalance(s: State, id: string): nat {
    LoggedTimes(s.t.log, Transition(id, Pending, Firing)) + |Holders(s.sessions, First(id))|
  }

  lemma FirstStep(s: State, step: Step, id: string)
    requires Inv(s) && Enabled(s, step)
    ensures FirstBalance(After(s, step), id) + One(Happens(s, step, Loses(First(id))))
         == FirstBalance(s, id) + One(Happens(s, step, Confirms(id)))
  {
    hide RowInv, TablesInv, Holders, Logged, LoggedTimes, LooksNew, NewOnce;
    var p, row := PhaseOf(s, step.w), Transition(id, Pending, Firing);
    IdleIsFine(s.t);
    assert PhaseInv(s.t, p);
    HoldersStep(s, step.w, PhaseAfter(s.t, p, step), First(id));
    match step
    case LogFiring(_) => LoggedCounts(s.t, p.a.id, Pending, Firing, row);
    case LogMove(_) => LoggedCounts(s.t, p.row.alertID, p.row.from, p.row.to, row);
    case _ =>
  }

  /** `k` re-selects have found the alert new so far, and whether another one still may. */
  ghost predicate AtMostOneConfirms(s: State, id: string, k: nat) {
    && k <= 1
    && (id !in s.t.alerts ==> k == 0)
    && (id in s.t.alerts && s.t.alerts[id].firedCount == 1 ==>
          k + |Holders(s.sessions, Unread(s.t.alerts[id].fingerprint))| <= 1)
  }

  lemma NobodyHas(s: State, f: string)
    requires Inv(s) && f !in s.t.byFingerprint
    ensures Holders(s.sessions, Unread(f)) == {}
  {
    forall w | w in s.sessions
      ensures !Holds(s.sessions[w], Unread(f))
    {
      var p := s.sessions[w];
      assert PhaseInv(s.t, p);
      if p.Written? {
        SeenNow(s.t, p.mine.id);
        IndexedNow(s.t, p.e.fingerprint);
        assert s.t.alerts[p.mine.id].fingerprint in s.t.byFingerprint;
      }
    }
  }

  lemma UpsertConfirmsNothing(s: State, w: string, e: Evaluation, id: string, k: nat)
    requires Inv(s) && Enabled(s, Upsert(w, e)) && AtMostOneConfirms(s, id, k)
    ensures AtMostOneConfirms(After(s, Upsert(w, e)), id, k)
  {
    hide Holders, NewOnce;
    var p' := PhaseAfter(s.t, PhaseOf(s, w), Upsert(w, e));
    if e.fingerprint !in s.t.byFingerprint {
      NobodyHas(s, e.fingerprint);
    }
    IndexedNow(s.t, e.fingerprint);
    if id in s.t.alerts {
      SeenNow(s.t, id);
      HoldersStep(s, w, p', Unread(s.t.alerts[id].fingerprint));
    } else {
      HoldersStep(s, w, p', Unread(e.fingerprint));
    }
  }

  lemma ConfirmStep(s: State, step: Step, id: string, k: nat)
    requires Inv(s) && Enabled(s, step) && AtMostOneConfirms(s, id, k)
    ensures AtMostOneConfirms(After(s, step), id, k + One(Happens(s, step, Confirms(id))))
  {
    hide TablesInv, Holders, Logged, Upserted, Cas, NewOnce, RowInv;
    var p := PhaseOf(s, step.w);
    if step.Upsert? {
      UpsertConfirmsNothing(s, step.w, step.e, id, k);
      return;
    }
    IdleIsFine(s.t);
    assert PhaseInv(s.t, p);
    if id in s.t.alerts {
      HoldersStep(s, step.w, PhaseAfter(s.t, p, step), Unread(s.t.alerts[id].fingerprint));
    }
    match step
    case Reselect(_) =>
      ReselectStep(s.t, p);
      NotPending(s.t, p.mine.id);
    case LogFiring(_) =>
      LoggedKeepsAlerts(s.t, p.a.id, Pending, Firing);
    case LogMove(_) =>
      LoggedKeepsAlerts(s.t, p.row.alertID, p.row.from, p.row.to);
    case CompareAndSet(_, at) =>
      CasKeepsCounts(s.t, p.a.id, p.a.status, p.goal, at);
    case _ =>
  }

  lemma NotPending(t: Tables, id: string)
    requires Kept(t) && id in t.alerts
    ensures t.alerts[id].status != Pending && t.alerts[id].firedCount >= 1
  {
  }

  lemma LoggedKeepsAlerts(t: Tables, id: string, from: Status, to: Status)
    ensures Logged(t, id, from, to).alerts == t.alerts
  {
  }

  lemma CasKeepsCounts(t: Tables, id: string, from: Status, to: Status, at: int)
    ensures var t' := Cas(t, id, from, to, at);
      && t'.log == t.log && t'.alerts.Keys == t.alerts.Keys
      && forall x :: x in t.alerts ==>
           t'.alerts[x].firedCount == t.alerts[x].firedCount && t'.alerts[x].fingerprint == t.alerts[x].fingerprint
  {
  }

  /** The pending -> firing rows of an alert, in any run: one for the re-select that found the alert
      new, if there was one and its session has stored the row. However evaluations race, there is
      at most one. */
  lemma {:induction false} FiringIsLoggedOnce(steps: seq<Step>, id: string)
    requires Feasible(INIT, steps)
    ensures var s := RunTo(INIT, steps);
      LoggedTimes(s.t.log, Transition(id, Pending, Firing)) + |Holders(s.sessions, First(id))|
      + Count(INIT, steps, Loses(First(id))) == Count(INIT, steps, Confirms(id)) <= 1
    ensures AtMostOneConfirms(RunTo(INIT, steps), id, Count(INIT, steps, Confirms(id)))
  {
    hide Inv, Enabled, After, Happens, Holders, AtMostOneConfirms;
    if steps == [] {
      BooksOpen("", Transition(id, Pending, Firing));
      NoneConfirmed(id);
    } else {
      var n := |steps| - 1;
      FiringIsLoggedOnce(steps[..n], id);
      InitInv();
      RunKeepsInv(INIT, steps[..n]);
      FirstStep(RunTo(INIT, steps[..n]), steps[n], id);
      ConfirmStep(RunTo(INIT, steps[..n]), steps[n], id, Count(INIT, steps[..n], Confirms(id)));
    }
    OneAtMost(RunTo(INIT, steps), id, Count(INIT, steps, Confirms(id)));
  }

  lemma NoneConfirmed(id: string)
    ensures AtMostOneConfirms(INIT, id, 0)
  {
  }

  lemma OneAtMost(s: State, id: string, k: nat)
    requires AtMostOneConfirms(s, id, k)
    ensures k <= 1
  {
  }

  /** And when there is one: a re-select finds the alert new exactly when its own session inserted
      it and nothing, no other upsert and no won update, has touched it since. */
  lemma FiringNeedsAnUntouchedInsert(steps: seq<Step>, w: string, id: string)
    requires Feasible(INIT, steps) && PhaseOf(RunTo(INIT, steps), w).Written?
    ensures var s := RunTo(INIT, steps);
      var mine := PhaseOf(s, w).mine;
      && mine.id in s.t.alerts
      && (Happens(s, Reselect(w), Confirms(id)) <==>
            id == mine.id && mine.version == 1 && s.t.alerts[id] == mine)
  {
    hide LooksNew, TablesInv, RowInv, NewOnce, Follows;
    InitInv();
    RunKeepsInv(INIT, steps);
    var s := RunTo(INIT, steps);
    var p := PhaseOf(s, w);
    assert PhaseInv(s.t, p);
    ReselectStep(s.t, p);
    NewMeansUntouched(s.t, p.mine);
  }

  lemma NewMeansUntouched(t: Tables, mine: Alert)
    requires Kept(t) && Seen(t, mine)
    ensures LooksNew(t.alerts[mine.id]) <==> mine.version == 1 && t.alerts[mine.id] == mine
  {
    SeenNow(t, mine.id);
  }

  // ---------------------------------------------------------------- what a call returns

  /** What a session returns in any interleaving: a row of its alert that is, or follows, the row
      as its own write left it, so it differs only if somebody else has written since, and then
      its version tells. An evaluation left its alert firing or acknowledged. */
  lemma AnswersFollowOwnWrites(steps: seq<Step>, w: string)
    requires Feasible(INIT, steps) && PhaseOf(RunTo(INIT, steps), w).Answered?
    ensures var s := RunTo(INIT, steps);
      var p := PhaseOf(s, w);
      && p.mine.id == p.got.id && p.got.id in s.t.alerts
      && (p.got == p.mine <==> p.got.version == p.mine.version) && p.mine.version <= p.got.version
      && Follows(p.got, s.t.alerts[p.got.id])
      && p.got.status != Pending
  {
    InitInv();
    RunKeepsInv(INIT, steps);
    assert PhaseInv(RunTo(INIT, steps).t, PhaseOf(RunTo(INIT, steps), w));
  }

  /** The row a session calls its own is what the table held right after its write: for an operator
      the row with the status it asked for, for an evaluation one that fires or stays
      acknowledged. */
  lemma OwnWriteIsInTheTable(steps: seq<Step>, step: Step)
    requires Feasible(INIT, steps) && Enabled(RunTo(INIT, steps), step) && (step.Upsert? || step.CompareAndSet?)
    ensures var s, s' := RunTo(INIT, steps), After(RunTo(INIT, steps), step);
      var p, p' := PhaseOf(s, step.w), PhaseOf(s', step.w);
      && (step.Upsert? ==>
            && p'.Written? && p'.mine.id in s'.t.alerts && s'.t.alerts[p'.mine.id] == p'.mine
            && p'.mine.fingerprint == step.e.fingerprint && p'.mine.status in {Firing, Acknowledged})
      && (step.CompareAndSet? ==>
            && (p'.Won? <==> Winning(s.t, p)) && (!p'.Won? ==> p'.Idle? && s'.t == s.t)
            && (p'.Won? ==>
                  p'.mine.id in s'.t.alerts && s'.t.alerts[p'.mine.id] == p'.mine && p'.mine.status == p.goal))
  {
    hide TablesInv, NewOnce, Follows, RowInv, Moved, Upserted;
    InitInv();
    RunKeepsInv(INIT, steps);
    var s := RunTo(INIT, steps);
    var p := PhaseOf(s, step.w);
    if step.Upsert? {
      WrittenNow(s.t, step.e);
    } else {
      assert PhaseInv(s.t, p);
      if Winning(s.t, p) {
        SeenNow(s.t, p.a.id);
        MovedKeepsId(s.t.alerts[p.a.id], p.goal, step.at);
      }
    }
  }
}
