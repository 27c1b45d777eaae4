/** What the transition log tells about one alert, while evaluations and operators work on it and on
    others at the same time. */
module AlertReplay {
  import opened Prelude
  import opened AlertTable
  import opened AlertProtocol

  // ---------------------------------------------------------------- a log that replays

  /** The status after a row may be what the row says, or firing if it was re-fired since. */
  predicate Link(to: Status, next: Status) {
    to == next || (to in {Resolved, Silenced} && next == Firing)
  }

  /** From pending -> firing, row by row, to the current status. */
  ghost predicate Replays(rows: seq<Transition>, id: string, status: Status) {
    && rows != []
    && rows[0] == Transition(id, Pending, Firing)
    && (forall i :: 0 <= i < |rows| - 1 ==> Link(rows[i].to, rows[i + 1].from))
    && Link(rows[|rows| - 1].to, status)
  }

  lemma ReplaysMore(rows: seq<Transition>, id: string, from: Status, to: Status)
    requires Replays(rows, id, from)
    ensures Replays(rows + [Transition(id, from, to)], id, to)
  {
  }

  lemma ReplaysRefired(rows: seq<Transition>, id: string, from: Status)
    requires Replays(rows, id, from) && from in {Resolved, Silenced}
    ensures Replays(rows, id, Firing)
  {
  }

  lemma LogOfMore(log: seq<Transition>, row: Transition, id: string)
    ensures LogOf(log + [row], id) == LogOf(log, id) + if row.alertID == id then [row] else []
  {
    assert (log + [row])[..|log|] == log;
  }

  // ---------------------------------------------------------------- who owes a row

  /** The session has written the alert and its log row is still to come: it inserted the alert, or
      won it. */
  predicate Owes(p: Phase, id: string) {
    match p
    case Written(_, mine) => mine.id == id && mine.version == 1
    case Selected(_, mine, _) => mine.id == id && mine.version == 1
    case Recorded(mine, _) => mine.id == id && mine.version == 1
    case Won(row, _) => row.alertID == id
    case _ => false
  }

  ghost predicate NobodyOwes(s: State, id: string) {
    forall w :: w in s.sessions ==> !Owes(s.sessions[w], id)
  }

  /** The step changes the alert's row. */
  predicate Writes(s: State, step: Step, id: string) {
    if step.Upsert? then AlertOf(s.t, step.e.fingerprint).Some? && AlertOf(s.t, step.e.fingerprint).value.id == id
    else step.CompareAndSet? && Winning(s.t, PhaseOf(s, step.w)) && PhaseOf(s, step.w).a.id == id
  }

  /** Nobody writes the alert while a log row of it is still to come, and none gets lost. */
  ghost predicate Orderly(s: State, step: Step, id: string) {
    && (Writes(s, step, id) ==> NobodyOwes(s, id))
    && (step.Abort? || step.SkipFiring? ==> !Owes(PhaseOf(s, step.w), id))
  }

  ghost predicate OrderlyRun(steps: seq<Step>, id: string) {
    steps == [] ||
    (OrderlyRun(steps[..|steps| - 1], id) && Orderly(RunTo(INIT, steps[..|steps| - 1]), steps[|steps| - 1], id))
  }

  // ---------------------------------------------------------------- the invariant

  /** A session that owes a row was the last to write, and the log ends where it began. */
  ghost predicate DebtInv(t: Tables, p: Phase, id: string) {
    Owes(p, id) ==>
      && id in t.alerts && t.alerts[id] == p.mine
      && if p.Won? then p.row.to == p.mine.status && Replays(LogOf(t.log, id), id, p.row.from)
         else LogOf(t.log, id) == [] && (p.Selected? || p.Recorded? ==> p.a == p.mine)
  }

  ghost predicate ReplayInv(s: State, id: string) {
    && (forall w :: w in s.sessions ==> DebtInv(s.t, s.sessions[w], id))
    && (forall v, w :: v in s.sessions && w in s.sessions && Owes(s.sessions[v], id) && Owes(s.sessions[w], id) ==>
          v == w)
    && (id in s.t.alerts && NobodyOwes(s, id) ==> Replays(LogOf(s.t.log, id), id, s.t.alerts[id].status))
    && (id !in s.t.alerts ==> LogOf(s.t.log, id) == [])
  }

  /** The alert's row and log are the same in both. */
  predicate SameAlert(t: Tables, t': Tables, id: string) {
    && (id in t.alerts <==> id in t'.alerts)
    && (id in t.alerts ==> t'.alerts[id] == t.alerts[id])
    && LogOf(t'.log, id) == LogOf(t.log, id)
  }

  /** The step neither touches the alert nor changes who owes what. */
  lemma QuietStep(s: State, w: string, p: Phase, t': Tables, id: string)
    requires ReplayInv(s, id) && SameAlert(s.t, t', id)
    requires Owes(p, id) <==> Owes(PhaseOf(s, w), id)
    requires DebtInv(t', p, id)
    ensures ReplayInv(State(t', s.sessions[w := p]), id)
  {
    hide Owes, Replays, LogOf;
    IdleOwesNothing(id);
    var s' := State(t', s.sessions[w := p]);
    assert NobodyOwes(s', id) ==> NobodyOwes(s, id) by {
      forall v | v in s.sessions && NobodyOwes(s', id)
        ensures !Owes(s.sessions[v], id)
      {
        assert v in s'.sessions;
      }
    }
  }

  lemma IdleOwesNothing(id: string)
    ensures !Owes(Idle, id)
  {
  }

  ghost predicate NoOtherOwes(s: State, w: string, id: string) {
    forall v :: v in s.sessions && v != w ==> !Owes(s.sessions[v], id)
  }

  /** Only this session can owe a row of the alert after the step. */
  lemma SoleDebtor(s: State, w: string, p: Phase, t': Tables, id: string)
    requires NoOtherOwes(s, w, id) && DebtInv(t', p, id) && id in t'.alerts
    requires !Owes(p, id) ==> Replays(LogOf(t'.log, id), id, t'.alerts[id].status)
    ensures ReplayInv(State(t', s.sessions[w := p]), id)
  {
    hide Owes, Replays, LogOf;
    var s' := State(t', s.sessions[w := p]);
    assert w in s'.sessions && s'.sessions[w] == p;
  }

  // ---------------------------------------------------------------- the steps

  lemma UpsertKeepsReplay(s: State, w: string, e: Evaluation, id: string)
    requires Inv(s) && Enabled(s, Upsert(w, e)) && ReplayInv(s, id) && Orderly(s, Upsert(w, e), id)
    ensures ReplayInv(After(s, Upsert(w, e)), id)
  {
    hide LogOf, Inv, TablesInv, RowInv, NewOnce, DebtInv, Owes;
    InvMeans(s);
    var p := PhaseAfter(s.t, PhaseOf(s, w), Upsert(w, e));
    var t' := Upserted(s.t, e);
    WrittenNow(s.t, e);
    IndexedNow(s.t, e.fingerprint);
    FreeOwesNothing(PhaseOf(s, w), id);
    if p.mine.id != id {
      WrittenOwes(t', p, id);
      UpsertElsewhere(s.t, e, id);
      QuietStep(s, w, p, t', id);
    } else if AlertOf(s.t, e.fingerprint).Some? {
      var a := AlertOf(s.t, e.fingerprint).value;
      RefiredIsOld(a, e);
      WrittenOwes(t', p, id);
      if a.status in {Resolved, Silenced} {
        ReplaysRefired(LogOf(s.t.log, id), id, a.status);
      }
      SoleDebtor(s, w, p, t', id);
    } else {
      WrittenOwes(t', p, id);
      NobodyOwesUnknown(s, id);
      SoleDebtor(s, w, p, t', id);
    }
  }

  lemma InvMeans(s: State)
    requires Inv(s)
    ensures Kept(s.t) && forall w :: PhaseInv(s.t, PhaseOf(s, w))
  {
  }

  lemma FreeOwesNothing(p: Phase, id: string)
    requires Free(p)
    ensures !Owes(p, id)
  {
  }

  lemma WrittenOwes(t: Tables, p: Phase, id: string)
    requires p.Written?
    ensures Owes(p, id) <==> p.mine.id == id && p.mine.version == 1
    ensures DebtInv(t, p, id) <==>
      (Owes(p, id) ==> id in t.alerts && t.alerts[id] == p.mine && LogOf(t.log, id) == [])
  {
  }

  lemma UpsertElsewhere(t: Tables, e: Evaluation, id: string)
    requires Kept(t) && Accepts(t, e) && AlertOf(Upserted(t, e), e.fingerprint).Some?
    requires AlertOf(Upserted(t, e), e.fingerprint).value.id != id
    ensures SameAlert(t, Upserted(t, e), id)
  {
    IndexedNow(t, e.fingerprint);
  }

  lemma RefiredIsOld(a: Alert, e: Evaluation)
    requires RowInv(a)
    ensures Refired(a, e).version > 1 && Refired(a, e).id == a.id
    ensures Refired(a, e).status == if a.status in {Resolved, Silenced} then Firing else a.status
  {
  }

  lemma NobodyOwesUnknown(s: State, id: string)
    requires Inv(s) && id !in s.t.alerts
    ensures NobodyOwes(s, id)
  {
    forall w | w in s.sessions
      ensures !Owes(s.sessions[w], id)
    {
      assert PhaseInv(s.t, s.sessions[w]);
    }
  }

  lemma CasKeepsReplay(s: State, w: string, at: int, id: string)
    requires Inv(s) && Enabled(s, CompareAndSet(w, at)) && ReplayInv(s, id) && Orderly(s, CompareAndSet(w, at), id)
    ensures ReplayInv(After(s, CompareAndSet(w, at)), id)
  {
    hide LogOf, Inv, TablesInv, RowInv, NewOnce, Replays;
    InvMeans(s);
    var p := PhaseOf(s, w);
    var p' := PhaseAfter(s.t, p, CompareAndSet(w, at));
    var t' := Cas(s.t, p.a.id, p.a.status, p.goal, at);
    if Winning(s.t, p) {
      SeenNow(s.t, p.a.id);
      MovedKeepsId(s.t.alerts[p.a.id], p.goal, at);
    }
    if Winning(s.t, p) && p.a.id == id {
      SoleDebtor(s, w, p', t', id);
    } else {
      QuietStep(s, w, p', t', id);
    }
  }

  lemma LogFiringKeepsReplay(s: State, w: string, id: string)
    requires Inv(s) && Enabled(s, LogFiring(w)) && ReplayInv(s, id)
    ensures ReplayInv(After(s, LogFiring(w)), id)
  {
    hide LogOf, Inv, TablesInv, Replays, Follows, RowInv, NewOnce, LooksNew;
    InvMeans(s);
    var p := PhaseOf(s, w);
    assert PhaseInv(s.t, p);
    var t' := TablesAfter(s.t, p, LogFiring(w));
    NewMeansMine(p.mine, p.a);
    LogOfMore(s.t.log, Transition(p.a.id, Pending, Firing), id);
    if Owes(p, id) {
      assert DebtInv(s.t, p, id);
      assert [] + [Transition(id, Pending, Firing)] == [Transition(id, Pending, Firing)];
      FirstReplays(id);
      SoleDebtor(s, w, Answered(p.mine, p.a), t', id);
    } else {
      QuietStep(s, w, Answered(p.mine, p.a), t', id);
    }
  }

  lemma FirstReplays(id: string)
    ensures Replays([Transition(id, Pending, Firing)], id, Firing)
  {
  }

  lemma NewMeansMine(mine: Alert, a: Alert)
    requires Follows(mine, a) && RowInv(mine) && RowInv(a) && NewOnce(a)
    ensures LooksNew(a) ==> mine.version == 1 && mine.id == a.id
    ensures a == mine && mine.version == 1 ==> LooksNew(a) && a.status == Firing
  {
  }

  lemma LogMoveKeepsReplay(s: State, w: string, id: string)
    requires Inv(s) && Enabled(s, LogMove(w)) && ReplayInv(s, id)
    ensures ReplayInv(After(s, LogMove(w)), id)
  {
    hide LogOf, Inv, TablesInv, Replays, RowInv, NewOnce;
    var p := PhaseOf(s, w);
    var t' := Logged(s.t, p.row.alertID, p.row.from, p.row.to);
    LogOfMore(s.t.log, p.row, id);
    if Owes(p, id) {
      assert DebtInv(s.t, p, id);
      ReplaysMore(LogOf(s.t.log, id), id, p.row.from, p.row.to);
      SoleDebtor(s, w, Noted(p.mine), t', id);
    } else {
      QuietStep(s, w, Noted(p.mine), t', id);
    }
  }

  /** The other steps touch neither rows nor log. */
  lemma ReadingKeepsReplay(s: State, step: Step, id: string)
    requires Inv(s) && Enabled(s, step) && ReplayInv(s, id) && Orderly(s, step, id)
    requires !step.Upsert? && !step.CompareAndSet? && !step.LogFiring? && !step.LogMove?
    ensures ReplayInv(After(s, step), id)
  {
    hide LogOf, Inv, TablesInv, RowInv, NewOnce, Replays;
    InvMeans(s);
    var p := PhaseOf(s, step.w);
    assert DebtInv(s.t, p, id) by {
      IdleOwesNothing(id);
    }
    if step.Reselect? {
      ReselectStep(s.t, p);
    }
    QuietStep(s, step.w, PhaseAfter(s.t, p, step), TablesAfter(s.t, p, step), id);
  }

  lemma StepKeepsReplay(s: State, step: Step, id: string)
    requires Inv(s) && Enabled(s, step) && ReplayInv(s, id) && Orderly(s, step, id)
    ensures ReplayInv(After(s, step), id)
  {
    hide Inv, ReplayInv, Orderly, Enabled, After;
    match step
    case Upsert(w, e) => UpsertKeepsReplay(s, w, e, id);
    case CompareAndSet(w, at) => CasKeepsReplay(s, w, at, id);
    case LogFiring(w) => LogFiringKeepsReplay(s, w, id);
    case LogMove(w) => LogMoveKeepsReplay(s, w, id);
    case _ => ReadingKeepsReplay(s, step, id);
  }

  /** As long as nobody writes the alert while a log row of it is still to come, and none of its
      rows gets lost, its log tells its life, whatever goes on with other alerts: it starts with
      the firing, every row starts where the one before ended or at a re-fire, and, once no row is
      owed, so does the current status. */
  lemma {:induction false} LogTellsTheAlert(steps: seq<Step>, id: string)
    requires Feasible(INIT, steps) && OrderlyRun(steps, id)
    ensures var s := RunTo(INIT, steps);
      id in s.t.alerts && NobodyOwes(s, id) ==> Replays(LogOf(s.t.log, id), id, s.t.alerts[id].status)
    ensures ReplayInv(RunTo(INIT, steps), id)
  {
    hide Inv, Enabled, After, Orderly;
    InitInv();
    if steps != [] {
      var n := |steps| - 1;
      LogTellsTheAlert(steps[..n], id);
      RunKeepsInv(INIT, steps[..n]);
      StepKeepsReplay(RunTo(INIT, steps[..n]), steps[n], id);
    }
  }

  // ---------------------------------------------------------------- and not beyond

  /** A fresh alert, evaluated once by w. */
  lemma Fired(w: string, e: Evaluation) returns (steps: seq<Step>)
    ensures Feasible(INIT, steps)
    ensures var s := RunTo(INIT, steps);
      && s.t.alerts == map[e.id := NewAlert(e)] && s.t.log == [Transition(e.id, Pending, Firing)]
      && s.sessions == map[w := Answered(NewAlert(e), NewAlert(e))]
  {
    hide Feasible, RunTo;
    Nothing();
    OneMore(INIT, [], Upsert(w, e));
    steps := [] + [Upsert(w, e)];
    OneMore(INIT, steps, Reselect(w));
    steps := steps + [Reselect(w)];
    OneMore(INIT, steps, Observe(w));
    steps := steps + [Observe(w)];
    OneMore(INIT, steps, LogFiring(w));
    steps := steps + [LogFiring(w)];
  }

  lemma Nothing()
    ensures Feasible(INIT, []) && RunTo(INIT, []) == INIT
  {
  }

  /** A free operator session reads the alert and wins it; its log row is still to come. */
  lemma WinsAlert(before: seq<Step>, w: string, id: string, goal: Status, at: int) returns (steps: seq<Step>)
    requires Feasible(INIT, before) && Free(PhaseOf(RunTo(INIT, before), w)) && goal in GOALS
    requires var t := RunTo(INIT, before).t;
      id in t.alerts && t.alerts[id].id == id && t.alerts[id].status != goal && goal in Allowed(t.alerts[id].status)
    ensures Feasible(INIT, steps)
    ensures var s, s' := RunTo(INIT, before), RunTo(INIT, steps);
      var a := s.t.alerts[id];
      && s'.t == s.t.(alerts := s.t.alerts[id := Moved(a, goal, at)])
      && s'.sessions == s.sessions[w := Won(Transition(id, a.status, goal), Moved(a, goal, at))]
  {
    hide Feasible, RunTo, Moved, Free;
    var s := RunTo(INIT, before);
    var a := s.t.alerts[id];
    OneMore(INIT, before, Read(w, a.tenant, id, goal));
    steps := before + [Read(w, a.tenant, id, goal)];
    assert PhaseOf(RunTo(INIT, steps), w) == Chosen(a, goal);
    OneMore(INIT, steps, CompareAndSet(w, at));
    steps := steps + [CompareAndSet(w, at)];
    assert RunTo(INIT, steps).sessions
        == s.sessions[w := Won(Transition(id, a.status, goal), Moved(a, goal, at))];
  }

  /** It logs, and reads the alert again. */
  lemma LogsAndAnswers(before: seq<Step>, w: string) returns (steps: seq<Step>)
    requires Feasible(INIT, before) && PhaseOf(RunTo(INIT, before), w).Won?
    requires PhaseOf(RunTo(INIT, before), w).mine.id in RunTo(INIT, before).t.alerts
    ensures Feasible(INIT, steps)
    ensures var s, s' := RunTo(INIT, before), RunTo(INIT, steps);
      var p := PhaseOf(s, w);
      && s'.t == Logged(s.t, p.row.alertID, p.row.from, p.row.to)
      && s'.sessions == s.sessions[w := Answered(p.mine, s.t.alerts[p.mine.id])]
  {
    hide Feasible, RunTo;
    var s := RunTo(INIT, before);
    var p := PhaseOf(s, w);
    OneMore(INIT, before, LogMove(w));
    steps := before + [LogMove(w)];
    OneMore(INIT, steps, ReadBack(w));
    steps := steps + [ReadBack(w)];
    assert RunTo(INIT, steps).sessions == s.sessions[w := Answered(p.mine, s.t.alerts[p.mine.id])];
  }

  lemma LogOfOne(row: Transition)
    ensures LogOf([row], row.alertID) == [row]
  {
    assert [] + [row] == [row];
    LogOfMore([], row, row.alertID);
  }

  /** The log of the three rows, the last two the other way around. */
  lemma SwappedLog(id: string)
    ensures var first, second, third := Transition(id, Pending, Firing), Transition(id, Acknowledged, Resolved),
                                        Transition(id, Firing, Acknowledged);
      LogOf([first] + [second] + [third], id) == [first, second, third]
  {
    var first, second, third := Transition(id, Pending, Firing), Transition(id, Acknowledged, Resolved),
                                Transition(id, Firing, Acknowledged);
    hide LogOf;
    LogOfOne(first);
    LogOfMore([first], second, id);
    LogOfMore([first] + [second], third, id);
  }

  /** With two operators on one alert at once the log may tell another story: one acknowledges, the
      other resolves, and the rows of the two changes go in the other way around. */
  lemma InterleavedLogMisleads(e: Evaluation, u: string, v: string, w: string) returns (steps: seq<Step>)
    requires u != v && v != w && u != w
    ensures Feasible(INIT, steps)
    ensures var s := RunTo(INIT, steps);
      && (forall x :: x in s.sessions ==> s.sessions[x].Answered?)
      && e.id in s.t.alerts && !Replays(LogOf(s.t.log, e.id), e.id, s.t.alerts[e.id].status)
  {
    hide Feasible, RunTo, LogOf, Moved;
    steps := Fired(w, e);
    MovedKeepsId(NewAlert(e), Acknowledged, e.at);
    steps := WinsAlert(steps, v, e.id, Acknowledged, e.at);
    MovedKeepsId(Moved(NewAlert(e), Acknowledged, e.at), Resolved, e.at);
    steps := WinsAlert(steps, u, e.id, Resolved, e.at);
    steps := LogsAndAnswers(steps, u);
    steps := LogsAndAnswers(steps, v);
    SwappedLog(e.id);
    assert !Link(Firing, Acknowledged);
  }
}
