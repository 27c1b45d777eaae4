/** What the columns of an alert say about the steps that led to them, in any run: which evaluation
    brought its value, and when operators moved it. */
module AlertHistory {
  import opened Prelude
  import opened AlertTable
  import opened AlertProtocol

  /** The last upsert of a fingerprint. */
  function LastUpsert(steps: seq<Step>, f: string): Option<Evaluation> {
    if steps == [] then None else
      var n := |steps| - 1;
      if steps[n].Upsert? && steps[n].e.fingerprint == f then Some(steps[n].e) else LastUpsert(steps[..n], f)
  }

  function FirstUpsert(steps: seq<Step>, f: string): Option<Evaluation> {
    if steps == [] then None else
      var n := |steps| - 1;
      match FirstUpsert(steps[..n], f)
      case Some(e) => Some(e)
      case None => if steps[n].Upsert? && steps[n].e.fingerprint == f then Some(steps[n].e) else None
  }

  /** This step is an operator's update to `goal` that found the alert in the status its session had
      read. */
  predicate WinsNow(s: State, step: Step, id: string, goal: Status) {
    var p := PhaseOf(s, step.w);
    && step.CompareAndSet? && p.Chosen? && p.a.id == id && p.goal == goal
    && id in s.t.alerts && s.t.alerts[id].status == p.a.status
  }

  predicate MovesNow(s: State, step: Step, id: string) {
    WinsNow(s, step, id, Resolved) || WinsNow(s, step, id, Acknowledged) || WinsNow(s, step, id, Silenced)
  }

  /** When an operator last won that update. */
  function LastWon(steps: seq<Step>, id: string, goal: Status): Option<int> {
    if steps == [] then None else
      var n := |steps| - 1;
      if WinsNow(RunTo(INIT, steps[..n]), steps[n], id, goal) then Some(steps[n].at) else LastWon(steps[..n], id, goal)
  }

  /** When anybody last changed the alert. */
  function LastTouched(steps: seq<Step>, id: string, f: string): Option<int> {
    if steps == [] then None else
      var n := |steps| - 1;
      if steps[n].Upsert? && steps[n].e.fingerprint == f then Some(steps[n].e.at)
      else if MovesNow(RunTo(INIT, steps[..n]), steps[n], id) then Some(steps[n].at)
      else LastTouched(steps[..n], id, f)
  }

  // ---------------------------------------------------------------- one step

  /** What a step leaves of a row that was there before. */
  lemma RowStep(steps: seq<Step>, step: Step, id: string)
    requires Feasible(INIT, steps) && Enabled(RunTo(INIT, steps), step) && id in RunTo(INIT, steps).t.alerts
    ensures var s := RunTo(INIT, steps);
      var a := s.t.alerts[id];
      && id in After(s, step).t.alerts
      && var b := After(s, step).t.alerts[id];
      && a.id == id && b.fingerprint == a.fingerprint
      && (if step.Upsert? && step.e.fingerprint == a.fingerprint then b == Refired(a, step.e)
          else if step.CompareAndSet? && Winning(s.t, PhaseOf(s, step.w)) && PhaseOf(s, step.w).a.id == id
          then b == Moved(a, PhaseOf(s, step.w).goal, step.at)
          else b == a)
  {
    hide RowInv, NewOnce, Refired, Moved, TablesInv, Upserted, Cas, PhaseInv;
    InitInv();
    RunKeepsInv(INIT, steps);
    var s := RunTo(INIT, steps);
    var p := PhaseOf(s, step.w);
    SeenNow(s.t, id);
    if step.Upsert? {
      RowUpserted(s.t, step.e, id);
    } else if p.Chosen? && step.CompareAndSet? {
      RowMoved(s.t, p.a, p.goal, step.at, id);
    }
  }

  lemma RowUpserted(t: Tables, e: Evaluation, id: string)
    requires Kept(t) && Accepts(t, e) && id in t.alerts
    ensures var a := t.alerts[id];
      && id in Upserted(t, e).alerts && Upserted(t, e).alerts[id].fingerprint == a.fingerprint
      && Upserted(t, e).alerts[id] == if e.fingerprint == a.fingerprint then Refired(a, e) else a
  {
    hide RowInv, NewOnce, Refired;
    RefiredKeepsId(t.alerts[id], e);
  }

  lemma RowMoved(t: Tables, a: Alert, goal: Status, at: int, id: string)
    requires Kept(t) && id in t.alerts
    ensures var t' := Cas(t, a.id, a.status, goal, at);
      && id in t'.alerts && t'.alerts[id].fingerprint == t.alerts[id].fingerprint
      && t'.alerts[id] == if a.id == id && CasWins(t, id, a.status) then Moved(t.alerts[id], goal, at) else t.alerts[id]
  {
    hide RowInv, NewOnce, Moved;
    MovedKeepsId(t.alerts[id], goal, at);
  }

  lemma RefiredKeepsId(a: Alert, e: Evaluation)
    ensures Refired(a, e).id == a.id && Refired(a, e).fingerprint == a.fingerprint
  {
  }

  /** A row that a step brings is a new alert. */
  lemma NewRowStep(steps: seq<Step>, step: Step, id: string)
    requires Feasible(INIT, steps) && Enabled(RunTo(INIT, steps), step) && id !in RunTo(INIT, steps).t.alerts
    requires id in After(RunTo(INIT, steps), step).t.alerts
    ensures step.Upsert? && step.e.id == id && step.e.fingerprint !in RunTo(INIT, steps).t.byFingerprint
    ensures After(RunTo(INIT, steps), step).t.alerts[id] == NewAlert(step.e)
  {
    hide RowInv, NewOnce, Refired, Moved;
    InitInv();
    RunKeepsInv(INIT, steps);
  }

  /** What is not in the tables has left no trace in the steps. */
  lemma {:induction false} NothingBefore(steps: seq<Step>, id: string, f: string)
    requires Feasible(INIT, steps)
    ensures var t := RunTo(INIT, steps).t;
      && (id !in t.alerts ==> forall goal :: LastWon(steps, id, goal) == None)
      && (f !in t.byFingerprint ==> LastUpsert(steps, f) == None == FirstUpsert(steps, f))
  {
    hide Enabled, RowInv, NewOnce;
    if steps != [] {
      var n := |steps| - 1;
      var before, step := steps[..n], steps[n];
      NothingBefore(before, id, f);
      InitInv();
      RunKeepsInv(INIT, before);
      AcceptsNow(before, step);
      StepKeepsInv(RunTo(INIT, before), step);
      if step.Upsert? {
        UpsertIndexes(RunTo(INIT, before).t, step.e);
      }
    }
  }

  lemma AcceptsNow(steps: seq<Step>, step: Step)
    requires Enabled(RunTo(INIT, steps), step)
    ensures step.Upsert? ==> Accepts(RunTo(INIT, steps).t, step.e)
  {
  }

  lemma UpsertIndexes(t: Tables, e: Evaluation)
    requires Kept(t) && Accepts(t, e)
    ensures e.fingerprint in Upserted(t, e).byFingerprint
  {
    hide RowInv, NewOnce;
  }

  // ---------------------------------------------------------------- the law

  ghost predicate Told(steps: seq<Step>, id: string, a: Alert) {
    && a.id == id
    && LastUpsert(steps, a.fingerprint).Some? && FirstUpsert(steps, a.fingerprint).Some?
    && var last, first := LastUpsert(steps, a.fingerprint).value, FirstUpsert(steps, a.fingerprint).value;
    && a.value == last.value && a.message == last.message && a.lastFiredAt == last.at
    && a.id == first.id && a.tenant == first.tenant && a.key == first.key && a.startedAt == first.at
    && a.acknowledgedAt == LastWon(steps, id, Acknowledged)
    && a.silencedAt == LastWon(steps, id, Silenced)
    && a.resolvedAt == (if a.status == Resolved then LastWon(steps, id, Resolved) else None)
    && LastTouched(steps, id, a.fingerprint) == Some(a.updatedAt)
  }

  lemma LastAfter(steps: seq<Step>, step: Step, id: string, f: string)
    ensures LastUpsert(steps + [step], f)
         == if step.Upsert? && step.e.fingerprint == f then Some(step.e) else LastUpsert(steps, f)
    ensures FirstUpsert(steps + [step], f)
         == if FirstUpsert(steps, f).Some? then FirstUpsert(steps, f)
            else if step.Upsert? && step.e.fingerprint == f then Some(step.e) else None
    ensures forall goal :: LastWon(steps + [step], id, goal)
                        == if WinsNow(RunTo(INIT, steps), step, id, goal) then Some(step.at)
                           else LastWon(steps, id, goal)
    ensures LastTouched(steps + [step], id, f)
         == if step.Upsert? && step.e.fingerprint == f then Some(step.e.at)
            else if MovesNow(RunTo(INIT, steps), step, id) then Some(step.at)
            else LastTouched(steps, id, f)
  {
    hide WinsNow;
    assert (steps + [step])[..|steps|] == steps;
  }

  lemma ToldAfterUpsert(steps: seq<Step>, w: string, e: Evaluation, a: Alert)
    requires Told(steps, a.id, a) && e.fingerprint == a.fingerprint && RowInv(a)
    ensures Told(steps + [Upsert(w, e)], a.id, Refired(a, e))
  {
    LastAfter(steps, Upsert(w, e), a.id, a.fingerprint);
  }

  lemma ToldAfterMove(steps: seq<Step>, w: string, at: int, goal: Status, a: Alert)
    requires Told(steps, a.id, a) && goal in GOALS && WinsNow(RunTo(INIT, steps), CompareAndSet(w, at), a.id, goal)
    requires a.status != Resolved
    ensures Told(steps + [CompareAndSet(w, at)], a.id, Moved(a, goal, at))
  {
    LastAfter(steps, CompareAndSet(w, at), a.id, a.fingerprint);
  }

  lemma ToldStill(steps: seq<Step>, step: Step, a: Alert)
    requires Told(steps, a.id, a) && !(step.Upsert? && step.e.fingerprint == a.fingerprint)
    requires forall goal :: !WinsNow(RunTo(INIT, steps), step, a.id, goal)
    ensures Told(steps + [step], a.id, a)
  {
    hide WinsNow;
    LastAfter(steps, step, a.id, a.fingerprint);
  }

  lemma ToldOfNew(steps: seq<Step>, w: string, e: Evaluation)
    requires LastUpsert(steps, e.fingerprint) == None == FirstUpsert(steps, e.fingerprint)
    requires forall goal :: LastWon(steps, e.id, goal) == None
    ensures Told(steps + [Upsert(w, e)], e.id, NewAlert(e))
  {
    LastAfter(steps, Upsert(w, e), e.id, e.fingerprint);
  }

  lemma ToldStep(steps: seq<Step>, step: Step, id: string)
    requires Feasible(INIT, steps) && Enabled(RunTo(INIT, steps), step) && id in RunTo(INIT, steps).t.alerts
    requires Told(steps, id, RunTo(INIT, steps).t.alerts[id])
    ensures var s' := After(RunTo(INIT, steps), step);
      id in s'.t.alerts && Told(steps + [step], id, s'.t.alerts[id])
  {
    hide RunTo, Enabled, After, RowInv, Told, Refired, Moved;
    var s := RunTo(INIT, steps);
    var a, p := s.t.alerts[id], PhaseOf(s, step.w);
    RowStep(steps, step, id);
    if step.Upsert? && step.e.fingerprint == a.fingerprint {
      ReachedRow(steps, id);
      ToldAfterUpsert(steps, step.w, step.e, a);
    } else if step.CompareAndSet? && Winning(s.t, p) && p.a.id == id {
      GoalsOnly(steps, step);
      LeavesResolved(steps, step.w);
      ToldAfterMove(steps, step.w, step.at, p.goal, a);
    } else {
      ToldStill(steps, step, a);
    }
  }

  lemma {:induction false} EveryRowIsTold(steps: seq<Step>, id: string)
    requires Feasible(INIT, steps) && id in RunTo(INIT, steps).t.alerts
    ensures Told(steps, id, RunTo(INIT, steps).t.alerts[id])
  {
    hide RunTo, Enabled, After, Told;
    StartsEmpty();
    if steps != [] {
      var n := |steps| - 1;
      var before, step := steps[..n], steps[n];
      LastStep(steps);
      assert steps == before + [step];
      if id in RunTo(INIT, before).t.alerts {
        EveryRowIsTold(before, id);
        ToldStep(before, step, id);
      } else {
        NewRowStep(before, step, id);
        NothingBefore(before, id, step.e.fingerprint);
        ToldOfNew(before, step.w, step.e);
      }
    }
  }

  /** In every run, whatever interleaves: value, message and firing time of an alert are those of
      the last upsert of its fingerprint, identity, key and start those of the first; the times of
      an acknowledgement and of a silencing are those of the last update of that kind that won,
      and so is the time it was resolved, as long as it is; and it was updated when it was last
      upserted or moved. */
  lemma RowTellsItsSteps(steps: seq<Step>, id: string)
    requires Feasible(INIT, steps) && id in RunTo(INIT, steps).t.alerts
    ensures var a := RunTo(INIT, steps).t.alerts[id];
      && a.id == id
      && LastUpsert(steps, a.fingerprint).Some? && FirstUpsert(steps, a.fingerprint).Some?
      && var last, first := LastUpsert(steps, a.fingerprint).value, FirstUpsert(steps, a.fingerprint).value;
      && a.value == last.value && a.message == last.message && a.lastFiredAt == last.at
      && a.id == first.id && a.tenant == first.tenant && a.key == first.key && a.startedAt == first.at
      && a.acknowledgedAt == LastWon(steps, id, Acknowledged)
      && a.silencedAt == LastWon(steps, id, Silenced)
      && a.resolvedAt == (if a.status == Resolved then LastWon(steps, id, Resolved) else None)
      && LastTouched(steps, id, a.fingerprint) == Some(a.updatedAt)
  {
    EveryRowIsTold(steps, id);
  }

  lemma StartsEmpty()
    ensures RunTo(INIT, []).t.alerts == map[]
  {
  }

  lemma LastStep(steps: seq<Step>)
    requires steps != [] && Feasible(INIT, steps)
    ensures var n := |steps| - 1;
      && Feasible(INIT, steps[..n]) && Enabled(RunTo(INIT, steps[..n]), steps[n])
      && RunTo(INIT, steps) == After(RunTo(INIT, steps[..n]), steps[n])
  {
  }

  lemma GoalsOnly(steps: seq<Step>, step: Step)
    requires Feasible(INIT, steps)
    ensures var p := PhaseOf(RunTo(INIT, steps), step.w); p.Chosen? ==> p.goal in GOALS && p.goal != p.a.status
  {
    hide RowInv, NewOnce;
    InitInv();
    RunKeepsInv(INIT, steps);
    assert PhaseInv(RunTo(INIT, steps).t, PhaseOf(RunTo(INIT, steps), step.w));
  }

  /** An operator never moves a resolved alert. */
  lemma LeavesResolved(steps: seq<Step>, w: string)
    requires Feasible(INIT, steps)
    ensures var p := PhaseOf(RunTo(INIT, steps), w); p.Chosen? ==> p.a.status != Resolved
  {
    hide NewOnce, RowInv, TablesInv;
    InitInv();
    RunKeepsInv(INIT, steps);
    assert PhaseInv(RunTo(INIT, steps).t, PhaseOf(RunTo(INIT, steps), w));
  }

  lemma ReachedRow(steps: seq<Step>, id: string)
    requires Feasible(INIT, steps) && id in RunTo(INIT, steps).t.alerts
    ensures RowInv(RunTo(INIT, steps).t.alerts[id])
  {
    hide NewOnce, RowInv, PhaseInv;
    InitInv();
    RunKeepsInv(INIT, steps);
  }

  // ---------------------------------------------------------------- observations

  function LastOwnUpsert(steps: seq<Step>, w: string): Option<Evaluation> {
    if steps == [] then None else
      var n := |steps| - 1;
      if steps[n].Upsert? && steps[n].w == w then Some(steps[n].e) else LastOwnUpsert(steps[..n], w)
  }

  lemma {:induction false} KnowsItsUpsert(steps: seq<Step>, w: string)
    requires Feasible(INIT, steps)
    ensures var p := PhaseOf(RunTo(INIT, steps), w);
      p.Written? || p.Selected? ==> LastOwnUpsert(steps, w) == Some(p.e)
  {
    hide TablesAfter;
    if steps != [] {
      KnowsItsUpsert(steps[..|steps| - 1], w);
    }
  }

  /** The observation log: only the third statement of an evaluation writes it, one row with the
      value and time that the same session's last upsert brought, under that alert. */
  lemma ObservationsTellUpserts(steps: seq<Step>, step: Step)
    requires Feasible(INIT, steps) && Enabled(RunTo(INIT, steps), step)
    ensures var t, t' := RunTo(INIT, steps).t, After(RunTo(INIT, steps), step).t;
      if !step.Observe? then t'.observations == t.observations else
        && LastOwnUpsert(steps, step.w).Some?
        && var e := LastOwnUpsert(steps, step.w).value;
        exists id :: id in t.alerts && t.alerts[id].fingerprint == e.fingerprint
          && t'.observations == t.observations + [Observation(id, e.value, e.at)]
  {
    hide NewOnce, RowInv;
    InitInv();
    RunKeepsInv(INIT, steps);
    var s := RunTo(INIT, steps);
    var p := PhaseOf(s, step.w);
    KnowsItsUpsert(steps, step.w);
    if step.Observe? {
      assert PhaseInv(s.t, p);
      assert p.a.id in s.t.alerts && s.t.alerts[p.a.id].fingerprint == p.e.fingerprint;
    }
  }
}
