/** The alert repository and service as one process runs them. A call is a session of
    AlertProtocol: before each of its statements the other sessions take any steps they can, so
    all results about runs are results about these classes. */
module AlertService {
  import opened Prelude
  import opened Labels
  import opened Keys
  import opened AlertTable
  import opened AlertProtocol

  // ---------------------------------------------------------------- the other sessions

  /** The state after the others' attempts: a step that is not theirs, or not possible, is left
      out. */
  function Play(s: State, attempts: seq<Step>, me: string): State {
    if attempts == [] then s else
      var n := |attempts| - 1;
      var before := Play(s, attempts[..n], me);
      if attempts[n].w != me && Enabled(before, attempts[n]) then After(before, attempts[n]) else before
  }

  ghost function Admitted(s: State, attempts: seq<Step>, me: string): seq<Step> {
    if attempts == [] then [] else
      var n := |attempts| - 1;
      Admitted(s, attempts[..n], me)
      + if attempts[n].w != me && Enabled(Play(s, attempts[..n], me), attempts[n]) then [attempts[n]] else []
  }

  /** The steps of one session, in order. */
  function Own(steps: seq<Step>, me: string): seq<Step> {
    if steps == [] then [] else
      var n := |steps| - 1;
      Own(steps[..n], me) + if steps[n].w == me then [steps[n]] else []
  }

  lemma OwnMore(steps: seq<Step>, step: Step, me: string)
    ensures Own(steps + [step], me) == Own(steps, me) + if step.w == me then [step] else []
  {
    assert (steps + [step])[..|steps|] == steps;
  }

  /** What the others do is part of a run, and not of this session. */
  lemma {:induction false} PlayIsRun(trace: seq<Step>, attempts: seq<Step>, me: string)
    requires Feasible(INIT, trace)
    ensures var s := RunTo(INIT, trace);
      var longer := trace + Admitted(s, attempts, me);
      && Feasible(INIT, longer) && RunTo(INIT, longer) == Play(s, attempts, me)
      && Own(longer, me) == Own(trace, me)
      && PhaseOf(RunTo(INIT, longer), me) == PhaseOf(s, me)
  {
    hide Enabled, TablesAfter, PhaseAfter;
    var s := RunTo(INIT, trace);
    if attempts == [] {
      assert trace + [] == trace;
    } else {
      var n := |attempts| - 1;
      PlayIsRun(trace, attempts[..n], me);
      var longer := trace + Admitted(s, attempts[..n], me);
      if attempts[n].w != me && Enabled(Play(s, attempts[..n], me), attempts[n]) {
        OneMore(INIT, longer, attempts[n]);
        OwnMore(longer, attempts[n], me);
        assert trace + Admitted(s, attempts, me) == longer + [attempts[n]];
      } else {
        assert trace + Admitted(s, attempts, me) == longer;
      }
    }
  }

  lemma Reached(trace: seq<Step>, s: State)
    requires Feasible(INIT, trace) && RunTo(INIT, trace) == s
    ensures Inv(s) && Kept(s.t)
  {
    InitInv();
    RunKeepsInv(INIT, trace);
  }

  // ---------------------------------------------------------------- what a call did

  /** The last step was to give up. */
  predicate GaveUp(own: seq<Step>, me: string) {
    own != [] && own[|own| - 1] == Abort(me)
  }

  predicate NoUpsert(own: seq<Step>) {
    forall i :: 0 <= i < |own| ==> !own[i].Upsert?
  }

  predicate OneUpsert(own: seq<Step>) {
    own != [] && own[0].Upsert? && NoUpsert(own[1..])
  }

  /** The first of these steps is the compare-and-set, or it was lost and the session gave up. */
  predicate SetFirst(own: seq<Step>, me: string, at: int, lost: bool) {
    own != [] && (own[0] == CompareAndSet(me, at) || (own[0] == Abort(me) && lost))
  }

  /** The row says that it got its status now. */
  predicate MovedTo(a: Alert, goal: Status, at: int) {
    && a.status == goal && a.updatedAt == at
    && (goal == Resolved ==> a.resolvedAt == Some(at))
    && (goal == Acknowledged ==> a.acknowledgedAt == Some(at))
    && (goal == Silenced ==> a.silencedAt == Some(at))
  }

  lemma MovedNow(a: Alert, goal: Status, at: int)
    ensures MovedTo(Moved(a, goal, at), goal, at)
  {
  }

  /** An operator may do anything to an alert but move a resolved one. */
  lemma OperatorEdges(from: Status, goal: Status)
    requires from != Pending && goal in GOALS && from != goal
    ensures ValidTransition(from, goal) <==> from != Resolved
  {
  }

  /** The tables as the first n steps of a run left them. */
  function TablesAt(trace: seq<Step>, n: nat): Tables
    requires n <= |trace|
  {
    RunTo(INIT, trace[..n]).t
  }

  /** The n-th step of the run upserted `e`: it left the row `mine` with what the evaluation brought,
      and inserted it exactly when no alert had the fingerprint. */
  ghost predicate Wrote(trace: seq<Step>, n: nat, w: string, e: Evaluation, inserted: bool, mine: Alert) {
    && n < |trace| && trace[n] == Upsert(w, e)
    && (inserted <==> forall id :: id in TablesAt(trace, n).alerts ==>
                        TablesAt(trace, n).alerts[id].fingerprint != e.fingerprint)
    && mine.id in TablesAt(trace, n + 1).alerts && TablesAt(trace, n + 1).alerts[mine.id] == mine
    && mine.fingerprint == e.fingerprint && mine.status in {Firing, Acknowledged}
    && mine.value == e.value && mine.message == e.message && mine.lastFiredAt == e.at && mine.updatedAt == e.at
    && (inserted ==> mine.id == e.id && mine.tenant == e.tenant && mine.key == e.key && mine.startedAt == e.at)
  }

  lemma WroteForGood(trace: seq<Step>, trace': seq<Step>, n: nat, w: string, e: Evaluation, inserted: bool, mine: Alert)
    requires trace <= trace' && Wrote(trace, n, w, e, inserted, mine)
    ensures Wrote(trace', n, w, e, inserted, mine)
  {
    assert trace'[..n] == trace[..n] && trace'[..n + 1] == trace[..n + 1];
    assert TablesAt(trace', n) == TablesAt(trace, n) && TablesAt(trace', n + 1) == TablesAt(trace, n + 1);
    hide TablesAt;
  }

  lemma AnswerIsSeen(trace: seq<Step>, s: State, me: string)
    requires Feasible(INIT, trace) && RunTo(INIT, trace) == s && PhaseOf(s, me).Answered?
    ensures var p := PhaseOf(s, me);
      Follows(p.mine, p.got) && p.got.id in s.t.alerts && Follows(p.got, s.t.alerts[p.got.id])
  {
    hide Feasible, RunTo, TablesInv, RowInv, NewOnce, Follows;
    Reached(trace, s);
    assert PhaseInv(s.t, PhaseOf(s, me));
  }

  lemma UpsertWrites(trace: seq<Step>, w: string, e: Evaluation)
    requires Feasible(INIT, trace) && Enabled(RunTo(INIT, trace), Upsert(w, e))
    ensures var t := RunTo(INIT, trace).t;
      var row := AlertOf(Upserted(t, e), e.fingerprint);
      row.Some? && Wrote(trace + [Upsert(w, e)], |trace|, w, e, e.fingerprint !in t.byFingerprint, row.value)
  {
    hide RowInv, NewOnce, Feasible, RunTo, TablesInv, Enabled, Accepts, Seen;
    var t := RunTo(INIT, trace).t;
    var longer := trace + [Upsert(w, e)];
    AcceptedNow(RunTo(INIT, trace), w, e);
    Reached(trace, RunTo(INIT, trace));
    OneMore(INIT, trace, Upsert(w, e));
    assert longer[..|trace|] == trace && longer[..|trace| + 1] == longer;
    WrittenNow(t, e);
    RowBrought(t, e);
    UnknownFingerprint(t, e.fingerprint);
    assert TablesAt(longer, |trace|) == t && TablesAt(longer, |trace| + 1) == Upserted(t, e);
    hide TablesAt, Upserted;
  }

  lemma AcceptedNow(s: State, w: string, e: Evaluation)
    requires Enabled(s, Upsert(w, e))
    ensures Accepts(s.t, e) && After(s, Upsert(w, e)).t == Upserted(s.t, e)
  {
  }

  lemma UnknownFingerprint(t: Tables, f: string)
    requires Kept(t)
    ensures f !in t.byFingerprint <==> forall id :: id in t.alerts ==> t.alerts[id].fingerprint != f
  {
    hide RowInv, NewOnce;
  }

  lemma RowBrought(t: Tables, e: Evaluation)
    requires Kept(t) && Accepts(t, e) && AlertOf(Upserted(t, e), e.fingerprint).Some?
    ensures var mine := AlertOf(Upserted(t, e), e.fingerprint).value;
      && mine.value == e.value && mine.message == e.message && mine.lastFiredAt == e.at && mine.updatedAt == e.at
      && (e.fingerprint !in t.byFingerprint ==>
            mine.id == e.id && mine.tenant == e.tenant && mine.key == e.key && mine.startedAt == e.at)
  {
    hide RowInv, NewOnce;
  }

  // ---------------------------------------------------------------- the repository

  /** `trace` is all that has happened to the tables, `me` this process's session. Before its n-th
      statement the others attempt `others(n)`, and `fate(n)` is what becomes of the statement. */
  class PGRepository {
    var alerts: map<string, Alert>
    var byFingerprint: map<string, string>
    var observations: seq<Observation>
    var log: seq<Transition>
    var sessions: map<string, Phase>
    var statements: nat
    ghost var trace: seq<Step>
    const me: string
    const others: nat -> seq<Step>
    const fate: nat -> Fate

    constructor (me: string, others: nat -> seq<Step>, fate: nat -> Fate)
      ensures Valid() && trace == [] && statements == 0 && Free(Mine())
      ensures this.me == me && this.others == others && this.fate == fate
    {
      alerts, byFingerprint, observations, log := map[], map[], [], [];
      sessions, statements, trace := map[], 0, [];
      this.me, this.others, this.fate := me, others, fate;
    }

    function Contents(): Tables
      reads this
    {
      Tables(alerts, byFingerprint, observations, log)
    }

    function Now(): State
      reads this
    {
      State(Contents(), sessions)
    }

    function Mine(): Phase
      reads this
    {
      PhaseOf(Now(), me)
    }

    ghost predicate Valid()
      reads this
    {
      Feasible(INIT, trace) && RunTo(INIT, trace) == Now()
    }

    ghost predicate Reliable() {
      forall n :: 0 <= n ==> fate(n) == Fine
    }

    method Arrive() returns (fate: Fate)
      requires Valid()
      modifies this
      ensures Valid() && old(trace) <= trace && Own(trace, me) == Own(old(trace), me) && Mine() == old(Mine())
      ensures statements == old(statements) + 1 && fate == this.fate(old(statements))
    {
      hide Feasible, RunTo, Own;
      PlayIsRun(trace, others(statements), me);
      trace := trace + Admitted(Now(), others(statements), me);
      var s := Play(Now(), others(statements), me);
      alerts, byFingerprint, observations, log := s.t.alerts, s.t.byFingerprint, s.t.observations, s.t.log;
      sessions := s.sessions;
      fate := this.fate(statements);
      statements := statements + 1;
    }

    /** Takes note of the session's own step, after what it did to the tables. */
    method Note(step: Step, before: State)
      requires Feasible(INIT, trace) && RunTo(INIT, trace) == before && before.sessions == sessions
      requires step.w == me && Enabled(before, step) && Contents() == TablesAfter(before.t, PhaseOf(before, me), step)
      modifies this`sessions, this`trace
      ensures Valid() && Now() == After(before, step)
      ensures trace == old(trace) + [step] && Own(trace, me) == Own(old(trace), me) + [step]
      ensures Mine() == PhaseAfter(before.t, PhaseOf(before, me), step)
    {
      hide Feasible, RunTo, Own, TablesAfter, PhaseAfter, Enabled;
      OneMore(INIT, trace, step);
      OwnMore(trace, step, me);
      sessions := sessions[me := PhaseAfter(before.t, PhaseOf(before, me), step)];
      trace := trace + [step];
    }

    /** INSERT ... ON CONFLICT (fingerprint) DO UPDATE. */
    method WriteRow(e: Evaluation) returns (inserted: bool)
      requires Valid() && Free(Mine()) && Accepts(Contents(), e)
      modifies this`alerts, this`byFingerprint, this`sessions, this`trace
      ensures Valid() && Own(trace, me) == Own(old(trace), me) + [Upsert(me, e)] && old(trace) <= trace
      ensures Mine().Written? && Mine().e == e && Mine().mine.fingerprint == e.fingerprint
      ensures inserted <==> e.fingerprint !in old(byFingerprint)
      ensures inserted <==> Mine().mine.version == 1
      ensures Mine().mine.status in {Firing, Acknowledged}
      ensures trace == old(trace) + [Upsert(me, e)] && Wrote(trace, |old(trace)|, me, e, inserted, Mine().mine)
    {
      hide Feasible, RunTo, Own, TablesInv, RowInv, NewOnce, Seen, Wrote;
      Reached(trace, Now());
      UpsertWrites(trace, me, e);
      IndexedNow(Contents(), e.fingerprint);
      WrittenNow(Contents(), e);
      var before := Now();
      inserted := e.fingerprint !in byFingerprint;
      if inserted {
        alerts := alerts[e.id := Alert(e.id, e.tenant, e.fingerprint, e.key, Firing, e.value, e.message, e.at, e.at,
                                       e.at, None, None, None, 1, 1)];
        byFingerprint := byFingerprint[e.fingerprint := e.id];
      } else {
        NotPending(Contents(), byFingerprint[e.fingerprint]);
        var row := alerts[byFingerprint[e.fingerprint]];
        VersionsCount(row);
        var again := row.status in {Resolved, Silenced};
        alerts := alerts[row.id := row.(
          value := e.value, message := e.message, updatedAt := e.at, lastFiredAt := e.at,
          status := if again then Firing else row.status,
          resolvedAt := if again then None else row.resolvedAt,
          firedCount := row.firedCount + 1, version := row.version + 1)];
      }
      Note(Upsert(me, e), before);
    }

    /** A statement of the session failed: it gives up, and what it has done stays. */
    method GiveUp()
      requires Valid()
      modifies this`sessions, this`trace
      ensures Valid() && Own(trace, me) == Own(old(trace), me) + [Abort(me)] && old(trace) <= trace && Mine().Idle?
    {
      hide Feasible, RunTo, Own;
      Note(Abort(me), Now());
    }

    /** The upsert, executed or not. */
    method Write(e: Evaluation) returns (ok: bool, inserted: bool, ghost own: seq<Step>, ghost when: nat)
      requires Valid() && Free(Mine())
      modifies this
      ensures Valid() && old(trace) <= trace && Own(trace, me) == Own(old(trace), me) + own
      ensures ok ==>
        && own == [Upsert(me, e)] && Mine().Written? && Mine().e == e && Mine().mine.fingerprint == e.fingerprint
        && Mine().mine.status in {Firing, Acknowledged} && (inserted <==> Mine().mine.version == 1)
        && |old(trace)| <= when && Wrote(trace, when, me, e, inserted, Mine().mine)
      ensures !ok ==> Free(Mine()) && (own == [] || (own == [Upsert(me, e), Abort(me)] && !Reliable()))
    {
      hide Feasible, RunTo, Own, Accepts, Wrote;
      var fate := Arrive();
      when := |trace|;
      if fate == Lost || !Accepts(Contents(), e) {
        return false, false, [], when;
      }
      inserted := WriteRow(e);
      if fate == Unacked {
        GiveUp();
        return false, inserted, [Upsert(me, e), Abort(me)], when;
      }
      return true, inserted, [Upsert(me, e)], when;
    }

    /** SELECT ... WHERE fingerprint=$1 after the upsert. */
    method Reread(e: Evaluation) returns (updated: Option<Alert>, ghost own: seq<Step>)
      requires Valid() && Mine().Written? && Mine().e == e
      modifies this
      ensures Valid() && old(trace) <= trace && Own(trace, me) == Own(old(trace), me) + own
      ensures updated.Some? ==> own == [Reselect(me)] && Mine() == Selected(e, old(Mine().mine), updated.value)
      ensures updated.None? ==> own == [Abort(me)] && Mine().Idle? && !Reliable()
    {
      hide Feasible, RunTo, Own, TablesInv;
      var fate := Arrive();
      if fate != Fine {
        GiveUp();
        return None, [Abort(me)];
      }
      Reached(trace, Now());
      assert PhaseInv(Contents(), Mine());
      ReselectStep(Contents(), Mine());
      updated := Some(alerts[byFingerprint[e.fingerprint]]);
      Note(Reselect(me), Now());
      own := [Reselect(me)];
    }

    /** INSERT INTO alert_observations. */
    method Record(e: Evaluation, updated: Alert) returns (ok: bool, ghost own: seq<Step>)
      requires Valid() && Mine().Selected? && Mine().e == e && Mine().a == updated
      modifies this
      ensures Valid() && old(trace) <= trace && Own(trace, me) == Own(old(trace), me) + own
      ensures ok ==> own == [Observe(me)] && Mine() == Recorded(old(Mine().mine), updated)
      ensures !ok ==> own in {[Abort(me)], [Observe(me), Abort(me)]} && Mine().Idle? && !Reliable()
    {
      hide Feasible, RunTo, Own;
      var fate := Arrive();
      if fate == Lost {
        GiveUp();
        return false, [Abort(me)];
      }
      var before := Now();
      observations := observations + [Observation(updated.id, e.value, e.at)];
      Note(Observe(me), before);
      if fate == Unacked {
        GiveUp();
        return false, [Observe(me), Abort(me)];
      }
      return true, [Observe(me)];
    }

    /** Upsert, re-select, record, and log a firing that looks new. `own` are the steps this session
        took; a call that fails after its upsert leaves the upsert in place. */
    method UpsertAlert(e: Evaluation)
      returns (r: Result<Alert>, inserted: bool, ghost own: seq<Step>, ghost when: nat)
      requires Valid() && Free(Mine())
      modifies this
      ensures Valid() && Free(Mine()) && old(trace) <= trace && Own(trace, me) == Own(old(trace), me) + own
      ensures r.Ok? ==>
        && Mine().Answered? && Mine().got == r.value && Mine().mine.fingerprint == e.fingerprint
        && Mine().mine.status in {Firing, Acknowledged}
        && (inserted <==> Mine().mine.version == 1)
        && |old(trace)| <= when && Wrote(trace, when, me, e, inserted, Mine().mine)
        && (own == [Upsert(me, e), Reselect(me), Observe(me), LogFiring(me)]
            || (own == [Upsert(me, e), Reselect(me), Observe(me), SkipFiring(me)] && LooksNew(r.value) && !Reliable()))
      ensures r.Err? ==> own == [] || (GaveUp(own, me) && own[0] == Upsert(me, e) && OneUpsert(own) && !Reliable())
    {
      hide Feasible, RunTo, Own, LooksNew, Wrote;
      var ok;
      ok, inserted, own, when := Write(e);
      if !ok {
        return Err(Storage), inserted, own, when;
      }
      ghost var more, wrote: seq<Step> := [], trace;
      r, more := AfterWrite(e);
      if r.Ok? {
        WroteForGood(wrote, trace, when, me, e, inserted, Mine().mine);
      }
      own := own + more;
      assert r.Ok? ==> own == [Upsert(me, e), Reselect(me), Observe(me), more[2]];
    }

    /** The rest of UpsertAlert. */
    method AfterWrite(e: Evaluation) returns (r: Result<Alert>, ghost own: seq<Step>)
      requires Valid() && Mine().Written? && Mine().e == e
      modifies this
      ensures Valid() && Free(Mine()) && old(trace) <= trace && Own(trace, me) == Own(old(trace), me) + own
        && NoUpsert(own)
      ensures r.Ok? ==>
        && Mine() == Answered(old(Mine().mine), r.value)
        && (own == [Reselect(me), Observe(me), LogFiring(me)]
            || (own == [Reselect(me), Observe(me), SkipFiring(me)] && LooksNew(r.value) && !Reliable()))
      ensures r.Err? ==> r == Err(Storage) && GaveUp(own, me) && !Reliable()
    {
      hide Feasible, RunTo, Own, LooksNew;
      var updated;
      updated, own := Reread(e);
      if updated.None? {
        return Err(Storage), own;
      }
      var ok;
      ghost var more: seq<Step>;
      ok, more := Record(e, updated.value);
      own := own + more;
      if !ok {
        return Err(Storage), own;
      }
      ghost var last;
      last := LogIfNew(updated.value);
      own := own + [last];
      assert own == [Reselect(me), Observe(me), last];
      return Ok(updated.value), own;
    }

    /** The firing row, whose error goes unnoticed. */
    method LogIfNew(updated: Alert) returns (ghost last: Step)
      requires Valid() && Mine().Recorded? && Mine().a == updated
      modifies this
      ensures Valid() && Own(trace, me) == Own(old(trace), me) + [last] && old(trace) <= trace
      ensures Mine() == Answered(old(Mine().mine), updated)
      ensures last == LogFiring(me) || (last == SkipFiring(me) && LooksNew(updated) && !Reliable())
    {
      hide Feasible, RunTo, Own;
      if updated.status == Pending || (updated.status == Firing && updated.firedCount == 1) {
        var fate := Arrive();
        if fate == Lost {
          Note(SkipFiring(me), Now());
          return SkipFiring(me);
        }
        var before := Now();
        log := log + [AlertTable.Transition(updated.id, Pending, Firing)];
        Note(LogFiring(me), before);
      } else {
        Note(LogFiring(me), Now());
      }
      last := LogFiring(me);
    }

    method GetAlert(tenant: string, id: string) returns (r: Result<Alert>)
      requires Valid()
      modifies this
      ensures Valid() && old(trace) <= trace && Own(trace, me) == Own(old(trace), me) && Mine() == old(Mine())
      ensures fate(old(statements)) != Fine ==> r == Err(Storage)
      ensures fate(old(statements)) == Fine ==>
        r == if id in alerts && alerts[id].tenant == tenant then Ok(alerts[id]) else Err(NotFound)
      ensures r.Err? && r.error == NotFound ==> id !in alerts || alerts[id].tenant != tenant
    {
      hide Feasible, RunTo, Own;
      var fate := Arrive();
      if fate != Fine {
        return Err(Storage);
      }
      if id !in alerts || alerts[id].tenant != tenant {
        return Err(NotFound);
      }
      return Ok(alerts[id]);
    }

    /** The compare-and-set on the status, then its log row, for the session that has just read
        `from`. */
    method Transition(id: string, from: Status, to: Status, at: int, ghost read: Alert)
      returns (r: Result<()>, ghost own: seq<Step>)
      requires Valid() && read.id == id && read.status == from
      requires if ValidTransition(from, to) then Mine() == Chosen(read, to) else Free(Mine())
      modifies this
      ensures Valid() && old(trace) <= trace && Own(trace, me) == Own(old(trace), me) + own
      ensures r.Ok? ==> own == [CompareAndSet(me, at), LogMove(me)] && Mine().Noted? && Mine().mine.id == id
                        && Mine().mine.status == to && Mine().mine.tenant == read.tenant
      ensures r.Err? ==> Free(Mine())
      ensures r == Err(Invalid) <==> !ValidTransition(from, to)
      ensures r == Err(Invalid) ==> own == []
      ensures r == Err(Conflict) ==> own == [CompareAndSet(me, at)]
      ensures r == Err(Storage) ==> GaveUp(own, me) && !Reliable()
      ensures r != Err(NotFound) && NoUpsert(own)
      ensures r != Err(Invalid) ==> SetFirst(own, me, at, r.Err? && r.error == Storage)
      ensures r.Ok? ==> MovedTo(Mine().mine, to, at)
    {
      hide Feasible, RunTo, Own, ValidTransition, MovedTo;
      if !ValidTransition(from, to) {
        return Err(Invalid), [];
      }
      r, own := Swap(id, from, to, at, read);
      if r.Err? {
        return;
      }
      var logged, more := LogChange(id, from, to);
      own := own + more;
      if !logged {
        r := Err(Storage);
      }
    }

    /** The compare-and-set, executed or not. */
    method Swap(id: string, from: Status, to: Status, at: int, ghost read: Alert)
      returns (r: Result<()>, ghost own: seq<Step>)
      requires Valid() && read.id == id && read.status == from && Mine() == Chosen(read, to)
      modifies this
      ensures Valid() && old(trace) <= trace && Own(trace, me) == Own(old(trace), me) + own && NoUpsert(own)
      ensures r.Ok? ==>
        && own == [CompareAndSet(me, at)] && Mine().Won? && Mine().row == AlertTable.Transition(id, from, to)
        && Mine().mine.id == id && Mine().mine.status == to && Mine().mine.tenant == read.tenant
      ensures r.Err? ==> Mine().Idle? && r.error in {Conflict, Storage}
      ensures r == Err(Conflict) ==> own == [CompareAndSet(me, at)]
      ensures r == Err(Storage) ==> GaveUp(own, me) && !Reliable()
      ensures SetFirst(own, me, at, r.Err? && r.error == Storage)
      ensures r.Ok? ==> MovedTo(Mine().mine, to, at)
    {
      hide Feasible, RunTo, Own, MovedTo;
      var fate := Arrive();
      if fate == Lost {
        GiveUp();
        return Err(Storage), [Abort(me)];
      }
      var won := SetStatus(id, from, to, at, read);
      if fate == Unacked {
        GiveUp();
        return Err(Storage), [CompareAndSet(me, at), Abort(me)];
      }
      return if won then Ok(()) else Err(Conflict), [CompareAndSet(me, at)];
    }

    /** insertTransition after a won compare-and-set. */
    method LogChange(id: string, from: Status, to: Status) returns (ok: bool, ghost own: seq<Step>)
      requires Valid() && Mine().Won? && Mine().row == AlertTable.Transition(id, from, to)
      modifies this
      ensures Valid() && old(trace) <= trace && Own(trace, me) == Own(old(trace), me) + own
      ensures ok ==> own == [LogMove(me)] && Mine() == Noted(old(Mine().mine))
      ensures !ok ==> own in {[Abort(me)], [LogMove(me), Abort(me)]} && Mine().Idle? && !Reliable()
    {
      hide Feasible, RunTo, Own;
      var fate := Arrive();
      if fate == Lost {
        GiveUp();
        return false, [Abort(me)];
      }
      var before := Now();
      log := log + [AlertTable.Transition(id, from, to)];
      Note(LogMove(me), before);
      if fate == Unacked {
        GiveUp();
        return false, [LogMove(me), Abort(me)];
      }
      return true, [LogMove(me)];
    }

    /** UPDATE alerts SET status=$3, ... WHERE id=$1 AND status=$2. */
    method SetStatus(id: string, from: Status, to: Status, at: int, ghost read: Alert) returns (won: bool)
      requires Valid() && Mine() == Chosen(read, to) && read.id == id && read.status == from
      modifies this`alerts, this`sessions, this`trace
      ensures Valid() && Own(trace, me) == Own(old(trace), me) + [CompareAndSet(me, at)] && old(trace) <= trace
      ensures won <==> id in old(alerts) && old(alerts)[id].status == from
      ensures won ==>
        && Mine().Won? && Mine().row == AlertTable.Transition(id, from, to) && Mine().mine.id == id
        && Mine().mine.status == to && Mine().mine.tenant == read.tenant && id in alerts && alerts[id] == Mine().mine
      ensures won ==> MovedTo(Mine().mine, to, at)
      ensures !won ==> Mine().Idle? && alerts == old(alerts)
    {
      hide Feasible, RunTo, Own, TablesInv, RowInv, NewOnce, MovedTo;
      Reached(trace, Now());
      assert PhaseInv(Contents(), Mine());
      var before := Now();
      won := id in alerts && alerts[id].status == from;
      if won {
        SeenNow(Contents(), id);
        MovedNow(alerts[id], to, at);
        var row := alerts[id].(status := to, updatedAt := at, version := alerts[id].version + 1);
        match to {
          case Pending =>
          case Firing => row := row.(resolvedAt := None);
          case Resolved => row := row.(resolvedAt := Some(at));
          case Acknowledged => row := row.(acknowledgedAt := Some(at));
          case Silenced => row := row.(silencedAt := Some(at));
        }
        alerts := alerts[id := row];
      }
      Note(CompareAndSet(me, at), before);
    }
  }

  // ---------------------------------------------------------------- the service

  class Service {
    const repo: PGRepository

    constructor (repo: PGRepository)
      ensures this.repo == repo
    {
      this.repo := repo;
    }

    /** One evaluation. `mine` is the alert as the call's own upsert, the step `when` of the run, left
        it: firing or acknowledged, with the value, message and time of the evaluation. It was
        created if no alert had its fingerprint before. The row returned is that one or, if other
        sessions came in between, a later state of it. */
    method ApplyEvaluation(freshID: string, key: AlertKey, value: real, message: string, at: int)
      returns (r: Result<Alert>, created: bool, ghost mine: Option<Alert>, ghost own: seq<Step>, ghost when: nat)
      requires repo.Valid() && Free(repo.Mine())
      modifies repo
      ensures repo.Valid() && Free(repo.Mine()) && old(repo.trace) <= repo.trace
      ensures r.Ok? ==>
        && |old(repo.trace)| <= when < |repo.trace| && own != [] && repo.trace[when] == own[0]
        && (created <==> forall id :: id in TablesAt(repo.trace, when).alerts ==>
                           TablesAt(repo.trace, when).alerts[id].fingerprint != FingerprintOfKey(key))
        && mine.Some? && mine.value.id in TablesAt(repo.trace, when + 1).alerts
        && TablesAt(repo.trace, when + 1).alerts[mine.value.id] == mine.value
        && mine.value.value == value && mine.value.message == message
        && mine.value.lastFiredAt == at && mine.value.updatedAt == at
        && (created ==>
              && mine.value.id == freshID && mine.value.key == key && mine.value.startedAt == at
              && mine.value.tenant == if key.tenant == "" then "default" else key.tenant)
      ensures Own(repo.trace, repo.me) == Own(old(repo.trace), repo.me) + own
      ensures r.Ok? ==>
        && mine.Some? && repo.Mine() == Answered(mine.value, r.value) && Follows(mine.value, r.value)
        && mine.value.fingerprint == FingerprintOfKey(key) && mine.value.status in {Firing, Acknowledged}
        && (created <==> mine.value.version == 1)
        && r.value.id in repo.alerts && Follows(r.value, repo.alerts[r.value.id])
      ensures OneUpsert(own) || own == []
      ensures own != [] ==>
        && own[0].Upsert? && own[0].w == repo.me
        && own[0].e == Evaluation(freshID, if key.tenant == "" then "default" else key.tenant,
                                  FingerprintOfKey(key), key, value, message, at)
      ensures r.Ok? ==> OneUpsert(own) && Wrote(repo.trace, when, repo.me, own[0].e, created, mine.value)
      ensures r.Err? && repo.Reliable() ==> own == []
    {
      hide Feasible, RunTo, Own, Follows, LooksNew, TablesAt;
      var fingerprint := FingerprintOf(key.ruleID, key.tenant, key.scope, key.labels, []);
      var tenant := if key.tenant == "" then "default" else key.tenant;
      var e := Evaluation(freshID, tenant, fingerprint, key, value, message, at);
      mine := None;
      r, created, own, when := repo.UpsertAlert(e);
      if r.Ok? {
        AnswerIsSeen(repo.trace, repo.Now(), repo.me);
        mine := Some(repo.Mine().mine);
      }
    }

    /** An operator's call. When it succeeds, its own compare-and-set made the alert reach the goal,
        or it was there when read (`mine`); the row it returns is that one or, if other sessions
        came in between, a later state of it. */
    method Operate(tenant: string, id: string, goal: Status, now: int)
      returns (r: Result<Alert>, ghost mine: Option<Alert>, ghost own: seq<Step>, ghost seen: nat)
      requires repo.Valid() && Free(repo.Mine()) && goal in GOALS
      modifies repo
      ensures Operated(old(repo.trace), repo.trace, repo.me, repo.Now(), tenant, id, goal, now, seen, r, mine, own)
      ensures repo.Valid() && old(repo.trace) <= repo.trace
      ensures r.Err? && r.error == Storage ==> !repo.Reliable()
    {
      hide Feasible, RunTo, Own, TablesInv, RowInv, NewOnce, Follows, ValidTransition, MovedTo, TablesAt,
           Decided, Reports, GaveUp, SetFirst, PhaseInv, Operated;
      mine := None;
      var alert;
      alert, own, seen := Choose(tenant, id, goal);
      ghost var chosen: seq<Step> := repo.trace;
      ghost var rows := if own == [] then map[] else TablesAt(chosen, seen).alerts;
      if alert.Err? || alert.value.status == goal {
        r := alert;
        mine := if r.Ok? then Some(r.value) else None;
        ReadDecides(rows, repo.me, tenant, id, goal, now, r, own);
        ReadReports(repo.me, repo.Mine(), tenant, id, goal, now, r, mine, own);
        IsOperated(old(repo.trace), repo.trace, repo.me, repo.Now(), tenant, id, goal, now, seen, r, mine, own);
        return;
      }
      ghost var more: seq<Step>;
      r, mine, more := Carry(alert.value, goal, now);
      SameTables(chosen, repo.trace, seen);
      StatusDecides(rows, repo.me, tenant, id, goal, now, r, more);
      CarryReports(repo.me, repo.Mine(), tenant, id, goal, now, r, mine, more);
      own := own + more;
      IsOperated(old(repo.trace), repo.trace, repo.me, repo.Now(), tenant, id, goal, now, seen, r, mine, own);
    }

    /** The first GetAlert of an operator's call. */
    method Choose(tenant: string, id: string, goal: Status)
      returns (r: Result<Alert>, ghost own: seq<Step>, ghost seen: nat)
      requires repo.Valid() && Free(repo.Mine()) && goal in GOALS
      modifies repo
      ensures repo.Valid() && old(repo.trace) <= repo.trace
      ensures Own(repo.trace, repo.me) == Own(old(repo.trace), repo.me) + own
      ensures r.Err? ==> Free(repo.Mine()) && r.error in {NotFound, Storage}
      ensures r == Err(Storage) ==> own == [] && !repo.Reliable()
      ensures r != Err(Storage) ==>
        && own == [Read(repo.me, tenant, id, goal)]
        && |old(repo.trace)| <= seen < |repo.trace| && repo.trace[seen] == own[0]
        && var rows := TablesAt(repo.trace, seen).alerts;
        && r == (if id in rows && rows[id].tenant == tenant then Ok(rows[id]) else Err(NotFound))
        && (r.Ok? ==> r.value.status != Pending)
      ensures r.Ok? ==>
        && r.value.id == id && r.value.tenant == tenant
        && repo.Mine() == if r.value.status == goal then Answered(r.value, r.value)
                          else if ValidTransition(r.value.status, goal) then Chosen(r.value, goal) else Idle
    {
      hide Feasible, RunTo, Own, TablesInv, RowInv, NewOnce, ValidTransition;
      r := repo.GetAlert(tenant, id);
      own, seen := [], |repo.trace|;
      if r.Err? && r.error != NotFound {
        return;
      }
      Reached(repo.trace, repo.Now());
      if r.Ok? {
        SeenNow(repo.Contents(), id);
        NotPending(repo.Contents(), id);
      }
      ghost var before := repo.trace;
      repo.Note(Read(repo.me, tenant, id, goal), repo.Now());
      own := [Read(repo.me, tenant, id, goal)];
      assert repo.trace[..seen] == before;
    }

    /** From the first read of an operator's call to the second. */
    method Carry(alert: Alert, goal: Status, now: int)
      returns (r: Result<Alert>, ghost mine: Option<Alert>, ghost own: seq<Step>)
      requires repo.Valid()
      requires if ValidTransition(alert.status, goal) then repo.Mine() == Chosen(alert, goal) else Free(repo.Mine())
      modifies repo
      ensures repo.Valid() && old(repo.trace) <= repo.trace && Free(repo.Mine())
      ensures Own(repo.trace, repo.me) == Own(old(repo.trace), repo.me) + own && NoUpsert(own)
      ensures r.Ok? ==>
        && own == [CompareAndSet(repo.me, now), LogMove(repo.me), ReadBack(repo.me)]
        && mine.Some? && mine.value.id == alert.id && mine.value.status == goal && Follows(mine.value, r.value)
        && repo.Mine() == Answered(mine.value, r.value) && MovedTo(mine.value, goal, now)
      ensures r == Err(Invalid) <==> !ValidTransition(alert.status, goal)
      ensures r == Err(Invalid) ==> own == []
      ensures r != Err(Invalid) ==> SetFirst(own, repo.me, now, r.Err? && r.error == Storage)
      ensures r == Err(Conflict) ==> own == [CompareAndSet(repo.me, now)]
      ensures r == Err(Storage) ==> GaveUp(own, repo.me) && !repo.Reliable()
      ensures r != Err(NotFound)
    {
      hide Feasible, RunTo, Own, ValidTransition, Follows, MovedTo;
      mine := None;
      var moved;
      moved, own := repo.Transition(alert.id, alert.status, goal, now, alert);
      if moved.Err? {
        return Err(moved.error), mine, own;
      }
      mine := Some(repo.Mine().mine);
      ghost var more: seq<Step>;
      r, more := ReadAgain(alert.tenant, alert.id, mine.value);
      own := own + more;
    }

    /** The second GetAlert of an operator's call. */
    method ReadAgain(tenant: string, id: string, ghost mine: Alert) returns (r: Result<Alert>, ghost own: seq<Step>)
      requires repo.Valid() && repo.Mine() == Noted(mine) && mine.id == id && mine.tenant == tenant
      modifies repo
      ensures repo.Valid() && old(repo.trace) <= repo.trace
      ensures Own(repo.trace, repo.me) == Own(old(repo.trace), repo.me) + own
      ensures r.Ok? ==> own == [ReadBack(repo.me)] && repo.Mine() == Answered(mine, r.value) && Follows(mine, r.value)
      ensures r.Err? ==> r.error == Storage && own == [Abort(repo.me)] && repo.Mine().Idle? && !repo.Reliable()
    {
      hide Feasible, RunTo, Own, TablesInv, RowInv, NewOnce;
      r := repo.GetAlert(tenant, id);
      Reached(repo.trace, repo.Now());
      assert PhaseInv(repo.Contents(), repo.Mine());
      if r.Err? {
        repo.GiveUp();
        own := [Abort(repo.me)];
      } else {
        repo.Note(ReadBack(repo.me), repo.Now());
        own := [ReadBack(repo.me)];
      }
    }

    method Resolve(tenant: string, id: string, now: int)
      returns (r: Result<Alert>, ghost mine: Option<Alert>, ghost own: seq<Step>, ghost seen: nat)
      requires repo.Valid() && Free(repo.Mine())
      modifies repo
      ensures Operated(old(repo.trace), repo.trace, repo.me, repo.Now(), tenant, id, Resolved, now, seen, r, mine, own)
      ensures repo.Valid() && old(repo.trace) <= repo.trace
      ensures r.Err? && r.error == Storage ==> !repo.Reliable()
    {
      hide Operated;
      r, mine, own, seen := Operate(tenant, id, Resolved, now);
    }

    method Acknowledge(tenant: string, id: string, now: int)
      returns (r: Result<Alert>, ghost mine: Option<Alert>, ghost own: seq<Step>, ghost seen: nat)
      requires repo.Valid() && Free(repo.Mine())
      modifies repo
      ensures Operated(old(repo.trace), repo.trace, repo.me, repo.Now(), tenant, id, Acknowledged, now, seen, r, mine,
                       own)
      ensures repo.Valid() && old(repo.trace) <= repo.trace
      ensures r.Err? && r.error == Storage ==> !repo.Reliable()
    {
      hide Operated;
      r, mine, own, seen := Operate(tenant, id, Acknowledged, now);
    }

    method Silence(tenant: string, id: string, now: int)
      returns (r: Result<Alert>, ghost mine: Option<Alert>, ghost own: seq<Step>, ghost seen: nat)
      requires repo.Valid() && Free(repo.Mine())
      modifies repo
      ensures Operated(old(repo.trace), repo.trace, repo.me, repo.Now(), tenant, id, Silenced, now, seen, r, mine, own)
      ensures repo.Valid() && old(repo.trace) <= repo.trace
      ensures r.Err? && r.error == Storage ==> !repo.Reliable()
    {
      hide Operated;
      r, mine, own, seen := Operate(tenant, id, Silenced, now);
    }
  }

  lemma SameTables(trace: seq<Step>, trace': seq<Step>, n: nat)
    requires trace <= trace' && n <= |trace|
    ensures TablesAt(trace', n) == TablesAt(trace, n)
  {
    assert trace'[..n] == trace[..n];
  }

  /** What an operator's call promises, other sessions or not. The row that its own read, the step
      `seen` of the run, met decides: without one the call answers NotFound; with the goal reached
      it returns that row; a resolved one it refuses; and with any other it goes on to the
      compare-and-set. On success it returns a row that follows the one with which its own session
      saw the goal reached, and differs from it only when its version does. */
  ghost predicate Operated(trace: seq<Step>, trace': seq<Step>, me: string, now: State, tenant: string, id: string,
                           goal: Status, at: int, seen: nat, r: Result<Alert>, mine: Option<Alert>, own: seq<Step>) {
    && Free(PhaseOf(now, me)) && Own(trace', me) == Own(trace, me) + own && NoUpsert(own)
    && (own == [] ==> r == Err(Storage))
    && (own != [] ==>
          && |trace| <= seen < |trace'| && trace'[seen] == own[0] == Read(me, tenant, id, goal)
          && Decided(TablesAt(trace', seen).alerts, me, tenant, id, goal, at, r, own))
    && Reports(me, PhaseOf(now, me), tenant, id, goal, at, r, mine, own)
  }

  lemma IsOperated(trace: seq<Step>, trace': seq<Step>, me: string, now: State, tenant: string, id: string,
                   goal: Status, at: int, seen: nat, r: Result<Alert>, mine: Option<Alert>, own: seq<Step>)
    requires Free(PhaseOf(now, me)) && Own(trace', me) == Own(trace, me) + own && NoUpsert(own)
    requires if own == [] then r == Err(Storage) else
      && |trace| <= seen < |trace'| && trace'[seen] == own[0] == Read(me, tenant, id, goal)
      && Decided(TablesAt(trace', seen).alerts, me, tenant, id, goal, at, r, own)
    requires Reports(me, PhaseOf(now, me), tenant, id, goal, at, r, mine, own)
    ensures Operated(trace, trace', me, now, tenant, id, goal, at, seen, r, mine, own)
  {
  }

  /** `rows` are the alerts that the first read met. */
  predicate Decided(rows: map<string, Alert>, me: string, tenant: string, id: string, goal: Status, at: int,
                    r: Result<Alert>, own: seq<Step>) {
    && (r == Err(NotFound) <==> id !in rows || rows[id].tenant != tenant)
    && (r == Err(Invalid) <==>
          id in rows && rows[id].tenant == tenant && rows[id].status == Resolved && goal != Resolved)
    && (id in rows && rows[id].tenant == tenant ==>
          && (rows[id].status == goal ==> r == Ok(rows[id]) && own == [Read(me, tenant, id, goal)])
          && (rows[id].status != goal && rows[id].status in {Firing, Acknowledged, Silenced} ==>
                && |own| >= 2
                && (own[1] == CompareAndSet(me, at) || (own[1] == Abort(me) && r == Err(Storage)))))
  }

  ghost predicate Reports(me: string, p: Phase, tenant: string, id: string, goal: Status, at: int, r: Result<Alert>,
                          mine: Option<Alert>, own: seq<Step>) {
    match r
    case Ok(got) =>
      && mine.Some? && mine.value.id == id && mine.value.status == goal && Follows(mine.value, got)
      && p == Answered(mine.value, got)
      && (own == [Read(me, tenant, id, goal)]
          || (own == [Read(me, tenant, id, goal), CompareAndSet(me, at), LogMove(me), ReadBack(me)]
              && MovedTo(mine.value, goal, at)))
    case Err(error) =>
      match error
      case NotFound => own == [Read(me, tenant, id, goal)]
      case Invalid => own == [Read(me, tenant, id, goal)]
      case Conflict => own == [Read(me, tenant, id, goal)] + [CompareAndSet(me, at)]
      case Storage => own == [] || GaveUp(own, me)
  }

  lemma ReadDecides(rows: map<string, Alert>, me: string, tenant: string, id: string, goal: Status, at: int,
                    r: Result<Alert>, own: seq<Step>)
    requires own != [] ==> own == [Read(me, tenant, id, goal)]
    requires own != [] ==> r == if id in rows && rows[id].tenant == tenant then Ok(rows[id]) else Err(NotFound)
    requires r.Ok? ==> r.value.status == goal
    ensures own != [] ==> Decided(rows, me, tenant, id, goal, at, r, own)
  {
  }

  lemma ReadReports(me: string, p: Phase, tenant: string, id: string, goal: Status, at: int, r: Result<Alert>,
                    mine: Option<Alert>, own: seq<Step>)
    requires own == [] || own == [Read(me, tenant, id, goal)]
    requires r.Err? ==> r.error in {NotFound, Storage} && (r.error == Storage <==> own == [])
    requires r.Ok? ==> own != [] && r.value.id == id && r.value.status == goal && p == Answered(r.value, r.value)
                       && mine == Some(r.value)
    ensures Reports(me, p, tenant, id, goal, at, r, mine, own)
  {
    if r.Ok? {
      FollowsSelf(r.value);
    }
  }

  lemma StatusDecides(rows: map<string, Alert>, me: string, tenant: string, id: string, goal: Status, at: int,
                      r: Result<Alert>, more: seq<Step>)
    requires id in rows && rows[id].tenant == tenant && rows[id].status !in {Pending, goal} && goal in GOALS
    requires r == Err(Invalid) <==> !ValidTransition(rows[id].status, goal)
    requires r != Err(NotFound) && (r != Err(Invalid) ==> SetFirst(more, me, at, r.Err? && r.error == Storage))
    ensures Decided(rows, me, tenant, id, goal, at, r, [Read(me, tenant, id, goal)] + more)
  {
    hide ValidTransition;
    OperatorEdges(rows[id].status, goal);
  }

  lemma CarryReports(me: string, p: Phase, tenant: string, id: string, goal: Status, at: int, r: Result<Alert>,
                     mine: Option<Alert>, more: seq<Step>)
    requires r.Ok? ==>
      && more == [CompareAndSet(me, at), LogMove(me), ReadBack(me)]
      && mine.Some? && mine.value.id == id && mine.value.status == goal && Follows(mine.value, r.value)
      && p == Answered(mine.value, r.value) && MovedTo(mine.value, goal, at)
    requires r == Err(Invalid) ==> more == []
    requires r == Err(Conflict) ==> more == [CompareAndSet(me, at)]
    requires r == Err(Storage) ==> GaveUp(more, me)
    requires r != Err(NotFound)
    ensures Reports(me, p, tenant, id, goal, at, r, mine, [Read(me, tenant, id, goal)] + more)
  {
    hide Follows, MovedTo;
    assert [Read(me, tenant, id, goal)] + [CompareAndSet(me, at), LogMove(me), ReadBack(me)]
        == [Read(me, tenant, id, goal), CompareAndSet(me, at), LogMove(me), ReadBack(me)];
  }

  ghost function FingerprintOfKey(key: AlertKey): string {
    Fingerprint(key.ruleID, key.tenant, key.scope, key.labels, [])
  }

  lemma VersionsCount(row: Alert)
    requires RowInv(row)
    ensures row.version >= 1
  {
  }
}
