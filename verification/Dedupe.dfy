/** The concurrent filter of the ingestion service: one goroutine per event over shared `seen`
    and `out`. */
module Dedupe {
  import opened Prelude
  import opened Events

  function KeySet(events: seq<Event>): set<string> {
    set i | 0 <= i < |events| :: events[i].dedupeKey
  }

  function Indices(n: nat): (s: set<nat>)
    ensures |s| == n && forall g :: g in s <==> 0 <= g < n
  {
    if n == 0 then {} else Indices(n - 1) + {n - 1}
  }

  predicate DistinctKeys(events: seq<Event>) {
    forall i, j :: 0 <= i < j < |events| ==> events[i].dedupeKey != events[j].dedupeKey
  }

  ghost predicate AllFrom(out: seq<Event>, events: seq<Event>) {
    forall i :: 0 <= i < |out| ==> out[i] in events
  }

  /** Missing from the stored keys at one of the first n moments. */
  ghost predicate MissedBefore(storedAt: nat -> set<string>, k: string, n: nat) {
    exists t: nat :: t < n && k !in storedAt(t)
  }

  ghost predicate FoundBefore(storedAt: nat -> set<string>, k: string, n: nat) {
    exists t: nat :: t < n && k in storedAt(t)
  }

  /** The goroutines by where they are, and what they share. A goroutine is `ready` before its
      first look at `seen`, `asking` before its query, `inserting` before its second look, and
      finished otherwise. */
  datatype Flight = Flight(ready: set<nat>, asking: set<nat>, inserting: set<nat>, seen: set<string>, out: seq<Event>,
                              failed: bool) {
    function Unfinished(): set<nat> { ready + asking + inserting }

    /** How many moves are left at most. */
    function Left(): nat { 3 * |ready| + 2 * |asking| + |inserting| }
  }

  /** One goroutine's next move: the two looks hold the mutex, so each is atomic. `stored` are the
      keys a query made now finds, `fails` whether it errors. */
  function Move(events: seq<Event>, fl: Flight, g: nat, stored: set<string>, fails: bool): Flight
    requires g < |events|
  {
    var k := events[g].dedupeKey;
    if g in fl.ready then
      fl.(ready := fl.ready - {g}, asking := if k in fl.seen then fl.asking else fl.asking + {g})
    else if g in fl.asking then
      fl.(asking := fl.asking - {g},
          failed := fl.failed || fails,
          inserting := if fails || k in stored then fl.inserting else fl.inserting + {g})
    else
      fl.(inserting := fl.inserting - {g},
          seen := fl.seen + {k},
          out := if k in fl.seen then fl.out else fl.out + [events[g]])
  }

  /** Every goroutine is in one place only, and there are n of them at most. */
  ghost predicate Tidy(fl: Flight, n: nat) {
    && (forall g :: g in fl.Unfinished() ==> g < n)
    && (fl.ready !! fl.asking !! fl.inserting)
  }

  ghost predicate Shape(events: seq<Event>, fl: Flight) {
    && Tidy(fl, |events|)
    && fl.seen == KeySet(fl.out)
    && DistinctKeys(fl.out)
    && AllFrom(fl.out, events)
  }

  ghost predicate Accounted(events: seq<Event>, storedAt: nat -> set<string>, fl: Flight, moves: nat) {
    && (forall k :: k in fl.seen ==> MissedBefore(storedAt, k, moves))
    && (forall g :: g in fl.inserting && g < |events| ==> MissedBefore(storedAt, events[g].dedupeKey, moves))
    && (!fl.failed ==> forall g :: 0 <= g < |events| && g !in fl.Unfinished() ==>
          events[g].dedupeKey in fl.seen || FoundBefore(storedAt, events[g].dedupeKey, moves))
  }

  lemma OneLess(s: set<nat>, g: nat)
    requires g in s
    ensures |s - {g}| == |s| - 1
  {
    assert s == (s - {g}) + {g};
  }

  lemma OneMore(s: set<nat>, g: nat)
    ensures |s + {g}| <= |s| + 1
  {
    if g in s {
      assert s + {g} == s;
    }
  }

  lemma MoveIsProgress(events: seq<Event>, fl: Flight, g: nat, stored: set<string>, fails: bool)
    requires Tidy(fl, |events|) && g in fl.Unfinished()
    ensures Move(events, fl, g, stored, fails).Left() < fl.Left()
  {
    hide Tidy;
    if g in fl.ready {
      OneLess(fl.ready, g);
      OneMore(fl.asking, g);
    } else if g in fl.asking {
      OneLess(fl.asking, g);
      OneMore(fl.inserting, g);
    } else {
      OneLess(fl.inserting, g);
    }
  }

  lemma AppendKeepsDistinct(events: seq<Event>, out: seq<Event>, g: nat)
    requires g < |events| && DistinctKeys(out) && AllFrom(out, events) && events[g].dedupeKey !in KeySet(out)
    ensures DistinctKeys(out + [events[g]]) && AllFrom(out + [events[g]], events)
  {
    var longer := out + [events[g]];
    forall i, j | 0 <= i < j < |longer|
      ensures longer[i].dedupeKey != longer[j].dedupeKey
    {
      assert longer[i] == out[i] && out[i].dedupeKey in KeySet(out);
    }
  }

  lemma MoveKeepsShape(events: seq<Event>, fl: Flight, g: nat, stored: set<string>, fails: bool)
    requires Shape(events, fl) && g in fl.Unfinished()
    ensures Shape(events, Move(events, fl, g, stored, fails))
  {
    var k, fl' := events[g].dedupeKey, Move(events, fl, g, stored, fails);
    if g !in fl.ready && g !in fl.asking && k !in fl.seen {
      KeySetSnoc(fl.out, events[g]);
      AppendKeepsDistinct(events, fl.out, g);
    }
  }

  lemma MoveKeepsAccounts(events: seq<Event>, storedAt: nat -> set<string>, fl: Flight, moves: nat,
                             g: nat, fails: bool)
    requires Shape(events, fl) && Accounted(events, storedAt, fl, moves) && g in fl.Unfinished()
    ensures Accounted(events, storedAt, Move(events, fl, g, storedAt(moves), fails), moves + 1)
  {
    var k, fl' := events[g].dedupeKey, Move(events, fl, g, storedAt(moves), fails);
    assert forall x :: MissedBefore(storedAt, x, moves) ==> MissedBefore(storedAt, x, moves + 1);
    assert forall x :: FoundBefore(storedAt, x, moves) ==> FoundBefore(storedAt, x, moves + 1);
    if g in fl.asking {
      assert k in storedAt(moves) ==> FoundBefore(storedAt, k, moves + 1);
      assert k !in storedAt(moves) ==> MissedBefore(storedAt, k, moves + 1);
    }
    forall h | 0 <= h < |events| && h !in fl'.Unfinished() && !fl'.failed
      ensures events[h].dedupeKey in fl'.seen || FoundBefore(storedAt, events[h].dedupeKey, moves + 1)
    {
      if h != g {
        assert h !in fl.Unfinished();
      }
    }
  }

  /** What an error-free result promises: one event for each of its keys, each from the input; a
      key that is missing from the table throughout is among them, and a key among them was
      missing at some moment. */
  ghost predicate DedupeResult(events: seq<Event>, storedAt: nat -> set<string>, moves: nat, out: seq<Event>) {
    && DistinctKeys(out) && AllFrom(out, events)
    && (forall k :: k in KeySet(out) ==> MissedBefore(storedAt, k, moves))
    && (forall k :: k in KeySet(events) && k !in KeySet(out) ==> FoundBefore(storedAt, k, moves))
  }

  ghost predicate FlightInv(events: seq<Event>, storedAt: nat -> set<string>, failsAt: nat -> bool,
                               fl: Flight, moves: nat) {
    && Shape(events, fl)
    && Accounted(events, storedAt, fl, moves)
    && (fl.failed ==> exists n :: 0 <= n < moves && failsAt(n))
    && moves + fl.Left() <= 3 * |events|
  }

  lemma LandedResult(events: seq<Event>, storedAt: nat -> set<string>, failsAt: nat -> bool,
                        fl: Flight, moves: nat)
    requires FlightInv(events, storedAt, failsAt, fl, moves)
    requires fl.Unfinished() == {} && !fl.failed
    ensures DedupeResult(events, storedAt, moves, fl.out)
  {
    forall k | k in KeySet(events) && k !in KeySet(fl.out)
      ensures FoundBefore(storedAt, k, moves)
    {
      var g :| 0 <= g < |events| && events[g].dedupeKey == k;
      assert g !in fl.Unfinished();
    }
  }

  function Takeoff(n: nat): Flight {
    Flight(Indices(n), {}, {}, {}, [], false)
  }

  /** Where a schedule, the goroutines in the order of their moves, leads; None when it moves a
      goroutine that has finished. `storedAt(n)` are the keys a query finds at the n-th move, so
      other sessions may change the table meanwhile; `failsAt(n)` says whether it fails. */
  function Flown(events: seq<Event>, storedAt: nat -> set<string>, failsAt: nat -> bool,
                 schedule: seq<nat>): Option<Flight> {
    if schedule == [] then Some(Takeoff(|events|)) else
      var n := |schedule| - 1;
      match Flown(events, storedAt, failsAt, schedule[..n])
      case None => None
      case Some(fl) =>
        var g := schedule[n];
        if g < |events| && g in fl.Unfinished() then Some(Move(events, fl, g, storedAt(n), failsAt(n))) else None
  }

  lemma TakeoffInv(events: seq<Event>, storedAt: nat -> set<string>, failsAt: nat -> bool)
    ensures FlightInv(events, storedAt, failsAt, Takeoff(|events|), 0)
  {
    TakeoffIsTidy(|events|);
  }

  lemma MoveKeepsInv(events: seq<Event>, storedAt: nat -> set<string>, failsAt: nat -> bool,
                     fl: Flight, moves: nat, g: nat)
    requires FlightInv(events, storedAt, failsAt, fl, moves) && g in fl.Unfinished()
    ensures FlightInv(events, storedAt, failsAt, Move(events, fl, g, storedAt(moves), failsAt(moves)), moves + 1)
  {
    MoveIsProgress(events, fl, g, storedAt(moves), failsAt(moves));
    MoveKeepsShape(events, fl, g, storedAt(moves), failsAt(moves));
    MoveKeepsAccounts(events, storedAt, fl, moves, g, failsAt(moves));
  }

  lemma {:induction false} FlownKeepsInv(events: seq<Event>, storedAt: nat -> set<string>, failsAt: nat -> bool,
                                         schedule: seq<nat>)
    requires Flown(events, storedAt, failsAt, schedule).Some?
    ensures FlightInv(events, storedAt, failsAt, Flown(events, storedAt, failsAt, schedule).value, |schedule|)
  {
    hide FlightInv;
    if schedule != [] {
      var n := |schedule| - 1;
      FlownKeepsInv(events, storedAt, failsAt, schedule[..n]);
      MoveKeepsInv(events, storedAt, failsAt, Flown(events, storedAt, failsAt, schedule[..n]).value, n, schedule[n]);
    } else {
      TakeoffInv(events, storedAt, failsAt);
    }
  }

  lemma TakeoffIsTidy(n: nat)
    ensures Tidy(Takeoff(n), n)
  {
  }

  lemma MoveKeepsTidy(events: seq<Event>, fl: Flight, g: nat, stored: set<string>, fails: bool)
    requires Tidy(fl, |events|) && g in fl.Unfinished()
    ensures Tidy(Move(events, fl, g, stored, fails), |events|)
  {
  }

  lemma {:induction false} FlownIsTidy(events: seq<Event>, storedAt: nat -> set<string>, failsAt: nat -> bool,
                                       schedule: seq<nat>)
    requires Flown(events, storedAt, failsAt, schedule).Some?
    ensures Tidy(Flown(events, storedAt, failsAt, schedule).value, |events|)
  {
    hide Tidy;
    if schedule != [] {
      var n := |schedule| - 1;
      FlownIsTidy(events, storedAt, failsAt, schedule[..n]);
      MoveKeepsTidy(events, Flown(events, storedAt, failsAt, schedule[..n]).value, schedule[n], storedAt(n),
                    failsAt(n));
    } else {
      TakeoffIsTidy(|events|);
    }
  }

  /** Any unfinished goroutine may move next, and less is left to do afterwards. */
  lemma NextMove(events: seq<Event>, storedAt: nat -> set<string>, failsAt: nat -> bool, schedule: seq<nat>, g: nat)
    requires Flown(events, storedAt, failsAt, schedule).Some?
    requires g in Flown(events, storedAt, failsAt, schedule).value.Unfinished()
    ensures var fl, n := Flown(events, storedAt, failsAt, schedule).value, |schedule|;
      && g < |events|
      && Flown(events, storedAt, failsAt, schedule + [g]) == Some(Move(events, fl, g, storedAt(n), failsAt(n)))
      && Move(events, fl, g, storedAt(n), failsAt(n)).Left() < fl.Left()
  {
    FlownIsTidy(events, storedAt, failsAt, schedule);
    assert (schedule + [g])[..|schedule|] == schedule;
    MoveIsProgress(events, Flown(events, storedAt, failsAt, schedule).value, g, storedAt(|schedule|),
                   failsAt(|schedule|));
  }

  /** Every schedule is finite, three moves per event at most, and one that has run out without a
      query error holds the result. */
  lemma Landed(events: seq<Event>, storedAt: nat -> set<string>, failsAt: nat -> bool, schedule: seq<nat>)
    requires Flown(events, storedAt, failsAt, schedule).Some?
    ensures |schedule| <= 3 * |events|
    ensures var fl := Flown(events, storedAt, failsAt, schedule).value;
      && (fl.failed ==> exists n :: 0 <= n < |schedule| && failsAt(n))
      && (fl.Unfinished() == {} && !fl.failed ==> DedupeResult(events, storedAt, |schedule|, fl.out))
  {
    var fl := Flown(events, storedAt, failsAt, schedule).value;
    FlownKeepsInv(events, storedAt, failsAt, schedule);
    if fl.Unfinished() == {} && !fl.failed {
      LandedResult(events, storedAt, failsAt, fl, |schedule|);
    }
  }

  /** All goroutines, interleaved by the scheduler: any unfinished one may move next. */
  method Dedupe(events: seq<Event>, storedAt: nat -> set<string>, failsAt: nat -> bool)
    returns (r: Result<seq<Event>>, moves: nat)
    ensures r.Ok? ==> DedupeResult(events, storedAt, moves, r.value)
    ensures r.Err? ==> exists n :: 0 <= n < moves && failsAt(n)
    ensures moves <= 3 * |events|
  {
    var fl: Flight := Takeoff(|events|);
    moves := 0;
    ghost var schedule: seq<nat> := [];
    while fl.Unfinished() != {}
      invariant Flown(events, storedAt, failsAt, schedule) == Some(fl) && |schedule| == moves
      decreases fl.Left()
    {
      var unfinished := fl.Unfinished();
      var g :| g in unfinished;
      NextMove(events, storedAt, failsAt, schedule, g);
      fl := Move(events, fl, g, storedAt(moves), failsAt(moves));
      schedule := schedule + [g];
      moves := moves + 1;
    }
    Landed(events, storedAt, failsAt, schedule);
    return if fl.failed then Err(Storage) else Ok(fl.out), moves;
  }

  lemma KeySetSnoc(out: seq<Event>, e: Event)
    ensures KeySet(out + [e]) == KeySet(out) + {e.dedupeKey}
  {
    var longer := out + [e];
    assert longer[|out|] == e;
    forall k | k in KeySet(out)
      ensures k in KeySet(longer)
    {
      var i :| 0 <= i < |out| && out[i].dedupeKey == k;
      assert longer[i] == out[i];
    }
  }

  lemma {:induction false} DistinctKeysCount(out: seq<Event>)
    requires DistinctKeys(out)
    ensures |KeySet(out)| == |out|
  {
    if out != [] {
      var before, e := out[..|out| - 1], out[|out| - 1];
      DistinctKeysCount(before);
      assert out == before + [e];
      KeySetSnoc(before, e);
    }
  }

  /** While nobody else writes, every schedule keeps the same keys, those of the input that are
      not stored, and so returns the same number of events. */
  lemma StableTableGivesOneAnswer(events: seq<Event>, storedAt: nat -> set<string>, stored: set<string>,
                                     moves: nat, out: seq<Event>)
    requires DedupeResult(events, storedAt, moves, out)
    requires forall n: nat :: n < moves ==> storedAt(n) == stored
    ensures KeySet(out) == KeySet(events) - stored
    ensures |out| == |KeySet(events) - stored|
  {
    forall k | k in KeySet(out)
      ensures k in KeySet(events)
    {
      var i :| 0 <= i < |out| && out[i].dedupeKey == k;
      var j :| 0 <= j < |events| && events[j] == out[i];
      assert events[j].dedupeKey == k;
    }
    DistinctKeysCount(out);
  }
}
