/** Event ingestion: fill, validate, sample, dedupe, and one transactional insert into a table
    with a unique dedupe key. */
module Ingestion {
  import opened Prelude
  import opened Labels
  import opened Events
  import Keys
  import Dedupe

  datatype Batch = Batch(tenant: string, source: string, events: seq<Event>)

  // ---------------------------------------------------------------- one event

  function Fill(e: Event, freshID: string, now: int): Event {
    e.(id := if e.id == "" then freshID else e.id,
       tenant := if e.tenant == "" then "default" else e.tenant,
       occurredAt := if e.occurredAt.None? then Some(now) else e.occurredAt,
       receivedAt := if e.receivedAt.None? then Some(now) else e.receivedAt)
  }

  predicate Valid(e: Event) {
    && !Blank(e.source)
    && match e.kind
       case "metric" => e.number != 0.0 || e.text != ""
       case "log" => !Blank(e.text)
       case "check" => !Blank(e.text)
       case _ => false
  }

  /** shouldSample: keep the events of every second slot of length `every`. */
  predicate Sampled(at: int, every: nat) {
    every == 0 || Quot(at, every) % 2 == 0
  }

  ghost function KeyOf(e: Event): string {
    Keys.DedupeFingerprint(Keys.EventKey(e.tenant, e.source, e.kind, e.labels, e.text))
  }

  ghost function Keyed(e: Event): Event {
    e.(dedupeKey := KeyOf(e))
  }

  method DedupeFingerprint(e: Event) returns (key: string)
    ensures key == KeyOf(e)
    ensures key == e.tenant + "|" + (e.source + "|" + (e.kind + "|" + (Print(e.labels) + "|" + e.text)))
  {
    var labels := String(e.labels);
    key := Join([e.tenant, e.source, e.kind, labels, e.text], "|");
    Keys.JoinFive(e.tenant, e.source, e.kind, labels, e.text, "|");
  }

  /** What of an event its key is made of. */
  function Said(e: Event): (string, string, string, LabelMap, string) {
    (e.tenant, e.source, e.kind, e.labels, e.text)
  }

  /** The fields before the text keep clear of the separators of the key. */
  predicate Tellable(e: Event) {
    '|' !in e.tenant && '|' !in e.source && '|' !in e.kind && Keys.BarFree(e.labels) && Clean(e.labels)
  }

  /** Two events share a key exactly when they come from the same place and say the same: ids,
      numbers and times do not matter, and nothing else is left out. */
  lemma KeysTellEventsApart(a: Event, b: Event)
    requires Tellable(a) && Tellable(b)
    ensures KeyOf(a) == KeyOf(b) <==>
      a.tenant == b.tenant && a.source == b.source && a.kind == b.kind && a.labels == b.labels && a.text == b.text
  {
    Keys.DedupeRoundTrip(Keys.EventKey(a.tenant, a.source, a.kind, a.labels, a.text));
    Keys.DedupeRoundTrip(Keys.EventKey(b.tenant, b.source, b.kind, b.labels, b.text));
  }

  /** An event of a batch, before its dedupe key is set. */
  function Prepared(batch: Batch, e: Event, freshID: string, now: int): Event {
    Fill(e.(tenant := FirstNonEmpty([e.tenant, batch.tenant, "default"]),
            source := FirstNonEmpty([e.source, batch.source])), freshID, now)
  }

  predicate Accepted(e: Event, every: nat) {
    Valid(e) && e.occurredAt.Some? && Sampled(e.occurredAt.value, every)
  }

  /** The i-th event of the batch as it goes on to dedupe, if it does. */
  ghost function Chosen(batch: Batch, i: nat, ids: nat -> string, now: int, every: nat): Option<Event> {
    if i >= |batch.events| then None else
      var e := Prepared(batch, batch.events[i], ids(i), now);
      if Accepted(e, every) then Some(e.(dedupeKey := KeyOf(e))) else None
  }

  ghost function Collect(n: nat, choose: nat -> Option<Event>): seq<Event> {
    if n == 0 then [] else
      Collect(n - 1, choose) + if choose(n - 1).Some? then [choose(n - 1).value] else []
  }

  /** The events of a batch that go on to dedupe, in order. */
  ghost function Intake(batch: Batch, ids: nat -> string, now: int, every: nat): seq<Event> {
    Collect(|batch.events|, (i: nat) => Chosen(batch, i, ids, now, every))
  }

  method IntakeLoop(batch: Batch, ids: nat -> string, now: int, every: nat) returns (accepted: seq<Event>)
    ensures accepted == Intake(batch, ids, now, every)
  {
    accepted := [];
    ghost var choose := (i: nat) => Chosen(batch, i, ids, now, every);
    for i := 0 to |batch.events|
      invariant accepted == Collect(i, choose)
    {
      var evt := Prepared(batch, batch.events[i], ids(i), now);
      if !Valid(evt) {
        continue;
      }
      if Sampled(evt.occurredAt.value, every) {
        var key := DedupeFingerprint(evt);
        accepted := accepted + [evt.(dedupeKey := key)];
      }
    }
  }

  // ---------------------------------------------------------------- what the intake is

  /** Slots are counted from the epoch in both directions. */
  predicate EvenSlot(at: int, every: nat)
    requires every > 0
  {
    (if at >= 0 then at / every else (-at) / every) % 2 == 0
  }

  /** The event has a source, is of a known type, brings the number or text that the type asks for,
      and falls into an even slot of the sampler. */
  predicate Wanted(batch: Batch, e: Event, now: int, every: nat) {
    && !Blank(if e.source != "" then e.source else batch.source)
    && ((e.kind == "metric" && (e.number != 0.0 || e.text != "")) || (e.kind in {"log", "check"} && !Blank(e.text)))
    && (every == 0 || EvenSlot(if e.occurredAt.Some? then e.occurredAt.value else now, every))
  }

  /** `x` is the event as it is taken in: what it leaves open comes from the batch or the clock, the
      rest stays as it is. */
  predicate Completes(batch: Batch, e: Event, freshID: string, now: int, x: Event) {
    && x.tenant == (if e.tenant != "" then e.tenant else if batch.tenant != "" then batch.tenant else "default")
    && x.source == (if e.source != "" then e.source else batch.source)
    && x.kind == e.kind && x.labels == e.labels && x.number == e.number && x.text == e.text
    && x.id == (if e.id != "" then e.id else freshID)
    && x.occurredAt == Some(if e.occurredAt.Some? then e.occurredAt.value else now)
    && x.receivedAt == Some(if e.receivedAt.Some? then e.receivedAt.value else now)
  }

  lemma NamesOf(tenant: string, source: string, batch: Batch)
    ensures FirstNonEmpty([tenant, batch.tenant, "default"])
      == if tenant != "" then tenant else if batch.tenant != "" then batch.tenant else "default"
    ensures FirstNonEmpty([source, batch.source]) == if source != "" then source else batch.source
  {
    assert [tenant, batch.tenant, "default"][1..] == [batch.tenant, "default"];
    assert [batch.tenant, "default"][1..] == ["default"];
    assert FirstNonEmpty(["default"]) == "default";
    assert [source, batch.source][1..] == [batch.source] && [batch.source][1..] == [];
    assert FirstNonEmpty([batch.source]) == batch.source;
  }

  lemma ChosenMeans(batch: Batch, p: nat, ids: nat -> string, now: int, every: nat)
    requires p < |batch.events|
    ensures Chosen(batch, p, ids, now, every).Some? <==> Wanted(batch, batch.events[p], now, every)
    ensures Chosen(batch, p, ids, now, every).Some? ==>
      var x := Chosen(batch, p, ids, now, every).value;
      Completes(batch, batch.events[p], ids(p), now, x) && x.dedupeKey == KeyOf(x)
  {
    hide FirstNonEmpty, Blank, Keys.DedupeFingerprint;
    NamesOf(batch.events[p].tenant, batch.events[p].source, batch);
  }

  /** The places that a collection takes from, in order. */
  ghost function Picked(n: nat, choose: nat -> Option<Event>): seq<nat> {
    if n == 0 then [] else Picked(n - 1, choose) + if choose(n - 1).Some? then [n - 1] else []
  }

  lemma {:induction false} CollectPicks(n: nat, choose: nat -> Option<Event>)
    ensures |Picked(n, choose)| == |Collect(n, choose)|
    ensures forall p: nat :: p in Picked(n, choose) <==> p < n && choose(p).Some?
    ensures forall i, j :: 0 <= i < j < |Picked(n, choose)| ==> Picked(n, choose)[i] < Picked(n, choose)[j]
    ensures forall i :: 0 <= i < |Picked(n, choose)| ==>
      choose(Picked(n, choose)[i]) == Some(Collect(n, choose)[i])
  {
    if n > 0 {
      CollectPicks(n - 1, choose);
      var before := Picked(n - 1, choose);
      forall i | 0 <= i < |before|
        ensures before[i] < n - 1
      {
        assert before[i] in before;
      }
    }
  }

  /** The intake of a batch, in order, with the places `from` which the events come. */
  lemma IntakeMeans(batch: Batch, ids: nat -> string, now: int, every: nat) returns (from: seq<nat>)
    ensures |from| == |Intake(batch, ids, now, every)|
    ensures forall i, j :: 0 <= i < j < |from| ==> from[i] < from[j]
    ensures forall p: nat :: p in from <==> p < |batch.events| && Wanted(batch, batch.events[p], now, every)
    ensures forall i :: 0 <= i < |from| ==>
      var x := Intake(batch, ids, now, every)[i];
      && from[i] < |batch.events| && Completes(batch, batch.events[from[i]], ids(from[i]), now, x)
      && x.dedupeKey == KeyOf(x)
  {
    hide Chosen, Wanted, Completes, KeyOf;
    var choose := (i: nat) => Chosen(batch, i, ids, now, every);
    CollectPicks(|batch.events|, choose);
    from := Picked(|batch.events|, choose);
    forall p: nat | p < |batch.events|
      ensures choose(p).Some? <==> Wanted(batch, batch.events[p], now, every)
    {
      ChosenMeans(batch, p, ids, now, every);
    }
    forall i | 0 <= i < |from|
      ensures from[i] < |batch.events|
      ensures var x := Intake(batch, ids, now, every)[i];
        Completes(batch, batch.events[from[i]], ids(from[i]), now, x) && x.dedupeKey == KeyOf(x)
    {
      assert from[i] in from;
      ChosenMeans(batch, from[i], ids, now, every);
    }
  }

  // ---------------------------------------------------------------- the table

  predicate HasKey(rows: seq<Event>, k: string) {
    exists i :: 0 <= i < |rows| && rows[i].dedupeKey == k
  }

  predicate HasID(rows: seq<Event>, id: string) {
    exists i :: 0 <= i < |rows| && rows[i].id == id
  }

  /** UNIQUE (dedupe_key) and the primary key. */
  predicate Unique(rows: seq<Event>) {
    forall i, j :: 0 <= i < j < |rows| ==> rows[i].dedupeKey != rows[j].dedupeKey && rows[i].id != rows[j].id
  }

  /** INSERT ... ON CONFLICT (dedupe_key) DO NOTHING: a known key is skipped, a new key under a
      known id is an error. */
  function InsertRow(rows: seq<Event>, e: Event): Result<seq<Event>> {
    if HasKey(rows, e.dedupeKey) then Ok(rows)
    else if HasID(rows, e.id) then Err(Storage)
    else Ok(rows + [e])
  }

  function InsertAll(rows: seq<Event>, events: seq<Event>): Result<seq<Event>> {
    if events == [] then Ok(rows) else
      match InsertAll(rows, events[..|events| - 1])
      case Err(x) => Err(x)
      case Ok(mid) => InsertRow(mid, events[|events| - 1])
  }

  /** What a successful insert does: the old rows stay in place, the new ones come from the
      events, the keys are exactly the union, and no key or id is doubled. */
  lemma {:induction false} InsertAllMeaning(rows: seq<Event>, events: seq<Event>)
    requires Unique(rows) && InsertAll(rows, events).Ok?
    ensures var rows' := InsertAll(rows, events).value;
      && Unique(rows')
      && rows <= rows'
      && (forall i :: |rows| <= i < |rows'| ==> rows'[i] in events)
      && (forall k :: HasKey(rows', k) <==> HasKey(rows, k) || HasKey(events, k))
      && |rows'| <= |rows| + |events|
  {
    if events != [] {
      var before, e := events[..|events| - 1], events[|events| - 1];
      assert events == before + [e];
      InsertAllMeaning(rows, before);
      var mid := InsertAll(rows, before).value;
      InsertRowMeaning(mid, e);
      var rows' := InsertAll(rows, events).value;
      forall k
        ensures HasKey(rows', k) <==> HasKey(rows, k) || HasKey(events, k)
      {
        assert HasKey(events, k) <==> HasKey(before, k) || e.dedupeKey == k by {
          assert events[|before|] == e;
          assert forall i :: 0 <= i < |before| ==> events[i] == before[i];
        }
      }
    }
  }

  lemma InsertRowMeaning(rows: seq<Event>, e: Event)
    requires Unique(rows) && InsertRow(rows, e).Ok?
    ensures var rows' := InsertRow(rows, e).value;
      && Unique(rows') && rows <= rows' <= rows + [e]
      && (forall k :: HasKey(rows', k) <==> HasKey(rows, k) || e.dedupeKey == k)
  {
    var rows' := InsertRow(rows, e).value;
    if !HasKey(rows, e.dedupeKey) {
      assert rows'[|rows|] == e;
      forall k
        ensures HasKey(rows', k) <==> HasKey(rows, k) || e.dedupeKey == k
      {
        assert forall i :: 0 <= i < |rows| ==> rows'[i] == rows[i];
      }
    }
  }

  /** Replaying known keys is a no-op, ids or no ids. */
  lemma {:induction false} InsertKnownKeys(rows: seq<Event>, events: seq<Event>)
    requires forall i :: 0 <= i < |events| ==> HasKey(rows, events[i].dedupeKey)
    ensures InsertAll(rows, events) == Ok(rows)
  {
    if events != [] {
      InsertKnownKeys(rows, events[..|events| - 1]);
    }
  }

  class PGRepository {
    var rows: seq<Event>

    constructor ()
      ensures rows == []
    {
      rows := [];
    }

    /** Other sessions' inserts, between two statements of this one. */
    method Meanwhile(rows': seq<Event>)
      requires Unique(rows')
      modifies this
      ensures rows == rows'
    {
      rows := rows';
    }

    method Insert(e: Event, fate: Fate) returns (r: Result<()>)
      requires Unique(rows)
      modifies this
      ensures Unique(rows) && old(rows) <= rows
      ensures r.Err? ==> r.error == Storage
      ensures r.Ok? <==> fate == Fine && InsertRow(old(rows), e).Ok?
      ensures fate == Lost || InsertRow(old(rows), e).Err? ==> rows == old(rows)
      ensures fate != Lost && InsertRow(old(rows), e).Ok? ==>
        InsertRow(old(rows), e) == Ok(rows) && HasKey(rows, e.dedupeKey)
    {
      if fate == Lost {
        return Err(Storage);
      }
      var inserted := InsertRow(rows, e);
      if inserted.Err? {
        return Err(inserted.error);
      }
      InsertRowMeaning(rows, e);
      rows := inserted.value;
      return if fate == Fine then Ok(()) else Err(Storage);
    }

    /** All or nothing: any failing insert, or a failing commit, rolls the whole batch back; an error
        leaves the whole batch in the table only when just the acknowledgement of the commit got
        lost. `fails(n)` is a database error at the n-th insert. */
    method InsertBatch(events: seq<Event>, fails: nat -> bool, commit: Fate) returns (r: Result<()>)
      requires Unique(rows)
      modifies this
      ensures Unique(rows)
      ensures rows == old(rows) || InsertAll(old(rows), events) == Ok(rows)
      ensures r.Ok? ==> InsertAll(old(rows), events) == Ok(rows)
      ensures r.Err? && commit != Unacked ==> rows == old(rows)
      ensures (forall n :: 0 <= n ==> !fails(n)) && commit == Fine && InsertAll(old(rows), events).Ok? ==> r.Ok?
    {
      var tx := rows;
      for i := 0 to |events|
        invariant InsertAll(rows, events[..i]) == Ok(tx)
        invariant rows == old(rows)
      {
        assert events[..i + 1][..i] == events[..i] && events[..i + 1][i] == events[i];
        if fails(i) {
          return Err(Storage);
        }
        var inserted := InsertRow(tx, events[i]);
        if inserted.Err? {
          InsertAllStops(rows, events, i + 1);
          return Err(inserted.error);
        }
        tx := inserted.value;
      }
      assert events[..|events|] == events;
      if commit == Lost {
        return Err(Storage);
      }
      InsertAllMeaning(rows, events);
      rows := tx;
      return if commit == Fine then Ok(()) else Err(Storage);
    }
  }

  lemma {:induction false} InsertAllStops(rows: seq<Event>, events: seq<Event>, n: nat)
    requires n <= |events| && InsertAll(rows, events[..n]).Err?
    ensures InsertAll(rows, events).Err?
  {
    if n == |events| {
      assert events[..n] == events;
    } else {
      var shorter := events[..|events| - 1];
      assert shorter[..n] == events[..n];
      InsertAllStops(rows, shorter, n);
    }
  }

  // ---------------------------------------------------------------- the service

  /** Keys the ExistsDedupe query finds at clock reading `at`. */
  function Recent(rows: seq<Event>, at: int, window: int): set<string> {
    set i | 0 <= i < |rows| && rows[i].receivedAt.Some? && rows[i].receivedAt.value >= at - window :: rows[i].dedupeKey
  }

  class Service {
    const repo: PGRepository
    const sampleEvery: nat
    const dedupeWindow: nat

    constructor (repo: PGRepository, sampleEvery: int, dedupeWindow: int)
      ensures this.repo == repo && this.dedupeWindow > 0
      ensures this.sampleEvery == if sampleEvery > 0 then sampleEvery else 0
      ensures this.dedupeWindow == if dedupeWindow > 0 then dedupeWindow else 300_000_000_000
    {
      this.repo := repo;
      this.sampleEvery := if sampleEvery < 0 then 0 else sampleEvery;
      this.dedupeWindow := if dedupeWindow <= 0 then 300_000_000_000 else dedupeWindow;
    }

    /** A batch that goes through leaves every accepted key stored, once; it adds no more rows
        than it reports, and reports no key that was recent at every query. Other sessions insert
        meanwhile: the n-th query, made at clock(n), finds the table `tables(n)`, and the insert
        finds `found`. */
    method IngestBatch(batch: Batch, ids: nat -> string, now: int, clock: nat -> int, tables: nat -> seq<Event>,
                       found: seq<Event>, queryFails: nat -> bool, insertFails: nat -> bool, commit: Fate)
      returns (r: Result<nat>, ghost out: seq<Event>, ghost moves: nat)
      requires Unique(repo.rows) && Unique(found) && Growing(repo.rows, tables, found)
      modifies repo
      ensures Unique(repo.rows) && old(repo.rows) <= repo.rows
      ensures r.Err? ==>
        repo.rows in {old(repo.rows), found} || (commit == Unacked && InsertAll(found, out) == Ok(repo.rows))
      ensures r.Ok? && out == [] ==> repo.rows in {old(repo.rows), found}
      ensures r.Ok? ==>
        && r.value == |out|
        && Deduped(tables, Intake(batch, ids, now, sampleEvery), clock, dedupeWindow, moves, out)
        && (out != [] ==> InsertAll(found, out) == Ok(repo.rows) && |repo.rows| <= |found| + r.value)
      ensures r.Err? && (forall n: nat :: !queryFails(n) && !insertFails(n)) && commit == Fine ==>
        InsertAll(found, out).Err?
      ensures r.Ok? && Stable(tables, clock, dedupeWindow) && AllTellable(Intake(batch, ids, now, sampleEvery)) ==>
        r.value == |set e | e in Intake(batch, ids, now, sampleEvery)
                            && !KnownSince(tables(0), e.dedupeKey, clock(0) - dedupeWindow)
                        :: (e.tenant, e.source, e.kind, e.labels, e.text)|
    {
      hide Unique, AllTellable, Stable, KeyOf, KnownSince, Intake;
      out, moves := [], 0;
      assert repo.rows <= tables(0) <= found;
      var accepted := IntakeLoop(batch, ids, now, sampleEvery);
      AllKeyed(batch, ids, now, sampleEvery);
      if |accepted| == 0 {
        NothingIsSaid(accepted, tables(0), clock(0) - dedupeWindow);
        return Ok(0), out, moves;
      }
      var window := dedupeWindow;
      var deduped, steps := Dedupe.Dedupe(accepted, (n: nat) => Recent(tables(n), clock(n), window), queryFails);
      if deduped.Err? {
        return Err(deduped.error), out, moves;
      }
      out, moves := deduped.value, steps;
      CountsWhatIsSaid(accepted, tables, clock, window, moves, out);
      repo.Meanwhile(found);
      var inserted := repo.InsertBatch(deduped.value, insertFails, commit);
      if InsertAll(found, out).Ok? {
        InsertAllMeaning(found, out);
      }
      if inserted.Err? {
        return Err(inserted.error), out, moves;
      }
      return Ok(|deduped.value|), out, moves;
    }

    /** A single event, never sampled away: once the call succeeds its key is stored. */
    method Ingest(event: Event, freshID: string, now: int, at: int, found: seq<Event>, queryFails: bool, insert: Fate)
      returns (r: Result<Event>)
      requires Unique(repo.rows) && Unique(found) && repo.rows <= found
      modifies repo
      ensures Unique(repo.rows) && old(repo.rows) <= repo.rows
      ensures r.Ok? ==>
        && r.value == Keyed(Fill(event, freshID, now))
        && HasKey(repo.rows, r.value.dedupeKey)
        && (repo.rows == old(repo.rows) || InsertRow(found, r.value) == Ok(repo.rows))
      ensures r.Err? ==>
        || repo.rows in {old(repo.rows), found}
        || (insert == Unacked && InsertRow(found, Keyed(Fill(event, freshID, now))) == Ok(repo.rows))
      ensures r == Err(Invalid) <==> !Wanted(Batch("", "", []), event, now, 0)
      ensures r.Ok? ==> Completes(Batch("", "", []), event, freshID, now, r.value)
    {
      var evt := Fill(event, freshID, now);
      if !Valid(evt) {
        return Err(Invalid);
      }
      var key := DedupeFingerprint(evt);
      evt := evt.(dedupeKey := key);
      if queryFails {
        return Err(Storage);
      }
      if key in Recent(repo.rows, at, dedupeWindow) {
        return Ok(evt);
      }
      repo.Meanwhile(found);
      var inserted := repo.Insert(evt, insert);
      if inserted.Err? {
        return Err(inserted.error);
      }
      return Ok(evt);
    }
  }

  /** A row with this key was received at this time or later. */
  ghost predicate KnownSince(rows: seq<Event>, k: string, since: int) {
    exists row :: row in rows && row.dedupeKey == k && row.receivedAt.Some? && row.receivedAt.value >= since
  }

  /** Every query finds the same keys. */
  ghost predicate Stable(tables: nat -> seq<Event>, clock: nat -> int, window: int) {
    forall n: nat :: Recent(tables(n), clock(n), window) == Recent(tables(0), clock(0), window)
  }

  ghost predicate AllTellable(events: seq<Event>) {
    forall e :: e in events ==> Tellable(e)
  }

  lemma AllKeyed(batch: Batch, ids: nat -> string, now: int, every: nat)
    ensures forall e :: e in Intake(batch, ids, now, every) ==> e.dedupeKey == KeyOf(e)
  {
    hide KeyOf, Intake;
    var from := IntakeMeans(batch, ids, now, every);
  }

  lemma RecentIsKnown(rows: seq<Event>, k: string, at: int, window: int)
    ensures k in Recent(rows, at, window) <==> KnownSince(rows, k, at - window)
  {
    if row :| row in rows && row.dedupeKey == k && row.receivedAt.Some? && row.receivedAt.value >= at - window {
      var i :| 0 <= i < |rows| && rows[i] == row;
      assert rows[i].dedupeKey == k;
    }
  }

  /** Different keys, different things said: as many as there are events. */
  lemma {:induction false} SaidCount(out: seq<Event>)
    requires Dedupe.DistinctKeys(out) && forall e :: e in out ==> Tellable(e) && e.dedupeKey == KeyOf(e)
    ensures |set e | e in out :: Said(e)| == |out|
  {
    hide Tellable, KeyOf, Said;
    if out == [] {
      assert (set e | e in out :: Said(e)) == {};
    } else {
      var before, last := out[..|out| - 1], out[|out| - 1];
      assert out == before + [last];
      SaidCount(before);
      forall e | e in before
        ensures Said(e) != Said(last)
      {
        SaidTellsKeys(e, last);
      }
      assert (set e | e in out :: Said(e)) == (set e | e in before :: Said(e)) + {Said(last)};
    }
  }

  lemma SaidTellsKeys(a: Event, b: Event)
    requires Tellable(a) && Tellable(b)
    ensures Said(a) == Said(b) <==> KeyOf(a) == KeyOf(b)
  {
    KeysTellEventsApart(a, b);
  }

  /** While the queries all find the same keys, dedupe keeps one event for each different thing
      said that is not known from within the window. */
  lemma CountsWhatIsSaid(accepted: seq<Event>, tables: nat -> seq<Event>, clock: nat -> int, window: int, moves: nat,
                         out: seq<Event>)
    requires Deduped(tables, accepted, clock, window, moves, out)
    requires forall e :: e in accepted ==> e.dedupeKey == KeyOf(e)
    ensures Stable(tables, clock, window) && AllTellable(accepted) ==>
      |out| == |set e | e in accepted && !KnownSince(tables(0), e.dedupeKey, clock(0) - window)
                     :: (e.tenant, e.source, e.kind, e.labels, e.text)|
  {
    hide Tellable, KeyOf, Recent, KnownSince;
    var stored := Recent(tables(0), clock(0), window);
    if Stable(tables, clock, window) && AllTellable(accepted) {
      var storedAt := (n: nat) => Recent(tables(n), clock(n), window);
      Dedupe.StableTableGivesOneAnswer(accepted, storedAt, stored, moves, out);
      SaidCount(out);
      forall e | e in accepted
        ensures KnownSince(tables(0), e.dedupeKey, clock(0) - window) <==> e.dedupeKey in stored
      {
        RecentIsKnown(tables(0), e.dedupeKey, clock(0), window);
      }
      SameThingsSaid(accepted, out, stored);
      assert (set e | e in accepted && !KnownSince(tables(0), e.dedupeKey, clock(0) - window)
                    :: (e.tenant, e.source, e.kind, e.labels, e.text))
        == (set e | e in accepted && e.dedupeKey !in stored :: Said(e));
    }
  }

  lemma SameThingsSaid(accepted: seq<Event>, out: seq<Event>, stored: set<string>)
    requires Dedupe.AllFrom(out, accepted) && Dedupe.KeySet(out) == Dedupe.KeySet(accepted) - stored
    requires forall e :: e in accepted ==> Tellable(e) && e.dedupeKey == KeyOf(e)
    ensures (set e | e in out :: Said(e)) == (set e | e in accepted && e.dedupeKey !in stored :: Said(e))
  {
    hide Tellable, KeyOf, Said;
    forall e | e in accepted && e.dedupeKey !in stored
      ensures exists x :: x in out && Said(x) == Said(e)
    {
      InKeySet(accepted, e);
      assert e.dedupeKey in Dedupe.KeySet(out);
      var i :| 0 <= i < |out| && out[i].dedupeKey == e.dedupeKey;
      assert out[i] in out;
      SaidTellsKeys(out[i], e);
    }
    forall e | e in out
      ensures e in accepted && e.dedupeKey !in stored
    {
      InKeySet(out, e);
    }
  }

  lemma NothingIsSaid(accepted: seq<Event>, rows: seq<Event>, since: int)
    requires accepted == []
    ensures |set e | e in accepted && !KnownSince(rows, e.dedupeKey, since)
                  :: (e.tenant, e.source, e.kind, e.labels, e.text)| == 0
  {
    hide KnownSince;
    assert (set e | e in accepted && !KnownSince(rows, e.dedupeKey, since)
                  :: (e.tenant, e.source, e.kind, e.labels, e.text)) == {};
  }

  lemma InKeySet(events: seq<Event>, e: Event)
    requires e in events
    ensures e.dedupeKey in Dedupe.KeySet(events)
  {
    var i :| 0 <= i < |events| && events[i] == e;
    assert events[i].dedupeKey == e.dedupeKey;
  }

  /** Rows are only ever added: from the start of a call, over its queries, to its insert. */
  ghost predicate Growing(rows: seq<Event>, tables: nat -> seq<Event>, found: seq<Event>) {
    forall n: nat :: rows <= tables(n) <= found
  }

  /** `out` is what dedupe made of `accepted` while its queries found these tables. */
  ghost predicate Deduped(tables: nat -> seq<Event>, accepted: seq<Event>, clock: nat -> int, window: int, moves: nat,
                          out: seq<Event>) {
    Dedupe.DedupeResult(accepted, (n: nat) => Recent(tables(n), clock(n), window), moves, out)
  }

  // ---------------------------------------------------------------- replay

  /** After a batch went through, every accepted key is stored: inserted now, or found. */
  lemma AcceptedKeysAreStored(tables: nat -> seq<Event>, found: seq<Event>, accepted: seq<Event>, clock: nat -> int,
                              window: int, moves: nat, out: seq<Event>, rows': seq<Event>, k: string)
    requires Unique(found) && Growing([], tables, found)
    requires Deduped(tables, accepted, clock, window, moves, out) && InsertAll(found, out) == Ok(rows')
    requires k in Dedupe.KeySet(accepted)
    ensures HasKey(rows', k)
  {
    InsertAllMeaning(found, out);
    if k in Dedupe.KeySet(out) {
      var i :| 0 <= i < |out| && out[i].dedupeKey == k;
      assert HasKey(out, k);
    } else {
      var storedAt := (n: nat) => Recent(tables(n), clock(n), window);
      assert Dedupe.FoundBefore(storedAt, k, moves);
      var t: nat :| t < moves && k in storedAt(t);
      var i :| 0 <= i < |tables(t)| && tables(t)[i].dedupeKey == k;
      assert tables(t) <= found && found[i].dedupeKey == k;
    }
  }

  predicate Brings(e: Option<Event>, k: string) {
    e.Some? && e.value.dedupeKey == k
  }

  lemma {:induction false} CollectKeys(n: nat, choose: nat -> Option<Event>, k: string)
    ensures k in Dedupe.KeySet(Collect(n, choose))
      <==> exists i: nat :: i < n && Brings(choose(i), k)
  {
    if n > 0 {
      CollectKeys(n - 1, choose, k);
      var before, e := Collect(n - 1, choose), choose(n - 1);
      if e.Some? {
        Dedupe.KeySetSnoc(before, e.value);
        assert Collect(n, choose) == before + [e.value];
      } else {
        assert Collect(n, choose) == before;
      }
      assert (exists i: nat :: i < n && Brings(choose(i), k))
        <==> (exists i: nat :: i < n - 1 && Brings(choose(i), k)) || Brings(choose(n - 1), k);
    }
  }

  /** What of an event does not depend on when it is ingested: whether it is valid, the time it
      brought along, and its key. */
  datatype Glimpse = Glimpse(valid: bool, at: Option<int>, key: string)

  ghost function Glimpses(batch: Batch): seq<Glimpse> {
    seq(|batch.events|, i requires 0 <= i < |batch.events| =>
      var e := Prepared(batch, batch.events[i], "", 0);
      Glimpse(Valid(e), batch.events[i].occurredAt, KeyOf(e)))
  }

  /** Whether the event is taken in at time `now`: one without a time of its own is sampled by
      the time of its ingestion. */
  predicate Takes(g: Glimpse, now: int, every: nat) {
    g.valid && Sampled(if g.at.Some? then g.at.value else now, every)
  }

  ghost predicate TakesKey(gs: seq<Glimpse>, now: int, every: nat, k: string) {
    exists i :: 0 <= i < |gs| && Takes(gs[i], now, every) && gs[i].key == k
  }

  lemma ChosenGlimpse(batch: Batch, i: nat, ids: nat -> string, now: int, every: nat)
    requires i < |batch.events|
    ensures Chosen(batch, i, ids, now, every).Some? <==> Takes(Glimpses(batch)[i], now, every)
    ensures Chosen(batch, i, ids, now, every).Some? ==>
      Chosen(batch, i, ids, now, every).value.dedupeKey == Glimpses(batch)[i].key
  {
  }

  lemma IntakeKeys(batch: Batch, ids: nat -> string, now: int, every: nat, k: string)
    ensures k in Dedupe.KeySet(Intake(batch, ids, now, every)) <==> TakesKey(Glimpses(batch), now, every, k)
  {
    var choose := (i: nat) => Chosen(batch, i, ids, now, every);
    CollectKeys(|batch.events|, choose, k);
    forall i: nat | i < |batch.events|
      ensures Brings(choose(i), k)
        <==> Takes(Glimpses(batch)[i], now, every) && Glimpses(batch)[i].key == k
    {
      ChosenGlimpse(batch, i, ids, now, every);
    }
  }

  /** Sampling cannot tell two ingestions apart: it is off, or every valid event without a time
      of its own has a key that is already stored or that an event with a time brings in anyway. */
  ghost predicate Steady(gs: seq<Glimpse>, every: nat, stored: set<string>) {
    every == 0 || forall i :: 0 <= i < |gs| && gs[i].valid && gs[i].at.None? ==>
                    gs[i].key in stored || BroughtByTime(gs, every, gs[i].key)
  }

  ghost predicate BroughtByTime(gs: seq<Glimpse>, every: nat, k: string) {
    exists j :: 0 <= j < |gs| && gs[j].key == k && gs[j].at.Some? && gs[j].valid && Sampled(gs[j].at.value, every)
  }

  /** Slots 1 and 2 of the sampler differ, so an event sampled by its ingestion time can be left
      out first and taken later. */
  lemma SlotsDiffer(every: nat)
    requires every > 0
    ensures !Sampled(every, every) && Sampled(2 * every, every)
  {
    assert Quot(every, every) == 1 && Quot(2 * every, every) == 2;
  }

  /** A second ingestion, whenever it comes, asks for nothing new exactly when the batch is
      steady. */
  lemma ReplayBringsNothingNew(gs: seq<Glimpse>, every: nat, stored: set<string>)
    ensures (forall now1, now2, k :: now1 <= now2 && TakesKey(gs, now2, every, k) ==>
               TakesKey(gs, now1, every, k) || k in stored)
      <==> Steady(gs, every, stored)
    ensures Steady(gs, every, stored) ==>
      forall now1, now2, k :: TakesKey(gs, now2, every, k) ==> TakesKey(gs, now1, every, k) || k in stored
  {
    if Steady(gs, every, stored) {
      forall now1, now2, k | TakesKey(gs, now2, every, k)
        ensures TakesKey(gs, now1, every, k) || k in stored
      {
        var i :| 0 <= i < |gs| && Takes(gs[i], now2, every) && gs[i].key == k;
        if every > 0 && gs[i].at.None? && k !in stored {
          var j :| 0 <= j < |gs| && gs[j].key == k && gs[j].at.Some? && gs[j].valid && Sampled(gs[j].at.value, every);
          assert Takes(gs[j], now1, every);
        } else {
          assert Takes(gs[i], now1, every) || k in stored;
        }
      }
    } else {
      var i :| 0 <= i < |gs| && gs[i].valid && gs[i].at.None? && gs[i].key !in stored
               && !BroughtByTime(gs, every, gs[i].key);
      SlotsDiffer(every);
      assert Takes(gs[i], 2 * every, every);
      assert TakesKey(gs, 2 * every, every, gs[i].key);
      forall j | 0 <= j < |gs| && gs[j].key == gs[i].key
        ensures !Takes(gs[j], every, every)
      {
      }
      assert !TakesKey(gs, every, every, gs[i].key);
    }
  }

  /** One successful ingestion of a batch: when, over which tables, and with what outcome. */
  datatype Run = Run(ids: nat -> string, now: int, clock: nat -> int, tables: nat -> seq<Event>, found: seq<Event>,
                     moves: nat, out: seq<Event>)

  ghost predicate Ingested(batch: Batch, every: nat, window: int, run: Run) {
    && Unique(run.found) && Growing([], run.tables, run.found)
    && Deduped(run.tables, Intake(batch, run.ids, run.now, every), run.clock, window, run.moves, run.out)
    && InsertAll(run.found, run.out).Ok?
  }

  /** Ingest a steady batch, let other sessions go on, ingest it again: the second insert does not
      change the table, whatever its dedupe lets through. */
  lemma ReplayLeavesTable(batch: Batch, every: nat, window: int, first: Run, second: Run)
    requires Steady(Glimpses(batch), every, {})
    requires Ingested(batch, every, window, first) && Ingested(batch, every, window, second)
    requires Left(first) <= second.found
    ensures InsertAll(second.found, second.out) == Ok(second.found)
  {
    hide Unique;
    var accepted1 := Intake(batch, first.ids, first.now, every);
    var accepted2 := Intake(batch, second.ids, second.now, every);
    var rows1 := Left(first);
    forall i | 0 <= i < |second.out|
      ensures HasKey(second.found, second.out[i].dedupeKey)
    {
      var k := second.out[i].dedupeKey;
      FromAccepted(accepted2, second.out, i);
      IntakeKeys(batch, second.ids, second.now, every, k);
      ReplayBringsNothingNew(Glimpses(batch), every, {});
      IntakeKeys(batch, first.ids, first.now, every, k);
      AcceptedKeysAreStored(first.tables, first.found, accepted1, first.clock, window, first.moves,
                            first.out, rows1, k);
      var r :| 0 <= r < |rows1| && rows1[r].dedupeKey == k;
      assert second.found[r] == rows1[r];
    }
    InsertKnownKeys(second.found, second.out);
  }

  lemma FromAccepted(accepted: seq<Event>, out: seq<Event>, i: nat)
    requires Dedupe.AllFrom(out, accepted) && i < |out|
    ensures out[i].dedupeKey in Dedupe.KeySet(accepted)
    ensures out[i].dedupeKey in Dedupe.KeySet(out)
  {
    assert out[i] in accepted;
    var j :| 0 <= j < |accepted| && accepted[j] == out[i];
    assert accepted[j].dedupeKey == out[i].dedupeKey;
  }

  /** Dedupe lets nothing through that every query finds recent. */
  lemma RecentKeysAreDropped(tables: nat -> seq<Event>, accepted: seq<Event>, clock: nat -> int, window: int,
                             moves: nat, out: seq<Event>)
    requires Deduped(tables, accepted, clock, window, moves, out)
    requires forall n: nat :: n < moves ==> Dedupe.KeySet(accepted) <= Recent(tables(n), clock(n), window)
    ensures out == []
  {
    var found := (n: nat) => Recent(tables(n), clock(n), window);
    forall k | k in Dedupe.KeySet(accepted)
      ensures k !in Dedupe.KeySet(out)
    {
      assert forall t: nat :: t < moves ==> k in found(t);
      assert !Dedupe.MissedBefore(found, k, moves);
    }
    if |out| > 0 {
      FromAccepted(accepted, out, 0);
    }
  }

  /** The table that an ingestion left. */
  function Left(run: Run): seq<Event>
    requires InsertAll(run.found, run.out).Ok?
  {
    InsertAll(run.found, run.out).value
  }

  /** The row is inside the dedupe window at this clock reading. */
  predicate InWindow(e: Event, at: int, window: int) {
    e.receivedAt.Some? && e.receivedAt.value >= at - window
  }

  /** So are all the rows that hold a key of the batch. */
  ghost predicate StillRecent(batch: Batch, every: nat, window: int, run: Run, at: int)
    requires InsertAll(run.found, run.out).Ok?
  {
    forall e :: e in Left(run) && e.dedupeKey in Dedupe.KeySet(Intake(batch, run.ids, run.now, every)) ==>
      InWindow(e, at, window)
  }

  lemma ReplayedKeyIsRecent(batch: Batch, every: nat, window: int, first: Run, second: Run, n: nat, k: string)
    requires Steady(Glimpses(batch), every, {})
    requires Ingested(batch, every, window, first) && Left(first) <= second.tables(n)
    requires StillRecent(batch, every, window, first, second.clock(n))
    requires k in Dedupe.KeySet(Intake(batch, second.ids, second.now, every))
    ensures k in Recent(second.tables(n), second.clock(n), window)
  {
    hide Unique;
    IntakeKeys(batch, second.ids, second.now, every, k);
    ReplayBringsNothingNew(Glimpses(batch), every, {});
    IntakeKeys(batch, first.ids, first.now, every, k);
    AcceptedKeysAreStored(first.tables, first.found, Intake(batch, first.ids, first.now, every), first.clock, window,
                          first.moves, first.out, Left(first), k);
    var r :| 0 <= r < |Left(first)| && Left(first)[r].dedupeKey == k;
    assert Left(first)[r] in Left(first) && second.tables(n)[r] == Left(first)[r];
  }

  /** Ingest a steady batch, then ingest it again while the rows that hold its keys are still
      inside the dedupe window at every query: the replay reports 0. */
  lemma ReplayReportsNothing(batch: Batch, every: nat, window: int, first: Run, second: Run)
    requires Steady(Glimpses(batch), every, {})
    requires Ingested(batch, every, window, first) && Ingested(batch, every, window, second)
    requires forall n: nat :: n < second.moves ==>
      Left(first) <= second.tables(n) && StillRecent(batch, every, window, first, second.clock(n))
    ensures second.out == []
  {
    hide Unique, Ingested, StillRecent;
    var accepted := Intake(batch, second.ids, second.now, every);
    forall n: nat, k | n < second.moves && k in Dedupe.KeySet(accepted)
      ensures k in Recent(second.tables(n), second.clock(n), window)
    {
      ReplayedKeyIsRecent(batch, every, window, first, second, n, k);
    }
    IngestedIsDeduped(batch, every, window, second);
    RecentKeysAreDropped(second.tables, accepted, second.clock, window, second.moves, second.out);
  }

  lemma IngestedIsDeduped(batch: Batch, every: nat, window: int, run: Run)
    requires Ingested(batch, every, window, run)
    ensures Deduped(run.tables, Intake(batch, run.ids, run.now, every), run.clock, window, run.moves, run.out)
  {
  }
}
