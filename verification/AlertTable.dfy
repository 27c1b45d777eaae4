/** The alert tables, one SQL statement at a time: `alerts` with its unique fingerprint, and the
    observation and transition logs beside it. */
module AlertTable {
  import opened Prelude
  import opened Keys

  datatype Status = Pending | Firing | Resolved | Acknowledged | Silenced

  /** The table of ValidateTransition. */
  function Allowed(from: Status): set<Status> {
    match from
    case Pending => {Firing, Resolved}
    case Firing => {Resolved, Acknowledged, Silenced}
    case Resolved => {Firing}
    case Acknowledged => {Firing, Resolved, Silenced}
    case Silenced => {Firing, Resolved, Acknowledged}
  }

  predicate ValidTransition(from: Status, to: Status) {
    from == to || to in Allowed(from)
  }

  /** A row of `alerts`. `key` are the columns a fingerprint is made of. */
  datatype Alert = Alert(
    id: string,
    tenant: string,
    fingerprint: string,
    key: AlertKey,
    status: Status,
    value: real,
    message: string,
    startedAt: int,
    updatedAt: int,
    lastFiredAt: int,
    resolvedAt: Option<int>,
    acknowledgedAt: Option<int>,
    silencedAt: Option<int>,
    firedCount: nat,
    version: nat)

  /** What ApplyEvaluation hands to an upsert; `id` is the fresh id of a new alert. */
  datatype Evaluation = Evaluation(id: string, tenant: string, fingerprint: string, key: AlertKey, value: real,
                                   message: string, at: int)

  datatype Observation = Observation(alertID: string, value: real, at: int)

  datatype Transition = Transition(alertID: string, from: Status, to: Status)

  datatype Tables = Tables(
    alerts: map<string, Alert>,
    byFingerprint: map<string, string>,
    observations: seq<Observation>,
    log: seq<Transition>)

  const EMPTY := Tables(map[], map[], [], [])

  // ---------------------------------------------------------------- statements

  function NewAlert(e: Evaluation): Alert {
    Alert(e.id, e.tenant, e.fingerprint, e.key, Firing, e.value, e.message, e.at, e.at, e.at, None, None, None, 1, 1)
  }

  /** The DO UPDATE branch: it decides the status in SQL. */
  function Refired(a: Alert, e: Evaluation): Alert {
    var again := a.status == Resolved || a.status == Silenced;
    a.(value := e.value, message := e.message, updatedAt := e.at, lastFiredAt := e.at,
       status := if again then Firing else a.status,
       resolvedAt := if again then None else a.resolvedAt,
       firedCount := a.firedCount + 1,
       version := a.version + 1)
  }

  /** A new fingerprint under a known id violates the primary key. */
  predicate Accepts(t: Tables, e: Evaluation) {
    e.fingerprint in t.byFingerprint || e.id !in t.alerts
  }

  function AlertOf(t: Tables, fingerprint: string): Option<Alert> {
    if fingerprint in t.byFingerprint && t.byFingerprint[fingerprint] in t.alerts
    then Some(t.alerts[t.byFingerprint[fingerprint]])
    else None
  }

  function Upserted(t: Tables, e: Evaluation): Tables {
    match AlertOf(t, e.fingerprint)
    case Some(a) => t.(alerts := t.alerts[a.id := Refired(a, e)])
    case None => t.(alerts := t.alerts[e.id := NewAlert(e)], byFingerprint := t.byFingerprint[e.fingerprint := e.id])
  }

  function Observed(t: Tables, alertID: string, e: Evaluation): Tables {
    t.(observations := t.observations + [Observation(alertID, e.value, e.at)])
  }

  function Logged(t: Tables, alertID: string, from: Status, to: Status): Tables {
    t.(log := t.log + [Transition(alertID, from, to)])
  }

  /** UPDATE ... WHERE id=$1 AND status=$2. */
  predicate CasWins(t: Tables, id: string, from: Status) {
    id in t.alerts && t.alerts[id].status == from
  }

  function Moved(a: Alert, to: Status, at: int): Alert {
    var b := a.(status := to, updatedAt := at, version := a.version + 1);
    match to
    case Pending => b
    case Firing => b.(resolvedAt := None)
    case Resolved => b.(resolvedAt := Some(at))
    case Acknowledged => b.(acknowledgedAt := Some(at))
    case Silenced => b.(silencedAt := Some(at))
  }

  function Cas(t: Tables, id: string, from: Status, to: Status, at: int): Tables {
    if CasWins(t, id, from) then t.(alerts := t.alerts[id := Moved(t.alerts[id], to, at)]) else t
  }

  /** When UpsertAlert logs pending -> firing, judging by the row it re-read. */
  predicate LooksNew(a: Alert) {
    a.status == Pending || (a.status == Firing && a.firedCount == 1)
  }

  // ---------------------------------------------------------------- invariants

  /** No alert is pending, it carries a resolve time exactly while resolved, and the time of an
      acknowledgement or silencing as long as it is in force. */
  predicate RowInv(a: Alert) {
    && a.status != Pending
    && (a.resolvedAt.Some? <==> a.status == Resolved)
    && (a.status == Acknowledged ==> a.acknowledgedAt.Some?)
    && (a.status == Silenced ==> a.silencedAt.Some?)
    && 1 <= a.firedCount <= a.version
  }

  ghost predicate Indexed(t: Tables) {
    && (forall f :: f in t.byFingerprint ==>
          t.byFingerprint[f] in t.alerts && t.alerts[t.byFingerprint[f]].fingerprint == f)
    && (forall id :: id in t.alerts ==>
          && t.alerts[id].id == id
          && t.alerts[id].fingerprint in t.byFingerprint && t.byFingerprint[t.alerts[id].fingerprint] == id)
  }

  ghost predicate TablesInv(t: Tables) {
    && Indexed(t)
    && (forall id :: id in t.alerts ==> RowInv(t.alerts[id]))
    && (forall i :: 0 <= i < |t.observations| ==> t.observations[i].alertID in t.alerts)
    && (forall i :: 0 <= i < |t.log| ==> t.log[i].alertID in t.alerts && t.log[i].to in Allowed(t.log[i].from))
  }

  lemma RefiredKeepsRow(a: Alert, e: Evaluation)
    requires RowInv(a)
    ensures RowInv(Refired(a, e)) && Refired(a, e).id == a.id && Refired(a, e).fingerprint == a.fingerprint
  {
  }

  lemma MovedKeepsRow(a: Alert, to: Status, at: int)
    requires RowInv(a) && to != Pending && to in Allowed(a.status)
    ensures RowInv(Moved(a, to, at)) && Moved(a, to, at).id == a.id && Moved(a, to, at).fingerprint == a.fingerprint
  {
  }

  lemma UpdateKeepsInv(t: Tables, b: Alert)
    requires TablesInv(t) && b.id in t.alerts && RowInv(b) && b.fingerprint == t.alerts[b.id].fingerprint
    ensures TablesInv(t.(alerts := t.alerts[b.id := b]))
  {
  }

  lemma InsertKeepsInv(t: Tables, b: Alert)
    requires TablesInv(t) && b.id !in t.alerts && RowInv(b) && b.fingerprint !in t.byFingerprint
    ensures TablesInv(t.(alerts := t.alerts[b.id := b], byFingerprint := t.byFingerprint[b.fingerprint := b.id]))
  {
  }

  lemma UpsertKeepsInv(t: Tables, e: Evaluation)
    requires TablesInv(t) && Accepts(t, e)
    ensures TablesInv(Upserted(t, e))
  {
    hide RowInv, Refired;
    match AlertOf(t, e.fingerprint)
    case Some(a) =>
      RefiredKeepsRow(a, e);
      UpdateKeepsInv(t, Refired(a, e));
    case None =>
      NewAlertIsFine(e);
      InsertKeepsInv(t, NewAlert(e));
  }

  lemma NewAlertIsFine(e: Evaluation)
    ensures RowInv(NewAlert(e))
  {
  }

  lemma CasKeepsInv(t: Tables, id: string, from: Status, to: Status, at: int)
    requires TablesInv(t) && to != Pending && to in Allowed(from)
    ensures TablesInv(Cas(t, id, from, to, at))
  {
    hide RowInv, Moved;
    if CasWins(t, id, from) {
      MovedKeepsRow(t.alerts[id], to, at);
      UpdateKeepsInv(t, Moved(t.alerts[id], to, at));
    }
  }

  // ---------------------------------------------------------------- counting rows

  function ObservationsOf(observations: seq<Observation>, id: string): nat {
    if observations == [] then 0 else
      var n := |observations| - 1;
      ObservationsOf(observations[..n], id) + if observations[n].alertID == id then 1 else 0
  }

  function LoggedTimes(log: seq<Transition>, row: Transition): nat {
    if log == [] then 0 else
      var n := |log| - 1;
      LoggedTimes(log[..n], row) + if log[n] == row then 1 else 0
  }

  /** The rows of one alert, oldest first. */
  function LogOf(log: seq<Transition>, id: string): seq<Transition> {
    if log == [] then [] else
      var n := |log| - 1;
      LogOf(log[..n], id) + if log[n].alertID == id then [log[n]] else []
  }

  lemma {:induction false} NoneObserved(observations: seq<Observation>, id: string)
    requires forall i :: 0 <= i < |observations| ==> observations[i].alertID != id
    ensures ObservationsOf(observations, id) == 0
  {
    if observations != [] {
      NoneObserved(observations[..|observations| - 1], id);
    }
  }

  lemma {:induction false} NoneLogged(log: seq<Transition>, row: Transition)
    requires forall i :: 0 <= i < |log| ==> log[i].alertID != row.alertID
    ensures LoggedTimes(log, row) == 0 && LogOf(log, row.alertID) == []
  {
    if log != [] {
      NoneLogged(log[..|log| - 1], row);
    }
  }
}
