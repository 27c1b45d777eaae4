/** One evaluation of a rule: test every aggregate, upsert an alert for each match, check the
    silences, and enqueue the notifications. */
module RuleEvaluation {
  import opened Prelude
  import opened Labels
  import opened Keys
  import opened Conditions
  import opened Rules
  import opened AlertTable
  import opened LeaseTable
  import opened LeaseRepository
  import P = AlertProtocol
  import AlertService
  import Silences
  import Notification

  datatype EvaluationMatch = EvaluationMatch(alertID: string, scope: string, value: real, message: string,
                                             created: bool, silenced: bool, dryRun: bool)

  type SilenceTable = map<string, Silences.Silence>

  // ---------------------------------------------------------------- what is to happen

  predicate Hit(rule: Rule, agg: Aggregate) {
    Verdict(rule.ruleType, rule.condition, agg).0
  }

  /** The alert an aggregate belongs to. */
  function KeyFor(rule: Rule, agg: Aggregate): AlertKey {
    AlertKey(rule.tenant, rule.id, GroupScope(rule.groupBy, agg.labels), agg.labels)
  }

  ghost function FingerprintFor(rule: Rule, agg: Aggregate): string {
    AlertService.FingerprintOfKey(KeyFor(rule, agg))
  }

  ghost predicate IsSilenced(rule: Rule, agg: Aggregate, silences: SilenceTable, now: int) {
    Silences.Silenced(silences, rule.tenant, rule.id, GroupScope(rule.groupBy, agg.labels), agg.labels, now)
  }

  /** The places of the matching aggregates, in order. */
  function Hits(rule: Rule, aggs: seq<Aggregate>): (hits: seq<nat>)
    ensures forall i :: 0 <= i < |hits| ==> hits[i] < |aggs|
    ensures forall p: nat :: p in hits <==> p < |aggs| && Verdict(rule.ruleType, rule.condition, aggs[p]).0
    ensures forall i, j :: 0 <= i < j < |hits| ==> hits[i] < hits[j]
  {
    if aggs == [] then [] else
      var n := |aggs| - 1;
      Hits(rule, aggs[..n]) + if Hit(rule, aggs[n]) then [n] else []
  }

  lemma HitsNext(rule: Rule, aggs: seq<Aggregate>, i: nat)
    requires i < |aggs|
    ensures Hits(rule, aggs[..i + 1]) == Hits(rule, aggs[..i]) + if Hit(rule, aggs[i]) then [i] else []
  {
    assert aggs[..i + 1][..i] == aggs[..i];
  }

  lemma NoHits(rule: Rule, aggs: seq<Aggregate>)
    ensures Hits(rule, aggs[..0]) == []
  {
  }

  /** The hits among the first n aggregates are the first hits. */
  lemma {:induction false} HitsPrefix(rule: Rule, aggs: seq<Aggregate>, n: nat)
    requires n <= |aggs|
    ensures Hits(rule, aggs[..n]) <= Hits(rule, aggs)
    decreases |aggs| - n
  {
    if n == |aggs| {
      assert aggs[..n] == aggs;
    } else {
      HitsPrefix(rule, aggs, n + 1);
      HitsNext(rule, aggs, n);
    }
  }

  predicate Places(hits: seq<nat>, aggs: seq<Aggregate>) {
    forall i :: 0 <= i < |hits| ==> hits[i] < |aggs|
  }

  /** How many of them nobody silenced; the i-th aggregate is checked against `silencesAt(i)`. */
  ghost function Loud(rule: Rule, aggs: seq<Aggregate>, hits: seq<nat>, silencesAt: nat -> SilenceTable, now: int): nat
    requires Places(hits, aggs)
  {
    if hits == [] then 0 else
      var n := |hits| - 1;
      Loud(rule, aggs, hits[..n], silencesAt, now)
      + if IsSilenced(rule, aggs[hits[n]], silencesAt(hits[n]), now) then 0 else 1
  }

  lemma LoudNext(rule: Rule, aggs: seq<Aggregate>, hits: seq<nat>, h: nat, silencesAt: nat -> SilenceTable, now: int)
    requires Places(hits, aggs) && h < |aggs|
    ensures Loud(rule, aggs, hits + [h], silencesAt, now)
         == Loud(rule, aggs, hits, silencesAt, now) + if IsSilenced(rule, aggs[h], silencesAt(h), now) then 0 else 1
  {
    assert (hits + [h])[..|hits|] == hits;
  }

  // ---------------------------------------------------------------- what the session did

  /** What a session has upserted, in order. */
  function Evaluations(own: seq<P.Step>): seq<Evaluation> {
    if own == [] then [] else
      var n := |own| - 1;
      Evaluations(own[..n]) + if own[n].Upsert? then [own[n].e] else []
  }

  /** The upserts of one alert among them. */
  function Upserts(own: seq<P.Step>, f: string): nat {
    if own == [] then 0 else
      var n := |own| - 1;
      Upserts(own[..n], f) + P.One(own[n].Upsert? && own[n].e.fingerprint == f)
  }

  lemma {:induction false} EvaluationsAdd(a: seq<P.Step>, b: seq<P.Step>)
    ensures Evaluations(a + b) == Evaluations(a) + Evaluations(b)
  {
    if b == [] {
      assert a + b == a;
    } else {
      var n := |b| - 1;
      EvaluationsAdd(a, b[..n]);
      assert (a + b)[..|a + b| - 1] == a + b[..n];
    }
  }

  lemma {:induction false} NoEvaluations(own: seq<P.Step>)
    requires AlertService.NoUpsert(own)
    ensures Evaluations(own) == []
  {
    if own != [] {
      NoEvaluations(own[..|own| - 1]);
    }
  }

  lemma OneEvaluation(own: seq<P.Step>)
    requires AlertService.OneUpsert(own)
    ensures Evaluations(own) == [own[0].e]
  {
    assert own == [own[0]] + own[1..];
    EvaluationsAdd([own[0]], own[1..]);
    NoEvaluations(own[1..]);
    assert [own[0]][..0] == [];
  }

  /** What an evaluation run goes by: the rule, the clock, the generated ids, the texts that are
      made of a match, and the session that writes the alerts. */
  datatype Given = Given(rule: Rule, now: int, freshIDs: nat -> string, taskIDs: nat -> nat -> string,
                         message: Aggregate -> string, encode: Alert -> string, me: string)

  /** What the match of the aggregate at place h is to bring to its alert. */
  ghost function EvaluationFor(g: Given, agg: Aggregate, h: nat): Evaluation {
    Evaluation(g.freshIDs(h), if g.rule.tenant == "" then "default" else g.rule.tenant, FingerprintFor(g.rule, agg),
               AlertKey(g.rule.tenant, g.rule.id, GroupScope(g.rule.groupBy, agg.labels), agg.labels),
               Verdict(g.rule.ruleType, g.rule.condition, agg).1, g.message(agg), g.now)
  }

  /** The session's upserts are the hits, in order, silenced or not. */
  ghost predicate AlertsFired(g: Given, aggs: seq<Aggregate>, hits: seq<nat>, own: seq<P.Step>)
    requires Places(hits, aggs)
  {
    && |Evaluations(own)| == |hits|
    && forall i :: 0 <= i < |hits| ==> Evaluations(own)[i] == EvaluationFor(g, aggs[hits[i]], hits[i])
  }

  lemma FiredOneMore(g: Given, aggs: seq<Aggregate>, hits: seq<nat>, h: nat, own: seq<P.Step>, more: seq<P.Step>)
    requires Places(hits, aggs) && h < |aggs|
    requires AlertsFired(g, aggs, hits, own) && Evaluations(more) == [EvaluationFor(g, aggs[h], h)]
    ensures Places(hits + [h], aggs) && AlertsFired(g, aggs, hits + [h], own + more)
  {
    hide EvaluationFor, Evaluations;
    EvaluationsAdd(own, more);
  }

  /** One match that went through: which step of the run upserted its alert, the row as that step
      left it, the row that the call returned, and the tasks. */
  datatype Alarm = Alarm(when: nat, mine: Alert, alert: Alert, tasks: seq<Task<Notification.Delivery>>)

  /** The task as it was stored, column by column. */
  ghost predicate Addressed(task: Task<Notification.Delivery>, id: string, alertID: string, rule: Rule, channel: string,
                            payload: string, now: int) {
    && task.id == id
    && task.row.status == LeaseTable.Pending && task.row.attempts == 0 && task.row.maxAttempts == 5
    && task.row.availableAt == now && task.row.createdAt == now && task.row.lockedBy == ""
    && task.row.lockedUntil == None
    && task.row.data.tenant == (if rule.tenant == "" then "default" else rule.tenant)
    && task.row.data.alertID == alertID && task.row.data.ruleID == rule.id && task.row.data.channelID == channel
    && task.row.data.payload == payload && task.row.data.updatedAt == now
    && task.row.data.lastError == "" && task.row.data.lastAttemptAt == None && task.row.data.cooldownUntil == None
    && task.row.data.escalationStep == 0
  }

  /** The match `m` of the aggregate at place h: its upsert is in the run, `created` says whether it
      inserted the alert, the alert it names is the one upserted, or a later state of it, and unless
      it is silenced there is a task for every channel, in order, about that alert. */
  ghost predicate Went(g: Given, agg: Aggregate, h: nat, trace: seq<P.Step>, m: EvaluationMatch, fi: Alarm) {
    && AlertService.Wrote(trace, fi.when, g.me, EvaluationFor(g, agg, h), m.created, fi.mine)
    && P.Follows(fi.mine, fi.alert) && m.alertID == fi.alert.id
    && |fi.tasks| == (if m.silenced then 0 else |g.rule.channels|)
    && forall c :: 0 <= c < |fi.tasks| ==>
         Addressed(fi.tasks[c], g.taskIDs(h)(c), fi.alert.id, g.rule, g.rule.channels[c], g.encode(fi.alert), g.now)
  }

  ghost predicate AllWent(g: Given, aggs: seq<Aggregate>, hits: seq<nat>, trace: seq<P.Step>,
                          matches: seq<EvaluationMatch>, alarms: seq<Alarm>)
    requires Places(hits, aggs)
  {
    && |matches| == |alarms| == |hits|
    && forall i :: 0 <= i < |hits| ==> Went(g, aggs[hits[i]], hits[i], trace, matches[i], alarms[i])
  }

  lemma OneMoreWent(g: Given, aggs: seq<Aggregate>, hits: seq<nat>, h: nat, trace: seq<P.Step>, trace': seq<P.Step>,
                    matches: seq<EvaluationMatch>, alarms: seq<Alarm>, m: EvaluationMatch, fi: Alarm)
    requires Places(hits, aggs) && h < |aggs| && trace <= trace'
    requires AllWent(g, aggs, hits, trace, matches, alarms) && Went(g, aggs[h], h, trace', m, fi)
    ensures Places(hits + [h], aggs) && AllWent(g, aggs, hits + [h], trace', matches + [m], alarms + [fi])
  {
    forall i | 0 <= i < |hits|
      ensures Went(g, aggs[hits[i]], hits[i], trace', matches[i], alarms[i])
    {
      WentForGood(g, aggs[hits[i]], hits[i], trace, trace', matches[i], alarms[i]);
    }
    hide Went;
  }

  lemma WentForGood(g: Given, agg: Aggregate, h: nat, trace: seq<P.Step>, trace': seq<P.Step>, m: EvaluationMatch,
                    fi: Alarm)
    requires trace <= trace' && Went(g, agg, h, trace, m, fi)
    ensures Went(g, agg, h, trace', m, fi)
  {
    hide AlertService.Wrote, EvaluationFor, Addressed, P.Follows;
    AlertService.WroteForGood(trace, trace', fi.when, g.me, EvaluationFor(g, agg, h), m.created, fi.mine);
  }

  /** The tasks of all matches, in order. */
  function TasksOf(alarms: seq<Alarm>): seq<Task<Notification.Delivery>> {
    if alarms == [] then [] else TasksOf(alarms[..|alarms| - 1]) + alarms[|alarms| - 1].tasks
  }

  lemma TasksOfMore(alarms: seq<Alarm>, fi: Alarm)
    ensures TasksOf(alarms + [fi]) == TasksOf(alarms) + fi.tasks
  {
    assert (alarms + [fi])[..|alarms|] == alarms;
  }

  /** The fresh tasks of the run: stored, under ids of their own that were free before. */
  ghost predicate NewTasks(tasks: seq<Task<Notification.Delivery>>, before: set<string>, after: set<string>) {
    && DistinctIds(tasks)
    && forall i :: 0 <= i < |tasks| ==> tasks[i].id in after && tasks[i].id !in before
  }

  lemma MoreTasks(tasks: seq<Task<Notification.Delivery>>, more: seq<Task<Notification.Delivery>>, before: set<string>,
                  mid: set<string>, after: set<string>)
    requires NewTasks(tasks, before, mid) && NewTasks(more, mid, after) && before <= mid <= after
    ensures NewTasks(tasks + more, before, after)
  {
  }

  // ---------------------------------------------------------------- the evaluator

  class Evaluator {
    const alerts: AlertService.Service
    const silence: Silences.Service
    const notify: Notification.Service

    constructor (alerts: AlertService.Service, silence: Silences.Service, notify: Notification.Service)
      ensures this.alerts == alerts && this.silence == silence && this.notify == notify
    {
      this.alerts := alerts;
      this.silence := silence;
      this.notify := notify;
    }

    ghost predicate Ready()
      reads alerts.repo, notify.repo
    {
      alerts.repo.Valid() && P.Free(alerts.repo.Mine()) && notify.repo.Serves(notify.workerID)
    }

    ghost function OwnSteps(): seq<P.Step>
      reads alerts.repo
    {
      AlertService.Own(alerts.repo.trace, alerts.repo.me)
    }

    /** One matching aggregate of a rule that is not a dry run, while other sessions work on all
        three tables. `freshID` and `taskIDs` are the generated ids, `message` and `encode` the
        texts made of the match, `silences` the silences at the time of the check. `fi` says which
        step of the run was the upsert, the row it left, the row ApplyEvaluation returned, and the
        tasks. */
    method Raise(rule: Rule, agg: Aggregate, value: real, message: string, now: int, freshID: string,
                 taskIDs: nat -> string, encode: Alert -> string, silences: SilenceTable, silenceLost: bool)
      returns (r: Result<EvaluationMatch>, ghost tasks: seq<Task<Notification.Delivery>>, ghost own: seq<P.Step>,
               ghost fi: Option<Alarm>)
      requires Ready() && forall id :: id in silences ==> silences[id].id == id
      modifies alerts.repo, notify.repo, silence.repo
      ensures Ready() && old(notify.repo.rows).Keys <= notify.repo.rows.Keys && OwnSteps() == old(OwnSteps()) + own
      ensures old(alerts.repo.trace) <= alerts.repo.trace
      ensures NewTasks(tasks, old(notify.repo.rows).Keys, notify.repo.rows.Keys)
      ensures own != [] ==>
        Evaluations(own) == [Evaluation(freshID, if rule.tenant == "" then "default" else rule.tenant,
                                        FingerprintFor(rule, agg),
                                        AlertKey(rule.tenant, rule.id, GroupScope(rule.groupBy, agg.labels),
                                                 agg.labels),
                                        value, message, now)]
      ensures r.Ok? ==>
        && r.value.scope == GroupScope(rule.groupBy, agg.labels) && r.value.value == value
        && r.value.message == message && !r.value.dryRun
        && (r.value.silenced <==> IsSilenced(rule, agg, silences, now))
        && own != [] && fi.Some? && fi.value.tasks == tasks
        && |old(alerts.repo.trace)| <= fi.value.when < |alerts.repo.trace|
        && AlertService.Wrote(alerts.repo.trace, fi.value.when, alerts.repo.me, Evaluations(own)[0], r.value.created,
                              fi.value.mine)
        && P.Follows(fi.value.mine, fi.value.alert) && r.value.alertID == fi.value.alert.id
        && |tasks| == (if r.value.silenced then 0 else |rule.channels|)
        && forall c :: 0 <= c < |tasks| ==>
             Addressed(tasks[c], taskIDs(c), fi.value.alert.id, rule, rule.channels[c], encode(fi.value.alert), now)
    {
      hide AlertService.Own, P.Feasible, P.RunTo, P.Follows, TableInv, NewTasks, Silences.Silenced, AlertService.Wrote,
           Evaluations, AlertService.TablesAt, Addressed;
      tasks, fi := [], None;
      var scope := BuildScope(rule.groupBy, agg.labels);
      var key := AlertKey(rule.tenant, rule.id, scope, agg.labels);
      NoTasks(notify.repo.rows.Keys);
      ghost var mine, when;
      var applied, created;
      applied, created, mine, own, when := alerts.ApplyEvaluation(freshID, key, value, message, now);
      if own != [] {
        OneEvaluation(own);
      }
      if applied.Err? {
        return Err(applied.error), tasks, own, fi;
      }
      var silenced;
      silenced, tasks := Announce(rule, agg, scope, applied.value, now, taskIDs, encode, silences, silenceLost);
      if silenced.Err? {
        return Err(silenced.error), tasks, own, fi;
      }
      fi := Some(Alarm(when, mine.value, applied.value, tasks));
      var reported := EvaluationMatch(applied.value.id, scope, value, message, created, silenced.value, false);
      return Ok(reported), tasks, own, fi;
    }

    /** What follows the upsert: unless a silence covers the match, a task for every channel. */
    method Announce(rule: Rule, agg: Aggregate, scope: string, row: Alert, now: int, taskIDs: nat -> string,
                    encode: Alert -> string, silences: SilenceTable, silenceLost: bool)
      returns (silenced: Result<bool>, ghost tasks: seq<Task<Notification.Delivery>>)
      requires notify.repo.Serves(notify.workerID) && scope == GroupScope(rule.groupBy, agg.labels)
      requires forall id :: id in silences ==> silences[id].id == id
      modifies notify.repo, silence.repo
      ensures notify.repo.Serves(notify.workerID) && old(notify.repo.rows).Keys <= notify.repo.rows.Keys
      ensures NewTasks(tasks, old(notify.repo.rows).Keys, notify.repo.rows.Keys)
      ensures silenced.Ok? ==>
        && (silenced.value <==> IsSilenced(rule, agg, silences, now))
        && |tasks| == (if silenced.value then 0 else |rule.channels|)
        && forall c :: 0 <= c < |tasks| ==>
             Addressed(tasks[c], taskIDs(c), row.id, rule, rule.channels[c], encode(row), now)
    {
      hide TableInv, NewTasks, Silences.Silenced, Addressed, Notification.StoredInTurn, GroupScope, Exec;
      tasks := [];
      NoTasks(notify.repo.rows.Keys);
      silence.repo.Meanwhile(silences);
      silenced := silence.IsSilenced(rule.tenant, rule.id, scope, agg.labels, now, silenceLost);
      if silenced.Err? || silenced.value {
        return;
      }
      ghost var before := notify.repo.rows.Keys;
      ghost var tables;
      var made, error;
      made, error, tables :=
        notify.EnqueueAlert(row.id, rule.id, rule.tenant, rule.channels, encode(row), now, taskIDs);
      AreNewTasks(made, before, notify.repo.rows.Keys);
      tasks := made;
      if error.Some? {
        return Err(error.value), tasks;
      }
      AreAddressed(tasks, taskIDs, row.id, rule, encode(row), now);
    }

    /** An evaluation without errors reports every match. A dry run touches nothing. Otherwise this
        session upserts the alert of each match once, in order and silenced or not, and there is a
        fresh task for every channel and every match that no silence of the tenant covers at the
        time of its check; `alarms` holds the account match by match. One that stops with an error
        has upserted the first `raised` matches, each once. Other sessions may work on alerts,
        silences and tasks all the while. */
    method EvaluateRule(rule: Rule, aggregates: Result<seq<Aggregate>>, now: int, freshIDs: nat -> string,
                        taskIDs: nat -> nat -> string, message: Aggregate -> string, encode: Alert -> string,
                        silencesAt: nat -> SilenceTable, silenceLost: nat -> bool)
      returns (matches: seq<EvaluationMatch>, error: Option<Error>, ghost tasks: seq<Task<Notification.Delivery>>,
               ghost own: seq<P.Step>, ghost raised: nat, ghost alarms: seq<Alarm>)
      requires Ready() && forall n: nat, id :: id in silencesAt(n) ==> silencesAt(n)[id].id == id
      modifies alerts.repo, notify.repo, silence.repo
      ensures Ready() && NewTasks(tasks, old(notify.repo.rows).Keys, notify.repo.rows.Keys)
      ensures OwnSteps() == old(OwnSteps()) + own
      ensures aggregates.Err? ==> error == Some(aggregates.error)
      ensures aggregates.Err? || rule.mode == "dry_run" ==>
        tasks == [] && own == [] && alerts.repo.trace == old(alerts.repo.trace)
          && notify.repo.rows == old(notify.repo.rows)
      ensures error.None? && aggregates.Ok? ==>
        var aggs := aggregates.value;
        var hits := Hits(rule, aggs);
        && Reported(Given(rule, now, freshIDs, taskIDs, message, encode, alerts.repo.me), aggs, hits, silencesAt,
                    matches)
        && (rule.mode != "dry_run" ==>
              && |tasks| == Loud(rule, aggs, hits, silencesAt, now) * |rule.channels|
              && raised == |hits|
              && tasks == TasksOf(alarms)
              && AllWent(Given(rule, now, freshIDs, taskIDs, message, encode, alerts.repo.me), aggs, hits,
                         alerts.repo.trace, matches, alarms))
      ensures aggregates.Ok? ==>
        var hits := Hits(rule, aggregates.value);
        && raised <= |hits|
        && (rule.mode != "dry_run" ==>
              AlertsFired(Given(rule, now, freshIDs, taskIDs, message, encode, alerts.repo.me), aggregates.value,
                          hits[..raised], own))
    {
      hide Verdict, AlertsFired, NewTasks, Reported, Progress, Loud, Silences.Silenced, AlertService.Own, P.Feasible,
           P.RunTo, TableInv, Hits, EvaluationFor, GroupScope, IsSilenced, FingerprintFor, AllWent, Went,
           AlertService.Wrote, Addressed, Evaluations, TasksOf, P.Follows;
      matches, tasks, own, raised, alarms := [], [], [], 0, [];
      ghost var rows0 := notify.repo.rows;
      ghost var g := Given(rule, now, freshIDs, taskIDs, message, encode, alerts.repo.me);
      NoTasks(rows0.Keys);
      NoHits(rule, if aggregates.Ok? then aggregates.value else []);
      if aggregates.Err? {
        return matches, Some(aggregates.error), tasks, own, raised, alarms;
      }
      var aggs := aggregates.value;
      ghost var hits: seq<nat> := [];
      NoProgressYet(g, aggs, silencesAt, rows0, alerts.repo.trace);
      for i := 0 to |aggs|
        invariant Ready() && hits == Hits(rule, aggs[..i]) && Places(hits, aggs) && OwnSteps() == old(OwnSteps()) + own
        invariant rule.mode == "dry_run" ==> alerts.repo.trace == old(alerts.repo.trace) && notify.repo.rows == rows0
        invariant Progress(g, aggs, hits, silencesAt, matches, tasks, own, rows0, notify.repo.rows)
        invariant rule.mode != "dry_run" ==>
          tasks == TasksOf(alarms) && AllWent(g, aggs, hits, alerts.repo.trace, matches, alarms)
      {
        HitsNext(rule, aggs, i);
        HitsPrefix(rule, aggs, i + 1);
        var ok, value := EvaluateCondition(rule.ruleType, rule.condition, aggs[i]);
        if !ok {
          continue;
        }
        if rule.mode == "dry_run" {
          var scope := BuildScope(rule.groupBy, aggs[i].labels);
          var reported := EvaluationMatch("", scope, value, message(aggs[i]), false, false, true);
          DryProgress(g, aggs, hits, silencesAt, matches, tasks, own, rows0, notify.repo.rows, i, reported);
          matches := matches + [reported];
        } else {
          ghost var rows, trace := notify.repo.rows, alerts.repo.trace;
          ghost var more, steps, fi;
          var result;
          result, more, steps, fi :=
            Raise(rule, aggs[i], value, message(aggs[i]), now, freshIDs(i), taskIDs(i), encode, silencesAt(i),
                  silenceLost(i));
          IsEvaluationFor(g, aggs[i], i);
          TasksProgress(g, aggs, hits, silencesAt, matches, tasks, own, rows0, rows, more, notify.repo.rows);
          StepsAdd(old(OwnSteps()), own, steps);
          if result.Err? {
            ghost var upserted := if steps == [] then hits else hits + [i];
            StoppedProgress(g, aggs, hits, silencesAt, matches, tasks, own, rows0, rows, i, steps);
            FirstOf(upserted, Hits(rule, aggs[..i + 1]), Hits(rule, aggs));
            return matches, Some(result.error), tasks + more, own + steps, |upserted|, alarms;
          }
          HasGone(g, aggs[i], i, alerts.repo.trace, result.value, fi.value);
          OneMoreWent(g, aggs, hits, i, trace, alerts.repo.trace, matches, alarms, result.value, fi.value);
          TasksOfMore(alarms, fi.value);
          RaisedProgress(g, aggs, hits, silencesAt, matches, tasks, own, rows0, rows, i, result.value, more, steps,
                         notify.repo.rows);
          matches := matches + [result.value];
          tasks := tasks + more;
          own := own + steps;
          alarms := alarms + [fi.value];
        }
        hits := hits + [i];
      }
      assert aggs[..|aggs|] == aggs;
      ProgressMeans(g, aggs, hits, silencesAt, matches, tasks, own, rows0, notify.repo.rows);
      assert hits[..|hits|] == hits;
      return matches, None, tasks, own, |hits|, alarms;
    }
  }

  /** Raise's words for an evaluation and EvaluateRule's. */
  lemma IsEvaluationFor(g: Given, agg: Aggregate, h: nat)
    ensures EvaluationFor(g, agg, h)
         == Evaluation(g.freshIDs(h), if g.rule.tenant == "" then "default" else g.rule.tenant,
                       FingerprintFor(g.rule, agg),
                       AlertKey(g.rule.tenant, g.rule.id, GroupScope(g.rule.groupBy, agg.labels), agg.labels),
                       Verdict(g.rule.ruleType, g.rule.condition, agg).1, g.message(agg), g.now)
  {
  }

  lemma HasGone(g: Given, agg: Aggregate, h: nat, trace: seq<P.Step>, m: EvaluationMatch, fi: Alarm)
    requires AlertService.Wrote(trace, fi.when, g.me, EvaluationFor(g, agg, h), m.created, fi.mine)
    requires P.Follows(fi.mine, fi.alert) && m.alertID == fi.alert.id
    requires |fi.tasks| == (if m.silenced then 0 else |g.rule.channels|)
    requires forall c :: 0 <= c < |fi.tasks| ==>
      Addressed(fi.tasks[c], g.taskIDs(h)(c), fi.alert.id, g.rule, g.rule.channels[c], g.encode(fi.alert), g.now)
    ensures Went(g, agg, h, trace, m, fi)
  {
  }

  lemma AreAddressed(tasks: seq<Task<Notification.Delivery>>, taskIDs: nat -> string, alertID: string, rule: Rule,
                     payload: string, now: int)
    requires |tasks| <= |rule.channels|
    requires forall i :: 0 <= i < |tasks| ==>
      tasks[i] == Notification.NewTask(taskIDs(i), alertID, rule.id, rule.tenant, rule.channels[i], payload, now)
    ensures forall i :: 0 <= i < |tasks| ==>
      Addressed(tasks[i], taskIDs(i), alertID, rule, rule.channels[i], payload, now)
  {
  }

  lemma FirstOf(a: seq<nat>, b: seq<nat>, c: seq<nat>)
    requires a <= b <= c
    ensures |a| <= |c| && c[..|a|] == a
  {
  }

  lemma StepsAdd(a: seq<P.Step>, b: seq<P.Step>, c: seq<P.Step>)
    ensures a + b + c == a + (b + c)
  {
  }

  lemma NoTasks(keys: set<string>)
    ensures NewTasks([], keys, keys) && forall more :: keys <= more ==> NewTasks([], keys, more)
  {
  }

  lemma AreNewTasks(tasks: seq<Task<Notification.Delivery>>, before: set<string>, after: set<string>)
    requires DistinctIds(tasks)
    requires forall i :: 0 <= i < |tasks| ==> tasks[i].id in after && tasks[i].id !in before
    ensures NewTasks(tasks, before, after)
  {
  }

  /** The matches name the scope, the value and the text of every hit, in order. */
  ghost predicate Reported(g: Given, aggs: seq<Aggregate>, hits: seq<nat>, silencesAt: nat -> SilenceTable,
                           matches: seq<EvaluationMatch>)
    requires Places(hits, aggs)
  {
    && |matches| == |hits|
    && forall i :: 0 <= i < |hits| ==> ReportedOne(g, aggs[hits[i]], silencesAt(hits[i]), matches[i])
  }

  ghost predicate ReportedOne(g: Given, agg: Aggregate, silences: SilenceTable, m: EvaluationMatch) {
    && m.scope == GroupScope(g.rule.groupBy, agg.labels)
    && m.value == Verdict(g.rule.ruleType, g.rule.condition, agg).1 && m.message == g.message(agg)
    && (m.dryRun <==> g.rule.mode == "dry_run")
    && (m.dryRun ==> m.alertID == "" && !m.created)
    && (m.silenced <==> g.rule.mode != "dry_run" && IsSilenced(g.rule, agg, silences, g.now))
  }

  /** The evaluation after some hits. */
  ghost predicate Progress(g: Given, aggs: seq<Aggregate>, hits: seq<nat>, silencesAt: nat -> SilenceTable,
                           matches: seq<EvaluationMatch>, tasks: seq<Task<Notification.Delivery>>, own: seq<P.Step>,
                           rows0: Table<Notification.Delivery>, rows: Table<Notification.Delivery>)
    requires Places(hits, aggs)
  {
    && rows0.Keys <= rows.Keys && NewTasks(tasks, rows0.Keys, rows.Keys)
    && Reported(g, aggs, hits, silencesAt, matches)
    && if g.rule.mode == "dry_run" then tasks == [] && own == []
       else
         && |tasks| == Loud(g.rule, aggs, hits, silencesAt, g.now) * |g.rule.channels|
         && AlertsFired(g, aggs, hits, own)
  }

  lemma NoProgressYet(g: Given, aggs: seq<Aggregate>, silencesAt: nat -> SilenceTable,
                      rows: Table<Notification.Delivery>, trace: seq<P.Step>)
    ensures Progress(g, aggs, [], silencesAt, [], [], [], rows, rows)
    ensures AllWent(g, aggs, [], trace, [], []) && TasksOf([]) == []
  {
  }

  lemma ProgressMeans(g: Given, aggs: seq<Aggregate>, hits: seq<nat>, silencesAt: nat -> SilenceTable,
                      matches: seq<EvaluationMatch>, tasks: seq<Task<Notification.Delivery>>, own: seq<P.Step>,
                      rows0: Table<Notification.Delivery>, rows: Table<Notification.Delivery>)
    requires Places(hits, aggs) && Progress(g, aggs, hits, silencesAt, matches, tasks, own, rows0, rows)
    ensures NewTasks(tasks, rows0.Keys, rows.Keys) && Reported(g, aggs, hits, silencesAt, matches)
    ensures g.rule.mode == "dry_run" ==> tasks == [] && own == []
    ensures g.rule.mode != "dry_run" ==>
      && |tasks| == Loud(g.rule, aggs, hits, silencesAt, g.now) * |g.rule.channels|
      && AlertsFired(g, aggs, hits, own)
  {
  }

  lemma ReportedMore(g: Given, aggs: seq<Aggregate>, hits: seq<nat>, silencesAt: nat -> SilenceTable,
                     matches: seq<EvaluationMatch>, h: nat, m: EvaluationMatch)
    requires Places(hits, aggs) && h < |aggs| && Reported(g, aggs, hits, silencesAt, matches)
    requires ReportedOne(g, aggs[h], silencesAt(h), m)
    ensures Places(hits + [h], aggs) && Reported(g, aggs, hits + [h], silencesAt, matches + [m])
  {
    hide ReportedOne;
  }

  lemma DryProgress(g: Given, aggs: seq<Aggregate>, hits: seq<nat>, silencesAt: nat -> SilenceTable,
                    matches: seq<EvaluationMatch>, tasks: seq<Task<Notification.Delivery>>, own: seq<P.Step>,
                    rows0: Table<Notification.Delivery>, rows: Table<Notification.Delivery>, h: nat,
                    m: EvaluationMatch)
    requires Places(hits, aggs) && h < |aggs|
    requires Progress(g, aggs, hits, silencesAt, matches, tasks, own, rows0, rows) && g.rule.mode == "dry_run"
    requires m == EvaluationMatch("", GroupScope(g.rule.groupBy, aggs[h].labels),
                                  Verdict(g.rule.ruleType, g.rule.condition, aggs[h]).1, g.message(aggs[h]), false,
                                  false, true)
    ensures Places(hits + [h], aggs)
    ensures Progress(g, aggs, hits + [h], silencesAt, matches + [m], tasks, own, rows0, rows)
  {
    hide Verdict, NewTasks, Silences.Silenced, Reported, GroupScope;
    ReportedMore(g, aggs, hits, silencesAt, matches, h, m);
  }

  lemma TasksProgress(g: Given, aggs: seq<Aggregate>, hits: seq<nat>, silencesAt: nat -> SilenceTable,
                      matches: seq<EvaluationMatch>, tasks: seq<Task<Notification.Delivery>>, own: seq<P.Step>,
                      rows0: Table<Notification.Delivery>, rows: Table<Notification.Delivery>,
                      more: seq<Task<Notification.Delivery>>, rows': Table<Notification.Delivery>)
    requires Places(hits, aggs) && Progress(g, aggs, hits, silencesAt, matches, tasks, own, rows0, rows)
    requires rows.Keys <= rows'.Keys && NewTasks(more, rows.Keys, rows'.Keys)
    ensures NewTasks(tasks + more, rows0.Keys, rows'.Keys) && rows0.Keys <= rows'.Keys
  {
    hide NewTasks, Reported, AlertsFired, Loud;
    MoreTasks(tasks, more, rows0.Keys, rows.Keys, rows'.Keys);
  }

  lemma RaisedProgress(g: Given, aggs: seq<Aggregate>, hits: seq<nat>, silencesAt: nat -> SilenceTable,
                       matches: seq<EvaluationMatch>, tasks: seq<Task<Notification.Delivery>>, own: seq<P.Step>,
                       rows0: Table<Notification.Delivery>, rows: Table<Notification.Delivery>, h: nat,
                       m: EvaluationMatch, more: seq<Task<Notification.Delivery>>, steps: seq<P.Step>,
                       rows': Table<Notification.Delivery>)
    requires Places(hits, aggs) && h < |aggs|
    requires Progress(g, aggs, hits, silencesAt, matches, tasks, own, rows0, rows) && g.rule.mode != "dry_run"
    requires NewTasks(tasks + more, rows0.Keys, rows'.Keys) && rows0.Keys <= rows'.Keys
    requires m.scope == GroupScope(g.rule.groupBy, aggs[h].labels)
      && m.value == Verdict(g.rule.ruleType, g.rule.condition, aggs[h]).1 && m.message == g.message(aggs[h])
    requires !m.dryRun && (m.silenced <==> IsSilenced(g.rule, aggs[h], silencesAt(h), g.now))
    requires |more| == if m.silenced then 0 else |g.rule.channels|
    requires Evaluations(steps) == [EvaluationFor(g, aggs[h], h)]
    ensures Places(hits + [h], aggs)
    ensures Progress(g, aggs, hits + [h], silencesAt, matches + [m], tasks + more, own + steps, rows0, rows')
  {
    hide Verdict, NewTasks, IsSilenced, AlertsFired, Reported, GroupScope, EvaluationFor, Evaluations;
    ReportedMore(g, aggs, hits, silencesAt, matches, h, m);
    LoudNext(g.rule, aggs, hits, h, silencesAt, g.now);
    FiredOneMore(g, aggs, hits, h, own, steps);
    Channels(Loud(g.rule, aggs, hits, silencesAt, g.now), |g.rule.channels|);
  }

  /** An evaluation that stops at this hit has upserted the hits before it, and maybe this one. */
  lemma StoppedProgress(g: Given, aggs: seq<Aggregate>, hits: seq<nat>, silencesAt: nat -> SilenceTable,
                        matches: seq<EvaluationMatch>, tasks: seq<Task<Notification.Delivery>>, own: seq<P.Step>,
                        rows0: Table<Notification.Delivery>, rows: Table<Notification.Delivery>, h: nat,
                        steps: seq<P.Step>)
    requires Places(hits, aggs) && h < |aggs|
    requires Progress(g, aggs, hits, silencesAt, matches, tasks, own, rows0, rows) && g.rule.mode != "dry_run"
    requires steps == [] || Evaluations(steps) == [EvaluationFor(g, aggs[h], h)]
    ensures Places(hits + [h], aggs)
    ensures AlertsFired(g, aggs, if steps == [] then hits else hits + [h], own + steps)
  {
    hide NewTasks, Reported, AlertsFired, Evaluations, EvaluationFor, Loud;
    if steps == [] {
      assert own + [] == own;
    } else {
      FiredOneMore(g, aggs, hits, h, own, steps);
    }
  }

  lemma Channels(n: nat, channels: nat)
    ensures (n + 1) * channels == n * channels + channels
  {
  }

  // ---------------------------------------------------------------- one upsert per alert

  /** GROUP BY labels: no two aggregates of one query have the same. */
  predicate DistinctLabels(aggs: seq<Aggregate>) {
    forall i, j :: 0 <= i < j < |aggs| ==> aggs[i].labels != aggs[j].labels
  }

  /** The labels can be told from their print, and the scope does not open one itself. */
  predicate Tellable(rule: Rule, agg: Aggregate) {
    OpensNoPrint(GroupScope(rule.groupBy, agg.labels)) && Clean(agg.labels)
  }

  /** Tenant and rule are the same on both sides, so the scope and the labels decide. */
  lemma TellableKeysDiffer(rule: Rule, a: Aggregate, b: Aggregate)
    requires Tellable(rule, a) && Tellable(rule, b) && a.labels != b.labels
    ensures FingerprintFor(rule, a) != FingerprintFor(rule, b)
  {
    hide GroupScope, Print, OpensNoPrint, Clean;
    var sa, sb := GroupScope(rule.groupBy, a.labels), GroupScope(rule.groupBy, b.labels);
    JoinFour(rule.tenant, rule.id, sa, Print(a.labels), "::");
    JoinFour(rule.tenant, rule.id, sb, Print(b.labels), "::");
    if FingerprintFor(rule, a) == FingerprintFor(rule, b) {
      SameTail(rule.tenant + "::", rule.id + "::" + (sa + "::" + Print(a.labels)),
               rule.id + "::" + (sb + "::" + Print(b.labels)));
      SameTail(rule.id + "::", sa + "::" + Print(a.labels), sb + "::" + Print(b.labels));
      PrintOpens(a.labels);
      PrintOpens(b.labels);
      CutPrintFinds(sa, Print(a.labels));
      CutPrintFinds(sb, Print(b.labels));
      assert Print(a.labels) == Print(b.labels);
      PrintRoundTrip(a.labels);
      PrintRoundTrip(b.labels);
    }
  }

  lemma SameTail(head: string, a: string, b: string)
    requires head + a == head + b
    ensures a == b
  {
    assert (head + a)[|head|..] == a && (head + b)[|head|..] == b;
  }

  /** A group-by value that opens a print: two aggregates with clean labels of their own
      share one alert, whatever the text t. */
  lemma ScopeMustNotOpenAPrint(rule: Rule, a: Aggregate, b: Aggregate, t: string)
    requires rule.groupBy == ["k"] && ',' !in t
    requires a.labels == map["k" := "::" + ("{a=" + t)]
    requires b.labels == map["a" := t + "::" + ("{k=" + ("::" + ("{a=" + t)))]
    ensures Clean(a.labels) && Clean(b.labels) && a.labels != b.labels
    ensures !OpensNoPrint(GroupScope(rule.groupBy, a.labels))
    ensures FingerprintFor(rule, a) == FingerprintFor(rule, b)
  {
    hide Print, OpensNoPrint, Fingerprint, GroupScope;
    assert "k" in a.labels && "a" in b.labels && "k" !in b.labels;
    assert LookUp(b.labels, "k") == "";
    ScopeOfOne(a.labels, "k");
    ScopeOfOne(b.labels, "k");
    var x := "{a=" + t;
    var va, sa := "::" + x, "k=" + ("::" + x);
    assert GroupScope(rule.groupBy, a.labels) == sa by {
      assert "k" + "=" == "k=";
    }
    assert GroupScope(rule.groupBy, b.labels) == "k=";
    ConcatAssociates("k=", "::", x);
    OpensInside(sa, "k=", x);
    SamePrintTails(x, t, va, Print(a.labels), Print(b.labels));
    SameFingerprints(rule.tenant, rule.id, sa, "k=", a.labels, b.labels);
  }

  lemma ScopeOfOne(labels: LabelMap, k: string)
    ensures GroupScope([k], labels) == k + "=" + LookUp(labels, k)
  {
    assert GroupParts([k], labels) == [k + "=" + LookUp(labels, k)];
  }

  /** One print inside the other. */
  lemma SamePrintTails(x: string, t: string, va: string, pa: string, pb: string)
    requires x == "{a=" + t && va == "::" + x
    requires pa == Print(map["k" := va]) && pb == Print(map["a" := t + "::" + ("{k=" + va)])
    ensures pb == x + "::" + pa
    ensures "k=" + ("::" + x) + "::" + pa == "k=" + "::" + pb
  {
    hide Print;
    var vb := t + "::" + ("{k=" + va);
    PrintOne("k", va);
    PrintOne("a", vb);
    assert pa == "{k=" + va + "}";
    assert pb == "{a=" + vb + "}";
    assert "{a=" + (t + "::" + ("{k=" + va)) + "}" == ("{a=" + t) + "::" + ("{k=" + va + "}");
  }

  lemma SameFingerprints(tenant: string, ruleID: string, sa: string, sb: string, la: LabelMap, lb: LabelMap)
    requires sa + "::" + Print(la) == sb + "::" + Print(lb)
    ensures Fingerprint(ruleID, tenant, sa, la, []) == Fingerprint(ruleID, tenant, sb, lb, [])
  {
    hide Print;
    JoinFour(tenant, ruleID, sa, Print(la), "::");
    JoinFour(tenant, ruleID, sb, Print(lb), "::");
  }

  lemma {:induction false} OpensInside(f: string, before: string, printed: string)
    requires f == before + "::" + printed && printed != "" && printed[0] == '{'
    ensures !OpensNoPrint(f)
  {
    if before == "" {
      assert f[0] == ':' == f[1] && f[2] == '{';
      assert f[..3] == "::{";
    } else {
      assert f[1..] == before[1..] + "::" + printed;
      OpensInside(f[1..], before[1..], printed);
    }
  }

  lemma IsHit(rule: Rule, agg: Aggregate)
    ensures Hit(rule, agg) <==> Verdict(rule.ruleType, rule.condition, agg).0
  {
  }

  lemma {:induction false} UpsertsAmong(own: seq<P.Step>, f: string)
    requires forall i :: 0 <= i < |Evaluations(own)| ==> Evaluations(own)[i].fingerprint != f
    ensures Upserts(own, f) == 0
  {
    if own != [] {
      var n := |own| - 1;
      assert Evaluations(own[..n]) <= Evaluations(own);
      if own[n].Upsert? {
        assert Evaluations(own)[|Evaluations(own[..n])|] == own[n].e;
      }
      UpsertsAmong(own[..n], f);
    }
  }

  lemma {:induction false} DistinctUpserts(own: seq<P.Step>, f: string)
    requires forall i, j :: 0 <= i < j < |Evaluations(own)| ==>
      Evaluations(own)[i].fingerprint != Evaluations(own)[j].fingerprint
    ensures Upserts(own, f) <= 1
  {
    if own != [] {
      var n := |own| - 1;
      var before := Evaluations(own[..n]);
      assert before <= Evaluations(own);
      if own[n].Upsert? && own[n].e.fingerprint == f {
        assert Evaluations(own)[|before|] == own[n].e;
        UpsertsAmong(own[..n], f);
      } else {
        DistinctUpserts(own[..n], f);
      }
    }
  }

  /** Over one query's aggregates with tellable labels, an evaluation upserts every alert at most
      once, whether it goes through or stops with an error: `own` are the steps of its session,
      which upserted the first n hits. */
  lemma EachAlertFiresOnce(g: Given, aggs: seq<Aggregate>, n: nat, own: seq<P.Step>, f: string)
    requires DistinctLabels(aggs) && n <= |Hits(g.rule, aggs)|
    requires forall i :: 0 <= i < |aggs| && Hit(g.rule, aggs[i]) ==> Tellable(g.rule, aggs[i])
    requires AlertsFired(g, aggs, Hits(g.rule, aggs)[..n], own)
    ensures Upserts(own, f) <= 1
  {
    hide FingerprintFor, Tellable, Hit, Evaluations;
    var hits := Hits(g.rule, aggs);
    forall i | 0 <= i < n
      ensures Hit(g.rule, aggs[hits[i]])
    {
      IsHit(g.rule, aggs[hits[i]]);
      assert hits[i] in hits;
    }
    forall i, j | 0 <= i < j < n
      ensures Evaluations(own)[i].fingerprint != Evaluations(own)[j].fingerprint
    {
      TellableKeysDiffer(g.rule, aggs[hits[i]], aggs[hits[j]]);
    }
    DistinctUpserts(own, f);
  }
}
