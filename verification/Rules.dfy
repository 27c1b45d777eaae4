/** Alert rules: what may be stored, and the service calls that change a stored rule. */
module Rules {
  import opened Prelude
  import opened Labels
  import opened Conditions
  import opened Backoff

  datatype Rule = Rule(
    id: string,
    tenant: string,
    name: string,
    description: string,
    dataSource: string,
    eventType: string,
    ruleType: string,
    condition: Condition,
    severity: string,
    enabled: bool,
    mode: string,
    window: int,
    interval: int,
    labels: LabelMap,
    groupBy: seq<string>,
    suppressBy: seq<string>,
    channels: seq<string>,
    version: int,
    createdAt: Option<int>,
    updatedAt: int)

  const MINUTE := 60 * SECOND

  // ---------------------------------------------------------------- values

  function Normalize(r: Rule, freshID: string, now: int): Result<Rule> {
    if r.name == "" || r.dataSource == "" then Err(Invalid) else
      var mode := if r.mode == "" then "active" else r.mode;
      Ok(r.(id := if r.id == "" then freshID else r.id,
            tenant := if r.tenant == "" then "default" else r.tenant,
            eventType := if r.eventType == "" then "metric" else r.eventType,
            ruleType := if r.ruleType == "" then "threshold" else r.ruleType,
            mode := mode,
            enabled := r.enabled || mode != "paused",
            severity := if r.severity == "" then "warning" else r.severity,
            window := if r.window <= 0 then 5 * MINUTE else r.window,
            interval := if r.interval <= 0 then MINUTE else r.interval,
            version := if r.version == 0 then 1 else r.version,
            createdAt := if r.createdAt.None? then Some(now) else r.createdAt,
            updatedAt := now))
  }

  /** validateRule: the part that the type evaluates is there, and the name is not blank. Types
      it does not know pass. */
  predicate ValidRule(r: Rule) {
    && !Blank(r.name)
    && match r.ruleType
       case "threshold" => r.condition.field != "" && r.condition.operator != ""
       case "percent" => r.condition.percent.Some?
       case "change" => r.condition.change.Some?
       case "window" => r.condition.window.Some?
       case "compound" => |r.condition.children| > 0
       case _ => true
  }

  /** What a new rule becomes: it needs a name and a source; what else it leaves open gets a default,
      what it brings stays; and it is evaluated unless it is created paused. */
  lemma NormalizeFills(r: Rule, freshID: string, now: int)
    ensures Normalize(r, freshID, now).Err? <==> r.name == "" || r.dataSource == ""
    ensures Normalize(r, freshID, now).Ok? ==>
      var x := Normalize(r, freshID, now).value;
      && x.name == r.name && x.description == r.description && x.dataSource == r.dataSource
      && x.condition == r.condition && x.labels == r.labels && x.groupBy == r.groupBy
      && x.suppressBy == r.suppressBy && x.channels == r.channels
      && x.id == (if r.id != "" then r.id else freshID)
      && x.tenant == (if r.tenant != "" then r.tenant else "default")
      && x.eventType == (if r.eventType != "" then r.eventType else "metric")
      && x.ruleType == (if r.ruleType != "" then r.ruleType else "threshold")
      && x.severity == (if r.severity != "" then r.severity else "warning")
      && x.mode == (if r.mode != "" then r.mode else "active")
      && (ToEvaluate(x) <==> r.mode != "paused")
      && x.window == (if r.window > 0 then r.window else 300_000_000_000)
      && x.interval == (if r.interval > 0 then r.interval else 60_000_000_000)
      && x.version == (if r.version != 0 then r.version else 1)
      && x.createdAt == Some(if r.createdAt.Some? then r.createdAt.value else now) && x.updatedAt == now
  {
  }

  /** When validateRule refuses a rule: its name is blank, or the part that its type compares is
      missing. */
  lemma RefusedWhen(r: Rule)
    ensures !ValidRule(r) <==>
      || (forall i :: 0 <= i < |r.name| ==> IsSpace(r.name[i]))
      || (r.ruleType == "threshold" && "" in {r.condition.field, r.condition.operator})
      || (r.ruleType == "percent" && r.condition.percent == None)
      || (r.ruleType == "change" && r.condition.change == None)
      || (r.ruleType == "window" && r.condition.window == None)
      || (r.ruleType == "compound" && r.condition.children == [])
  {
  }

  const EVALUATED := {"threshold", "percent", "change", "window", "compound"}

  /** The types the evaluator knows have, in a valid rule, something to compare; the others never
      match. */
  lemma ValidRulesCompareSomething(r: Rule, agg: Aggregate)
    requires ValidRule(r)
    ensures r.ruleType in EVALUATED && r.ruleType != "compound" ==> TestOf(r.ruleType, r.condition, agg).Some?
    ensures r.ruleType !in EVALUATED ==> !Verdict(r.ruleType, r.condition, agg).0
  {
  }

  /** So a valid rule that matches reports the value of a leaf that holds. */
  lemma ValidMatchIsWitnessed(r: Rule, agg: Aggregate)
    requires ValidRule(r) && Verdict(r.ruleType, r.condition, agg).0
    ensures Satisfied(r.ruleType, r.condition, agg)
    ensures Witnessed(r.ruleType, r.condition, agg, Verdict(r.ruleType, r.condition, agg).1)
  {
    VerdictIsMeaning(r.ruleType, r.condition, agg);
  }

  predicate ConditionEmpty(c: Condition) {
    && c.metric == "" && c.field == "" && c.operator == "" && c.value == 0.0
    && c.percent.None? && c.change.None? && c.window.None?
    && c.logic == "" && |c.children| == 0
  }

  // ---------------------------------------------------------------- patches

  function Over(patch: string, existing: string): string {
    if patch != "" then patch else existing
  }

  function OverList<T>(patch: seq<T>, existing: seq<T>): seq<T> {
    if |patch| > 0 then patch else existing
  }

  /** The rule with the non-empty fields of the patch; version and times are the caller's. */
  function Merged(r: Rule, patch: Rule): Rule {
    r.(name := Over(patch.name, r.name),
       description := Over(patch.description, r.description),
       dataSource := Over(patch.dataSource, r.dataSource),
       eventType := Over(patch.eventType, r.eventType),
       severity := Over(patch.severity, r.severity),
       ruleType := Over(patch.ruleType, r.ruleType),
       mode := Over(patch.mode, r.mode),
       enabled := r.enabled || patch.enabled,
       condition := if ConditionEmpty(patch.condition) then r.condition else patch.condition,
       window := if patch.window > 0 then patch.window else r.window,
       interval := if patch.interval > 0 then patch.interval else r.interval,
       labels := if |patch.labels| > 0 then patch.labels else r.labels,
       groupBy := OverList(patch.groupBy, r.groupBy),
       suppressBy := OverList(patch.suppressBy, r.suppressBy),
       channels := OverList(patch.channels, r.channels))
  }

  /** Merging is associative: q over p over r is (q over p) over r. What that means for the calls
      is UpdatesCompose. */
  lemma MergingComposes(r: Rule, p: Rule, q: Rule)
    ensures Merged(Merged(r, p), q) == Merged(r, Merged(p, q))
    ensures Merged(Merged(r, p), p) == Merged(r, p)
  {
  }

  /** The rule after a patch, field by field: what the patch leaves empty stays. */
  predicate Patched(r: Rule, patch: Rule, x: Rule) {
    && x.id == r.id && x.tenant == r.tenant && x.createdAt == r.createdAt
    && x.name == (if patch.name == "" then r.name else patch.name)
    && x.description == (if patch.description == "" then r.description else patch.description)
    && x.dataSource == (if patch.dataSource == "" then r.dataSource else patch.dataSource)
    && x.eventType == (if patch.eventType == "" then r.eventType else patch.eventType)
    && x.severity == (if patch.severity == "" then r.severity else patch.severity)
    && x.ruleType == (if patch.ruleType == "" then r.ruleType else patch.ruleType)
    && x.mode == (if patch.mode == "" then r.mode else patch.mode)
    && (x.enabled <==> r.enabled || patch.enabled)
    && x.condition == (if patch.condition == Condition("", "", "", 0.0, None, None, None, "", []) then r.condition
                       else patch.condition)
    && x.window == (if patch.window <= 0 then r.window else patch.window)
    && x.interval == (if patch.interval <= 0 then r.interval else patch.interval)
    && x.labels == (if patch.labels == map[] then r.labels else patch.labels)
    && x.groupBy == (if patch.groupBy == [] then r.groupBy else patch.groupBy)
    && x.suppressBy == (if patch.suppressBy == [] then r.suppressBy else patch.suppressBy)
    && x.channels == (if patch.channels == [] then r.channels else patch.channels)
  }

  lemma UpdatedIsPatched(r: Rule, patch: Rule, now: int)
    ensures var x := Updated(r, patch, now);
      Patched(r, patch, x) && x.version == r.version + 1 && x.updatedAt == now
  {
  }

  lemma FirstOfTwo(a: string, b: string)
    ensures FirstNonEmpty([a, b]) == Over(a, b)
  {
    assert [a, b][1..] == [b] && [b][1..] == [];
    assert FirstNonEmpty([b]) == b;
  }

  /** The three stretches of Update's merge. */
  method MergeTexts(rule: Rule, patch: Rule) returns (r: Rule)
    ensures r == rule.(name := Over(patch.name, rule.name), description := Over(patch.description, rule.description),
                       dataSource := Over(patch.dataSource, rule.dataSource),
                       eventType := Over(patch.eventType, rule.eventType),
                       severity := Over(patch.severity, rule.severity))
  {
    r := rule;
    FirstOfTwo(patch.name, r.name);
    r := r.(name := FirstNonEmpty([patch.name, r.name]));
    FirstOfTwo(patch.description, r.description);
    r := r.(description := FirstNonEmpty([patch.description, r.description]));
    FirstOfTwo(patch.dataSource, r.dataSource);
    r := r.(dataSource := FirstNonEmpty([patch.dataSource, r.dataSource]));
    FirstOfTwo(patch.eventType, r.eventType);
    r := r.(eventType := FirstNonEmpty([patch.eventType, r.eventType]));
    FirstOfTwo(patch.severity, r.severity);
    r := r.(severity := FirstNonEmpty([patch.severity, r.severity]));
  }

  method MergeKind(rule: Rule, patch: Rule) returns (r: Rule)
    ensures r == rule.(ruleType := Over(patch.ruleType, rule.ruleType), mode := Over(patch.mode, rule.mode),
                       enabled := rule.enabled || patch.enabled,
                       condition := if ConditionEmpty(patch.condition) then rule.condition else patch.condition)
  {
    hide ConditionEmpty;
    r := rule;
    if patch.ruleType != "" {
      r := r.(ruleType := patch.ruleType);
    }
    if patch.mode != "" {
      r := r.(mode := patch.mode);
    }
    if patch.enabled {
      r := r.(enabled := true);
    }
    if !ConditionEmpty(patch.condition) {
      r := r.(condition := patch.condition);
    }
  }

  method MergeLists(rule: Rule, patch: Rule) returns (r: Rule)
    ensures r == rule.(window := if patch.window > 0 then patch.window else rule.window,
                       interval := if patch.interval > 0 then patch.interval else rule.interval,
                       labels := if |patch.labels| > 0 then patch.labels else rule.labels,
                       groupBy := OverList(patch.groupBy, rule.groupBy),
                       suppressBy := OverList(patch.suppressBy, rule.suppressBy),
                       channels := OverList(patch.channels, rule.channels))
  {
    r := rule;
    if patch.window > 0 {
      r := r.(window := patch.window);
    }
    if patch.interval > 0 {
      r := r.(interval := patch.interval);
    }
    if |patch.labels| > 0 {
      r := r.(labels := patch.labels);
    }
    if |patch.groupBy| > 0 {
      r := r.(groupBy := patch.groupBy);
    }
    if |patch.suppressBy| > 0 {
      r := r.(suppressBy := patch.suppressBy);
    }
    if |patch.channels| > 0 {
      r := r.(channels := patch.channels);
    }
  }

  method Merge(rule: Rule, patch: Rule) returns (r: Rule)
    ensures r == Merged(rule, patch)
  {
    hide ConditionEmpty;
    r := MergeTexts(rule, patch);
    r := MergeKind(r, patch);
    r := MergeLists(r, patch);
  }

  // ---------------------------------------------------------------- the table

  /** Durations are stored in whole seconds. */
  function Stored(r: Rule): Rule {
    r.(window := Quot(r.window, SECOND) * SECOND, interval := Quot(r.interval, SECOND) * SECOND)
  }

  /** What is stored is what was validated, except for fractions of a second: a window shorter
      than a second is stored as none. */
  lemma StoringKeepsRule(r: Rule)
    ensures ValidRule(Stored(r)) <==> ValidRule(r)
    ensures r.window >= 0 && r.interval >= 0 ==>
      (Stored(r) == r <==> r.window % SECOND == 0 && r.interval % SECOND == 0)
    ensures 0 < r.window ==> (Stored(r).window > 0 <==> r.window >= SECOND)
    ensures Stored(r).(window := r.window, interval := r.interval) == r
    ensures r.window >= 0 ==> Stored(r).window <= r.window < Stored(r).window + SECOND
    ensures r.interval >= 0 ==> Stored(r).interval <= r.interval < Stored(r).interval + SECOND
  {
    var q := r.window / SECOND;
    assert r.window == q * SECOND + r.window % SECOND;
    assert r.interval == r.interval / SECOND * SECOND + r.interval % SECOND;
  }

  /** UNIQUE (tenant, name). */
  predicate NameTaken(rows: map<string, Rule>, r: Rule) {
    exists id :: id in rows && id != r.id && rows[id].tenant == r.tenant && rows[id].name == r.name
  }

  /** Every stored rule passes validateRule and has its name to itself. */
  ghost predicate AllValid(rows: map<string, Rule>) {
    forall id :: id in rows ==> ValidRule(rows[id]) && rows[id].id == id && !NameTaken(rows, rows[id])
  }

  /** ListForEvaluation's WHERE clause. */
  predicate ToEvaluate(r: Rule) {
    r.enabled && r.mode != "paused"
  }

  class PGRepository {
    var rows: map<string, Rule>

    constructor ()
      ensures rows == map[]
    {
      rows := map[];
    }

    method Create(r: Rule, fate: Fate) returns (created: Result<Rule>)
      modifies this
      ensures created == if fate != Fine || r.id in old(rows) || NameTaken(old(rows), r) then Err(Storage) else Ok(r)
      ensures rows == if fate == Lost || r.id in old(rows) || NameTaken(old(rows), r) then old(rows)
                      else old(rows)[r.id := Stored(r)]
    {
      if fate == Lost || r.id in rows || NameTaken(rows, r) {
        return Err(Storage);
      }
      rows := rows[r.id := Stored(r)];
      return if fate == Fine then Ok(r) else Err(Storage);
    }

    method Get(tenant: string, id: string, lost: bool) returns (r: Result<Rule>)
      ensures r == if lost then Err(Storage)
                   else if id in rows && rows[id].tenant == tenant then Ok(rows[id]) else Err(NotFound)
    {
      if lost {
        return Err(Storage);
      }
      if id !in rows || rows[id].tenant != tenant {
        return Err(NotFound);
      }
      return Ok(rows[id]);
    }

    /** Overwrites the whole row, whatever version it has by now. */
    method Update(r: Rule, fate: Fate) returns (updated: Result<Rule>)
      modifies this
      ensures updated == if fate != Fine then Err(Storage)
                         else if r.id !in old(rows) || old(rows)[r.id].tenant != r.tenant then Err(NotFound)
                         else if NameTaken(old(rows), r) then Err(Storage)
                         else Ok(r)
      ensures rows == if fate != Lost && Fits(old(rows), r) then Written(old(rows), r) else old(rows)
    {
      if fate != Lost && Fits(rows, r) {
        rows := rows[r.id := Stored(r).(createdAt := rows[r.id].createdAt)];
        return if fate == Fine then Ok(r) else Err(Storage);
      }
      if fate == Fine && (r.id !in rows || rows[r.id].tenant != r.tenant) {
        return Err(NotFound);
      }
      return Err(Storage);
    }

    /** Other sessions run between two statements of this one; they too leave only valid rules. */
    method Meanwhile(rows': map<string, Rule>)
      modifies this
      ensures rows == rows'
    {
      rows := rows';
    }
  }

  /** The UPDATE finds its row and may write it. */
  predicate Fits(rows: map<string, Rule>, r: Rule) {
    r.id in rows && rows[r.id].tenant == r.tenant && !NameTaken(rows, r)
  }

  /** The row that `r` becomes when it is written over `rows`. */
  function Written(rows: map<string, Rule>, r: Rule): map<string, Rule>
    requires r.id in rows
  {
    rows[r.id := Stored(r).(createdAt := rows[r.id].createdAt)]
  }

  lemma WrittenStaysValid(rows: map<string, Rule>, r: Rule)
    requires AllValid(rows) && ValidRule(r)
    ensures Fits(rows, r) ==> AllValid(Written(rows, r))
  {
    StoringKeepsRule(r);
  }

  lemma CreatedStaysValid(rows: map<string, Rule>, r: Rule)
    requires AllValid(rows) && ValidRule(r)
    ensures r.id !in rows && !NameTaken(rows, r) ==> AllValid(rows[r.id := Stored(r)])
  {
    StoringKeepsRule(r);
  }

  /** The call read the rule `read`, and then, when the table was `meanwhile`, wrote `written`
      over the row. */
  ghost predicate Changed(meanwhile: map<string, Rule>, rows: map<string, Rule>, read: Rule, written: Rule, now: int) {
    && read.id in meanwhile && written.id == read.id && rows == Written(meanwhile, written)
    && written.version == read.version + 1 && written.updatedAt == now
  }

  // ---------------------------------------------------------------- updates after updates

  /** The rule that Update writes. */
  function Updated(r: Rule, patch: Rule, now: int): Rule {
    Merged(r, patch).(version := r.version + 1, updatedAt := now)
  }

  /** Update with no other session around and no statement lost: the table it leaves, or why it is
      refused. */
  ghost function Outcome(rows: map<string, Rule>, id: string, patch: Rule, now: int): (r: Result<map<string, Rule>>)
    requires AllValid(rows)
    ensures r.Ok? ==> AllValid(r.value)
  {
    if id !in rows || rows[id].tenant != patch.tenant then Err(NotFound) else
      var u := Updated(rows[id], patch, now);
      if !ValidRule(u) then Err(Invalid)
      else if NameTaken(rows, u) then Err(Storage)
      else
        WrittenStaysValid(rows, u);
        Ok(Written(rows, u))
  }

  lemma NameTakenByOthers(rows: map<string, Rule>, x: Rule, u: Rule, v: Rule)
    requires u.id == v.id == x.id && u.tenant == v.tenant && u.name == v.name
    ensures NameTaken(rows[x.id := x], u) <==> NameTaken(rows, v)
  {
    var rows' := rows[x.id := x];
    if NameTaken(rows', u) {
      var id :| id in rows' && id != u.id && rows'[id].tenant == u.tenant && rows'[id].name == u.name;
      assert id in rows && rows[id] == rows'[id];
    }
    if NameTaken(rows, v) {
      var id :| id in rows && id != v.id && rows[id].tenant == v.tenant && rows[id].name == v.name;
      assert id in rows' && rows[id] == rows'[id];
    }
  }

  /** Storing forgets fractions of a second, once. */
  lemma QuotTwice(w: int)
    ensures Quot(Quot(w, SECOND) * SECOND, SECOND) == Quot(w, SECOND)
  {
    var q := Quot(w, SECOND);
    if w >= 0 {
      assert q >= 0 && q * SECOND / SECOND == q;
    } else {
      assert q <= 0 && (-q) * SECOND / SECOND == -q;
    }
  }

  lemma StoredUpdateOfStored(r: Rule, p: Rule, q: Rule, now1: int, now2: int)
    ensures Stored(Updated(Stored(Updated(r, p, now1)), q, now2))
         == Stored(Updated(r, Merged(p, q), now2)).(version := r.version + 2)
  {
    QuotTwice(r.window);
    QuotTwice(p.window);
    QuotTwice(r.interval);
    QuotTwice(p.interval);
  }

  /** Two updates amount to one with the second patch laid over the first, up to one version,
      provided that the first is not refused; IntermediateMustBeValid shows what happens
      otherwise. */
  lemma UpdatesCompose(rows: map<string, Rule>, id: string, p: Rule, q: Rule, now1: int, now2: int)
    requires AllValid(rows) && p.tenant == q.tenant
    requires Outcome(rows, id, p, now1).Ok?
    ensures var two := Outcome(Outcome(rows, id, p, now1).value, id, q, now2);
      var one := Outcome(rows, id, Merged(p, q), now2);
      && (two.Ok? <==> one.Ok?)
      && (two.Ok? ==>
            id in one.value && two.value == one.value[id := one.value[id].(version := one.value[id].version + 1)])
  {
    hide Merged, Quot, ValidRule, NameTaken, AllValid;
    KeyedRow(rows, id);
    var mid := Outcome(rows, id, p, now1).value;
    var r := rows[id];
    MergeKeepsIdentity(r, p);
    MergeKeepsIdentity(p, q);
    MergeKeepsIdentity(mid[id], q);
    MergeKeepsIdentity(r, Merged(p, q));
    StoredUpdateOfStored(r, p, q, now1, now2);
    SameVerdict(r, p, q, now1, now2);
    var u2, u1 := Updated(mid[id], q, now2), Updated(r, Merged(p, q), now2);
    CreationTimePasses(r, p, q, now1, now2);
    NameTakenByOthers(rows, mid[id], u2, u1);
  }

  lemma KeyedRow(rows: map<string, Rule>, id: string)
    requires AllValid(rows) && id in rows
    ensures rows[id].id == id
  {
  }

  lemma MergeKeepsIdentity(r: Rule, p: Rule)
    ensures Merged(r, p).id == r.id && Merged(r, p).tenant == r.tenant && Merged(r, p).createdAt == r.createdAt
    ensures Merged(r, p).version == r.version
  {
  }

  lemma SameVerdict(r: Rule, p: Rule, q: Rule, now1: int, now2: int)
    ensures var m := Stored(Updated(r, p, now1)).(createdAt := r.createdAt);
      && (ValidRule(Updated(m, q, now2)) <==> ValidRule(Updated(r, Merged(p, q), now2)))
      && Updated(m, q, now2).name == Updated(r, Merged(p, q), now2).name
  {
    hide Quot;
  }

  lemma CreationTimePasses(r: Rule, p: Rule, q: Rule, now1: int, now2: int)
    ensures Stored(Updated(Stored(Updated(r, p, now1)).(createdAt := r.createdAt), q, now2))
         == Stored(Updated(Stored(Updated(r, p, now1)), q, now2)).(createdAt := r.createdAt)
  {
    hide Quot;
  }

  /** The clock does not decide whether an update is refused. */
  lemma SameRefusal(rows: map<string, Rule>, r: Rule, p: Rule, now1: int, now2: int)
    ensures ValidRule(Updated(r, p, now1)) <==> ValidRule(Updated(r, p, now2))
    ensures NameTaken(rows, Updated(r, p, now1)) <==> NameTaken(rows, Updated(r, p, now2))
    ensures Stored(Updated(r, p, now2)) == Stored(Updated(r, p, now1)).(updatedAt := now2)
  {
    hide Quot, ConditionEmpty;
  }

  /** Repeating an update stores the same rule under the next version. */
  lemma UpdateAgain(rows: map<string, Rule>, id: string, p: Rule, now1: int, now2: int)
    requires AllValid(rows) && Outcome(rows, id, p, now1).Ok?
    ensures var once := Outcome(rows, id, p, now1).value;
      var twice := Outcome(once, id, p, now2);
      && id in once && twice.Ok?
      && twice.value == once[id := once[id].(version := once[id].version + 1, updatedAt := now2)]
  {
    hide NameTaken, ValidRule, AllValid, Quot;
    KeyedRow(rows, id);
    UpdatesCompose(rows, id, p, p, now1, now2);
    assert Merged(p, p) == p;
    SameRefusal(rows, rows[id], p, now1, now2);
  }

  function NoPatch(tenant: string): Rule {
    Rule("", tenant, "", "", "", "", "", Condition("", "", "", 0.0, None, None, None, "", []), "", false, "", 0, 0,
         map[], [], [], [], 0, None, 0)
  }

  /** Each of two patches is refused, and both at once are stored: one makes a threshold rule a
      window rule, the other brings the window. */
  lemma IntermediateMustBeValid(rows: map<string, Rule>, id: string, window: Window, now1: int, now2: int)
    requires AllValid(rows) && id in rows && rows[id].ruleType == "threshold" && rows[id].condition.window.None?
    ensures var p := NoPatch(rows[id].tenant).(ruleType := "window");
      var q := NoPatch(rows[id].tenant).(condition := Condition("", "", "", 0.0, None, None, Some(window), "", []));
      && Outcome(rows, id, p, now1) == Err(Invalid) == Outcome(rows, id, q, now2)
      && Outcome(rows, id, Merged(p, q), now2).Ok?
  {
    var p := NoPatch(rows[id].tenant).(ruleType := "window");
    var q := NoPatch(rows[id].tenant).(condition := Condition("", "", "", 0.0, None, None, Some(window), "", []));
    assert !NameTaken(rows, rows[id]);
    assert Updated(rows[id], Merged(p, q), now2).name == rows[id].name;
  }

  /** An update takes a rule out of evaluation exactly when it sets the mode to paused. */
  lemma OnlyPausingStopsEvaluation(r: Rule, patch: Rule, now: int)
    requires ToEvaluate(r)
    ensures !ToEvaluate(Updated(r, patch, now)) <==> patch.mode == "paused"
  {
  }

  class Service {
    const repo: PGRepository

    constructor (repo: PGRepository)
      ensures this.repo == repo
    {
      this.repo := repo;
    }

    method Create(rule: Rule, freshID: string, now: int, fate: Fate) returns (r: Result<Rule>)
      requires AllValid(repo.rows)
      modifies repo
      ensures AllValid(repo.rows)
      ensures r.Ok? ==> Normalize(rule, freshID, now) == r && ValidRule(r.value)
                        && repo.rows == old(repo.rows)[r.value.id := Stored(r.value)]
      ensures r.Err? && fate != Unacked ==> repo.rows == old(repo.rows)
      ensures r == Err(Invalid) <==>
        Normalize(rule, freshID, now).Err? || !ValidRule(Normalize(rule, freshID, now).value)
      ensures r == Err(Storage) && fate == Fine ==>
        var x := Normalize(rule, freshID, now).value;
        x.id in repo.rows
        || exists id :: id in repo.rows && repo.rows[id].tenant == x.tenant && repo.rows[id].name == x.name
    {
      var normalized := Normalize(rule, freshID, now);
      if normalized.Err? {
        return normalized;
      }
      if !ValidRule(normalized.value) {
        return Err(Invalid);
      }
      CreatedStaysValid(repo.rows, normalized.value);
      r := repo.Create(normalized.value, fate);
    }

    /** Merge, validate, write: an invalid result is refused and nothing is written. */
    method Update(id: string, patch: Rule, now: int, meanwhile: map<string, Rule>, getLost: bool, update: Fate)
      returns (r: Result<Rule>)
      requires AllValid(repo.rows) && AllValid(meanwhile)
      modifies repo
      ensures AllValid(repo.rows)
      ensures r.Ok? ==>
        && id in old(repo.rows) && Changed(meanwhile, repo.rows, old(repo.rows)[id], r.value, now)
        && ValidRule(r.value)
        && r.value == Updated(old(repo.rows)[id], patch, now)
        && Patched(old(repo.rows)[id], patch, r.value)
      ensures r.Err? && update != Unacked ==> repo.rows in {old(repo.rows), meanwhile}
      ensures !getLost && update == Fine && meanwhile == old(repo.rows) ==>
        && (r.Err? <==> Outcome(old(repo.rows), id, patch, now).Err?)
        && (r.Ok? ==> Outcome(old(repo.rows), id, patch, now) == Ok(repo.rows))
    {
      hide Merged, ValidRule, NameTaken, Stored, AllValid, Patched;
      if id in repo.rows {
        UpdatedIsPatched(repo.rows[id], patch, now);
        KeyedRow(repo.rows, id);
        MergeKeepsIdentity(repo.rows[id], patch);
      }
      var got := repo.Get(patch.tenant, id, getLost);
      if got.Err? {
        return got;
      }
      var existing := Merge(got.value, patch);
      existing := existing.(version := existing.version + 1);
      existing := existing.(updatedAt := now);
      if !ValidRule(existing) {
        return Err(Invalid);
      }
      repo.Meanwhile(meanwhile);
      WrittenStaysValid(meanwhile, existing);
      r := repo.Update(existing, update);
    }

    method Pause(tenant: string, id: string, now: int, meanwhile: map<string, Rule>, getLost: bool, update: Fate)
      returns (r: Result<Rule>)
      requires AllValid(repo.rows) && AllValid(meanwhile)
      modifies repo
      ensures AllValid(repo.rows)
      ensures r.Ok? ==>
        && id in old(repo.rows) && Changed(meanwhile, repo.rows, old(repo.rows)[id], r.value, now)
        && !ToEvaluate(r.value)
        && r.value == old(repo.rows)[id].(mode := "paused", enabled := false, version := r.value.version,
                                          updatedAt := now)
      ensures r.Err? && update != Unacked ==> repo.rows in {old(repo.rows), meanwhile}
    {
      var got := repo.Get(tenant, id, getLost);
      if got.Err? {
        return got;
      }
      var rule := got.value;
      rule := rule.(mode := "paused", enabled := false, version := rule.version + 1, updatedAt := now);
      repo.Meanwhile(meanwhile);
      WrittenStaysValid(meanwhile, rule);
      r := repo.Update(rule, update);
    }

    method Enable(tenant: string, id: string, now: int, meanwhile: map<string, Rule>, getLost: bool, update: Fate)
      returns (r: Result<Rule>)
      requires AllValid(repo.rows) && AllValid(meanwhile)
      modifies repo
      ensures AllValid(repo.rows)
      ensures r.Ok? ==>
        && id in old(repo.rows) && Changed(meanwhile, repo.rows, old(repo.rows)[id], r.value, now)
        && ToEvaluate(r.value)
        && r.value == old(repo.rows)[id].(mode := "active", enabled := true, version := r.value.version,
                                          updatedAt := now)
      ensures r.Err? && update != Unacked ==> repo.rows in {old(repo.rows), meanwhile}
    {
      var got := repo.Get(tenant, id, getLost);
      if got.Err? {
        return got;
      }
      var rule := got.value;
      rule := rule.(enabled := true, mode := "active", version := rule.version + 1, updatedAt := now);
      repo.Meanwhile(meanwhile);
      WrittenStaysValid(meanwhile, rule);
      r := repo.Update(rule, update);
    }

    method SetMode(tenant: string, id: string, mode: string, now: int, meanwhile: map<string, Rule>, getLost: bool,
                   update: Fate)
      returns (r: Result<Rule>)
      requires AllValid(repo.rows) && AllValid(meanwhile)
      modifies repo
      ensures AllValid(repo.rows)
      ensures r.Ok? ==>
        && id in old(repo.rows) && Changed(meanwhile, repo.rows, old(repo.rows)[id], r.value, now)
        && mode in {"active", "paused", "dry_run"}
        && (ToEvaluate(r.value) <==> mode != "paused")
        && r.value == old(repo.rows)[id].(mode := mode, enabled := r.value.enabled, version := r.value.version,
                                          updatedAt := now)
      ensures r.Err? && update != Unacked ==> repo.rows in {old(repo.rows), meanwhile}
    {
      var got := repo.Get(tenant, id, getLost);
      if got.Err? {
        return got;
      }
      var rule := got.value;
      match mode {
        case "active" => rule := rule.(enabled := true);
        case "paused" => rule := rule.(enabled := false);
        case "dry_run" => rule := rule.(enabled := true);
        case _ => return Err(Invalid);
      }
      rule := rule.(mode := mode, version := rule.version + 1, updatedAt := now);
      repo.Meanwhile(meanwhile);
      WrittenStaysValid(meanwhile, rule);
      r := repo.Update(rule, update);
    }
  }
}
