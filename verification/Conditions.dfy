/** The condition trees of rules and their evaluation against one aggregate. Numbers are reals. */
module Conditions {
  import opened Prelude
  import opened Labels

  datatype Percent = Percent(field: string, operator: string, percent: real)

  datatype Change = Change(field: string, mode: string, percent: real, absolute: real)

  datatype Window = Window(field: string, operator: string, value: real)

  /** Optional parts are Go's nil pointers; a tree node may carry several at once. */
  datatype Condition = Condition(
    metric: string,
    field: string,
    operator: string,
    value: real,
    percent: Option<Percent>,
    change: Option<Change>,
    window: Option<Window>,
    logic: string,
    children: seq<Condition>)

  datatype Aggregate = Aggregate(labels: LabelMap, count: nat, sum: real, min: real, max: real, avg: real, latest: real)

  // ---------------------------------------------------------------- leaves

  function AggregateValue(field: string, agg: Aggregate): real {
    match field
    case "count" => agg.count as real
    case "sum" => agg.sum
    case "min" => agg.min
    case "max" => agg.max
    case "latest" => agg.latest
    case _ => agg.avg
  }

  const TOLERANCE := 0.000000001

  function Abs(x: real): real { if x < 0.0 then -x else x }

  predicate Compare(op: string, left: real, right: real) {
    match op
    case "gt" => left > right
    case ">" => left > right
    case "gte" => left >= right
    case ">=" => left >= right
    case "lt" => left < right
    case "<" => left < right
    case "lte" => left <= right
    case "<=" => left <= right
    case "eq" => Abs(left - right) < TOLERANCE
    case "==" => Abs(left - right) < TOLERANCE
    case "neq" => Abs(left - right) >= TOLERANCE
    case "!=" => Abs(left - right) >= TOLERANCE
    case _ => false
  }

  /** The type by which a child is evaluated: the parts it has decide, in this order. */
  function ChildRuleType(cond: Condition): string {
    if cond.window.Some? then "window"
    else if cond.percent.Some? then "percent"
    else if cond.change.Some? then "change"
    else if |cond.children| > 0 then "compound"
    else "threshold"
  }

  /** What a leaf compares: the operator, the aggregated value, and the bound. */
  datatype Test = Test(operator: string, value: real, bound: real) {
    predicate Holds() { Compare(operator, value, bound) }
  }

  function PercentOf(value: real, percent: real): real { value * percent / 100.0 }

  function TestOf(ruleType: string, cond: Condition, agg: Aggregate): Option<Test> {
    match ruleType
    case "threshold" => Some(Test(cond.operator, AggregateValue(cond.field, agg), cond.value))
    case "window" =>
      if cond.window.None? then None else
        var w := cond.window.value;
        Some(Test(w.operator, AggregateValue(w.field, agg), w.value))
    case "percent" =>
      if cond.percent.None? then None else
        var p := cond.percent.value;
        Some(Test(p.operator, AggregateValue(p.field, agg),
                  if cond.value == 0.0 then p.percent / 100.0 else cond.value))
    case "change" =>
      if cond.change.None? then None else
        var c := cond.change.value;
        var value := AggregateValue(c.field, agg);
        Some(Test(c.mode, value, if c.percent != 0.0 then PercentOf(value, c.percent) else c.absolute))
    case _ => None
  }

  // ---------------------------------------------------------------- the evaluator

  /** What evaluateCondition returns: whether it matches, and the value it reports. */
  function Verdict(ruleType: string, cond: Condition, agg: Aggregate): (bool, real)
    decreases cond, |cond.children| + 1
  {
    if ruleType == "compound" then
      if cond.logic == "or" then FirstMatch(cond, 0, agg) else Conjunction(cond, |cond.children|, agg)
    else
      match TestOf(ruleType, cond, agg)
      case None => (false, 0.0)
      case Some(test) => (test.Holds(), test.value)
  }

  /** The first matching child from the i-th on. */
  function FirstMatch(cond: Condition, i: nat, agg: Aggregate): (bool, real)
    requires i <= |cond.children|
    decreases cond, |cond.children| - i
  {
    if i == |cond.children| then (false, 0.0) else
      var v := Verdict(ChildRuleType(cond.children[i]), cond.children[i], agg);
      if v.0 then (true, v.1) else FirstMatch(cond, i + 1, agg)
  }

  /** All of the first n children, with the value of the last of them. */
  function Conjunction(cond: Condition, n: nat, agg: Aggregate): (bool, real)
    requires n <= |cond.children|
    decreases cond, n
  {
    if n == 0 then (true, 0.0) else
      var v := Verdict(ChildRuleType(cond.children[n - 1]), cond.children[n - 1], agg);
      (Conjunction(cond, n - 1, agg).0 && v.0, v.1)
  }

  method EvaluateCondition(ruleType: string, cond: Condition, agg: Aggregate) returns (ok: bool, value: real)
    ensures (ok, value) == Verdict(ruleType, cond, agg)
    decreases cond, 1
  {
    if ruleType == "compound" {
      ok, value := EvaluateCompound(cond, agg);
      return;
    }
    match TestOf(ruleType, cond, agg)
    case None => return false, 0.0;
    case Some(test) => return test.Holds(), test.value;
  }

  method EvaluateCompound(cond: Condition, agg: Aggregate) returns (ok: bool, value: real)
    ensures (ok, value) == Verdict("compound", cond, agg)
    decreases cond, 0
  {
    if cond.logic == "or" {
      for i := 0 to |cond.children|
        invariant FirstMatch(cond, 0, agg) == FirstMatch(cond, i, agg)
      {
        var matched, v := EvaluateCondition(ChildRuleType(cond.children[i]), cond.children[i], agg);
        if matched {
          return true, v;
        }
      }
      return false, 0.0;
    }
    var all, latest := true, 0.0;
    for i := 0 to |cond.children|
      invariant (all, latest) == Conjunction(cond, i, agg)
    {
      var matched, v := EvaluateCondition(ChildRuleType(cond.children[i]), cond.children[i], agg);
      if !matched {
        all := false;
      }
      latest := v;
    }
    return all, latest;
  }

  // ---------------------------------------------------------------- what it means

  /** The tree read as a Boolean formula over its leaf tests. */
  ghost predicate Satisfied(ruleType: string, cond: Condition, agg: Aggregate)
    decreases cond
  {
    if ruleType == "compound" then
      if cond.logic == "or"
      then exists i :: 0 <= i < |cond.children| && Satisfied(ChildRuleType(cond.children[i]), cond.children[i], agg)
      else forall i :: 0 <= i < |cond.children| ==> Satisfied(ChildRuleType(cond.children[i]), cond.children[i], agg)
    else
      TestOf(ruleType, cond, agg).Some? && TestOf(ruleType, cond, agg).value.Holds()
  }

  /** Some leaf of the tree holds and compares this value. */
  ghost predicate Witnessed(ruleType: string, cond: Condition, agg: Aggregate, value: real)
    decreases cond
  {
    if ruleType == "compound" then
      exists i :: 0 <= i < |cond.children| && Witnessed(ChildRuleType(cond.children[i]), cond.children[i], agg, value)
    else
      TestOf(ruleType, cond, agg).Some? && TestOf(ruleType, cond, agg).value.Holds()
      && TestOf(ruleType, cond, agg).value.value == value
  }

  /** The evaluator computes the Boolean meaning of the tree, and a match is never vacuous: it
      reports the value of a leaf that holds. The one exception is a compound without children,
      which validateRule keeps out. */
  lemma {:induction false} VerdictIsMeaning(ruleType: string, cond: Condition, agg: Aggregate)
    ensures Verdict(ruleType, cond, agg).0 <==> Satisfied(ruleType, cond, agg)
    ensures Verdict(ruleType, cond, agg).0 && (ruleType == "compound" ==> |cond.children| > 0)
      ==> Witnessed(ruleType, cond, agg, Verdict(ruleType, cond, agg).1)
    decreases cond, |cond.children| + 1
  {
    if ruleType == "compound" {
      if cond.logic == "or" {
        FirstMatchMeaning(cond, 0, agg);
      } else {
        ConjunctionMeaning(cond, |cond.children|, agg);
      }
    }
  }

  lemma ChildrenAreNotEmpty(c: Condition)
    ensures ChildRuleType(c) == "compound" ==> |c.children| > 0
  {
  }

  lemma WitnessedByChild(cond: Condition, i: nat, agg: Aggregate)
    requires i < |cond.children|
    ensures var v := Verdict(ChildRuleType(cond.children[i]), cond.children[i], agg).1;
      Witnessed(ChildRuleType(cond.children[i]), cond.children[i], agg, v) ==> Witnessed("compound", cond, agg, v)
  {
  }

  lemma {:induction false} FirstMatchMeaning(cond: Condition, i: nat, agg: Aggregate)
    requires i <= |cond.children|
    ensures FirstMatch(cond, i, agg).0
      <==> exists j :: i <= j < |cond.children| && Satisfied(ChildRuleType(cond.children[j]), cond.children[j], agg)
    ensures FirstMatch(cond, i, agg).0 ==> Witnessed("compound", cond, agg, FirstMatch(cond, i, agg).1)
    decreases cond, |cond.children| - i
  {
    hide Satisfied, Witnessed;
    if i < |cond.children| {
      VerdictIsMeaning(ChildRuleType(cond.children[i]), cond.children[i], agg);
      ChildrenAreNotEmpty(cond.children[i]);
      WitnessedByChild(cond, i, agg);
      FirstMatchMeaning(cond, i + 1, agg);
    }
  }

  lemma {:induction false} ConjunctionMeaning(cond: Condition, n: nat, agg: Aggregate)
    requires n <= |cond.children|
    ensures Conjunction(cond, n, agg).0
      <==> forall j :: 0 <= j < n ==> Satisfied(ChildRuleType(cond.children[j]), cond.children[j], agg)
    ensures n > 0 && Conjunction(cond, n, agg).0 ==> Witnessed("compound", cond, agg, Conjunction(cond, n, agg).1)
    decreases cond, n
  {
    hide Satisfied, Witnessed;
    if n > 0 {
      VerdictIsMeaning(ChildRuleType(cond.children[n - 1]), cond.children[n - 1], agg);
      ChildrenAreNotEmpty(cond.children[n - 1]);
      WitnessedByChild(cond, n - 1, agg);
      ConjunctionMeaning(cond, n - 1, agg);
    }
  }

  // ---------------------------------------------------------------- what the numbers say

  function Sum(samples: seq<real>): real {
    if samples == [] then 0.0 else Sum(samples[..|samples| - 1]) + samples[|samples| - 1]
  }

  function Mean(sum: real, n: nat): real
    requires n > 0
  {
    sum / n as real
  }

  /** The row that GROUP BY makes of a group's numbers, oldest first. */
  ghost predicate IsAggregate(agg: Aggregate, samples: seq<real>) {
    && samples != []
    && agg.count == |samples|
    && agg.sum == Sum(samples)
    && agg.avg == Mean(Sum(samples), |samples|)
    && agg.latest == samples[|samples| - 1]
    && agg.min in samples && (forall x :: x in samples ==> agg.min <= x)
    && agg.max in samples && (forall x :: x in samples ==> x <= agg.max)
  }

  /** Every group has its row, and only one. */
  function AggregateOf(labels: LabelMap, samples: seq<real>): (agg: Aggregate)
    requires samples != []
    ensures IsAggregate(agg, samples) && agg.labels == labels
  {
    var n, x := |samples| - 1, samples[|samples| - 1];
    var (sum, mean) := (Sum(samples), Mean(Sum(samples), n + 1));
    if n == 0 then Aggregate(labels, 1, sum, x, x, mean, x) else
      var before := AggregateOf(labels, samples[..n]);
      assert samples == samples[..n] + [x];
      Aggregate(labels, n + 1, sum, if x < before.min then x else before.min,
                if x > before.max then x else before.max, mean, x)
  }

  lemma AggregateIsUnique(a: Aggregate, b: Aggregate, samples: seq<real>)
    requires IsAggregate(a, samples) && IsAggregate(b, samples)
    ensures a == b.(labels := a.labels)
  {
  }

  /** What a threshold rule reports for each field. */
  lemma ReportsTheField(cond: Condition, agg: Aggregate, samples: seq<real>)
    requires IsAggregate(agg, samples)
    ensures var value := Verdict("threshold", cond, agg).1;
      && (cond.field == "count" ==> value == |samples| as real)
      && (cond.field == "sum" ==> value == Sum(samples))
      && (cond.field == "min" ==> value in samples && forall x :: x in samples ==> value <= x)
      && (cond.field == "max" ==> value in samples && forall x :: x in samples ==> x <= value)
      && (cond.field == "latest" ==> value == samples[|samples| - 1])
      && (cond.field !in {"count", "sum", "min", "max", "latest"} ==> value == Sum(samples) / |samples| as real)
  {
  }

  /** And how it compares what it reports: equality has a tolerance of 10^-9, and an operator
      nobody knows never matches. */
  lemma ComparesTheReport(cond: Condition, agg: Aggregate)
    ensures var (ok, value) := Verdict("threshold", cond, agg);
      && (cond.operator in {"gt", ">"} ==> (ok <==> value > cond.value))
      && (cond.operator in {"gte", ">="} ==> (ok <==> value >= cond.value))
      && (cond.operator in {"lt", "<"} ==> (ok <==> value < cond.value))
      && (cond.operator in {"lte", "<="} ==> (ok <==> value <= cond.value))
      && (cond.operator in {"eq", "=="} ==> (ok <==> -0.000000001 < value - cond.value < 0.000000001))
      && (cond.operator in {"neq", "!="} ==> !(ok <==> -0.000000001 < value - cond.value < 0.000000001))
      && (cond.operator !in {"gt", ">", "gte", ">=", "lt", "<", "lte", "<=", "eq", "==", "neq", "!="} ==> !ok)
  {
  }

  /** So a bound on an extreme speaks about the numbers themselves: the maximum exceeds it exactly
      when some number does, and stays within it exactly when all do; likewise the minimum. */
  lemma ExtremesQuantify(cond: Condition, agg: Aggregate, samples: seq<real>)
    requires IsAggregate(agg, samples)
    ensures var (ok, b) := (Verdict("threshold", cond, agg).0, cond.value);
      && (cond.field == "max" ==>
            && (cond.operator in {"gt", ">"} ==> (ok <==> exists x :: x in samples && x > b))
            && (cond.operator in {"gte", ">="} ==> (ok <==> exists x :: x in samples && x >= b))
            && (cond.operator in {"lt", "<"} ==> (ok <==> forall x :: x in samples ==> x < b))
            && (cond.operator in {"lte", "<="} ==> (ok <==> forall x :: x in samples ==> x <= b)))
      && (cond.field == "min" ==>
            && (cond.operator in {"gt", ">"} ==> (ok <==> forall x :: x in samples ==> x > b))
            && (cond.operator in {"gte", ">="} ==> (ok <==> forall x :: x in samples ==> x >= b))
            && (cond.operator in {"lt", "<"} ==> (ok <==> exists x :: x in samples && x < b))
            && (cond.operator in {"lte", "<="} ==> (ok <==> exists x :: x in samples && x <= b)))
  {
    hide Verdict, IsAggregate;
    ReportsTheField(cond, agg, samples);
    ComparesTheReport(cond, agg);
  }

  function Threshold(field: string, operator: string, value: real): Condition {
    Condition("", field, operator, value, None, None, None, "", [])
  }

  /** The other leaves are thresholds on a field of their own: a window on its value, a percent on
      the value of the condition or else on its percentage as a fraction. */
  lemma OtherLeavesAreThresholds(cond: Condition, agg: Aggregate)
    ensures cond.window.Some? ==>
      var w := cond.window.value;
      Verdict("window", cond, agg) == Verdict("threshold", Threshold(w.field, w.operator, w.value), agg)
    ensures cond.percent.Some? ==>
      var p := cond.percent.value;
      Verdict("percent", cond, agg) == Verdict("threshold", Threshold(p.field, p.operator,
        if cond.value != 0.0 then cond.value else p.percent / 100.0), agg)
    ensures cond.window.None? ==> Verdict("window", cond, agg) == (false, 0.0)
    ensures cond.percent.None? ==> Verdict("percent", cond, agg) == (false, 0.0)
    ensures cond.change.None? ==> Verdict("change", cond, agg) == (false, 0.0)
  {
  }

  /** A change is one on that percentage of the very value it looks at, or else on its absolute
      value. */
  lemma ChangeIsThreshold(cond: Condition, agg: Aggregate, value: real, bound: real)
    requires cond.change.Some? && value == Verdict("change", cond, agg).1
    requires bound == if cond.change.value.percent == 0.0 then cond.change.value.absolute
                      else value * cond.change.value.percent / 100.0
    ensures var c := cond.change.value;
      Verdict("change", cond, agg) == Verdict("threshold", Threshold(c.field, c.mode, bound), agg)
  {
    var c := cond.change.value;
    assert c.percent != 0.0 ==> bound == PercentOf(value, c.percent);
    hide PercentOf;
    assert value == AggregateValue(c.field, agg);
    assert TestOf("change", cond, agg) == Some(Test(c.mode, value, bound));
  }

  /** By what a child is judged when it has several parts. */
  function Leading(c: Condition): string {
    if c.window.Some? then "window"
    else match (c.percent, c.change)
         case (Some(_), _) => "percent"
         case (None, Some(_)) => "change"
         case (None, None) => if c.children == [] then "threshold" else "compound"
  }

  /** What a compound reports: an "or" the value of its first child that matches, any other logic
      that of its last child. */
  lemma {:induction false} CompoundReports(cond: Condition, i: nat, agg: Aggregate)
    requires i < |cond.children|
    ensures var child := Verdict(Leading(cond.children[i]), cond.children[i], agg);
      && (cond.logic == "or" && child.0
          && (forall j :: 0 <= j < i ==> !Verdict(Leading(cond.children[j]), cond.children[j], agg).0)
          ==> Verdict("compound", cond, agg) == child)
      && (cond.logic != "or" && i == |cond.children| - 1 ==> Verdict("compound", cond, agg).1 == child.1)
  {
    forall j | 0 <= j < |cond.children|
      ensures Leading(cond.children[j]) == ChildRuleType(cond.children[j])
    {
    }
    if cond.logic == "or" {
      FirstMatchSkips(cond, 0, i, agg);
    }
  }

  lemma {:induction false} FirstMatchSkips(cond: Condition, k: nat, i: nat, agg: Aggregate)
    requires k <= i < |cond.children|
    requires forall j :: 0 <= j < |cond.children| ==> Leading(cond.children[j]) == ChildRuleType(cond.children[j])
    ensures (forall j :: k <= j < i ==> !Verdict(Leading(cond.children[j]), cond.children[j], agg).0) ==>
      FirstMatch(cond, k, agg) == FirstMatch(cond, i, agg)
    decreases i - k
  {
    if k < i {
      FirstMatchSkips(cond, k + 1, i, agg);
    }
  }

  // ---------------------------------------------------------------- negation

  const OPERATORS := {"gt", ">", "gte", ">=", "lt", "<", "lte", "<=", "eq", "==", "neq", "!="}

  function Complement(op: string): string {
    match op
    case "gt" => "lte"
    case ">" => "<="
    case "gte" => "lt"
    case ">=" => "<"
    case "lt" => "gte"
    case "<" => ">="
    case "lte" => "gt"
    case "<=" => ">"
    case "eq" => "neq"
    case "==" => "!="
    case "neq" => "eq"
    case "!=" => "=="
    case _ => op
  }

  /** Complementing an operator negates its test exactly when the operator is a known one; an
      unknown one never matches, complemented or not. */
  lemma ComplementNegates(op: string, left: real, right: real)
    ensures (Compare(Complement(op), left, right) <==> !Compare(op, left, right)) <==> op in OPERATORS
  {
  }

  function Negated(cond: Condition): Condition
    decreases cond
  {
    cond.(
      operator := Complement(cond.operator),
      percent := if cond.percent.None? then None
        else Some(cond.percent.value.(operator := Complement(cond.percent.value.operator))),
      change := if cond.change.None? then None
        else Some(cond.change.value.(mode := Complement(cond.change.value.mode))),
      window := if cond.window.None? then None
        else Some(cond.window.value.(operator := Complement(cond.window.value.operator))),
      logic := if cond.logic == "or" then "and" else "or",
      children := seq(|cond.children|, i requires 0 <= i < |cond.children| => Negated(cond.children[i])))
  }

  /** The part the type asks for is there, and every operator that gets evaluated is known. */
  predicate Known(ruleType: string, cond: Condition)
    decreases cond
  {
    match ruleType
    case "threshold" => cond.operator in OPERATORS
    case "window" => cond.window.Some? && cond.window.value.operator in OPERATORS
    case "percent" => cond.percent.Some? && cond.percent.value.operator in OPERATORS
    case "change" => cond.change.Some? && cond.change.value.mode in OPERATORS
    case "compound" => forall i :: 0 <= i < |cond.children| ==> Known(ChildRuleType(cond.children[i]), cond.children[i])
    case _ => false
  }

  /** De Morgan for rules: with known operators, complementing them all and swapping and with or
      turns every verdict around. */
  lemma {:induction false} NegationTurnsVerdict(ruleType: string, cond: Condition, agg: Aggregate)
    requires Known(ruleType, cond)
    ensures Verdict(ruleType, Negated(cond), agg).0 <==> !Verdict(ruleType, cond, agg).0
  {
    VerdictIsMeaning(ruleType, cond, agg);
    VerdictIsMeaning(ruleType, Negated(cond), agg);
    NegationTurnsMeaning(ruleType, cond, agg);
  }

  lemma {:induction false} NegationTurnsMeaning(ruleType: string, cond: Condition, agg: Aggregate)
    requires Known(ruleType, cond)
    ensures Satisfied(ruleType, Negated(cond), agg) <==> !Satisfied(ruleType, cond, agg)
    decreases cond
  {
    if ruleType == "compound" {
      var negated := Negated(cond);
      forall i | 0 <= i < |cond.children|
        ensures Satisfied(ChildRuleType(negated.children[i]), negated.children[i], agg)
          <==> !Satisfied(ChildRuleType(cond.children[i]), cond.children[i], agg)
      {
        NegationTurnsMeaning(ChildRuleType(cond.children[i]), cond.children[i], agg);
      }
    } else {
      var test := TestOf(ruleType, cond, agg).value;
      ComplementNegates(test.operator, test.value, test.bound);
    }
  }
}
