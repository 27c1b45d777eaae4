/** The two derived keys: an alert's fingerprint and an event's dedupe key. */
module Keys {
  import opened Prelude
  import opened Labels

  // ---------------------------------------------------------------- fingerprints

  /** The scope built from the group-by labels; a missing label reads as ''. */
  function GroupScope(groupBy: seq<string>, labels: LabelMap): string {
    Join(GroupParts(groupBy, labels), "|")
  }

  function GroupParts(groupBy: seq<string>, labels: LabelMap): seq<string> {
    seq(|groupBy|, i requires 0 <= i < |groupBy| => groupBy[i] + "=" + LookUp(labels, groupBy[i]))
  }

  function LookUp(labels: LabelMap, k: string): string {
    if k in labels then labels[k] else ""
  }

  ghost function Fingerprint(ruleID: string, tenant: string, scope: string, labels: LabelMap,
                             groupBy: seq<string>): string {
    var scope' := if scope == "" && |groupBy| > 0 then GroupScope(groupBy, labels) else scope;
    Join([tenant, ruleID, scope', Print(labels)], "::")
  }

  method FingerprintOf(ruleID: string, tenant: string, scope: string, labels: LabelMap, groupBy: seq<string>)
    returns (f: string)
    ensures f == Fingerprint(ruleID, tenant, scope, labels, groupBy)
    ensures var used := if scope == "" && |groupBy| > 0 then GroupScope(groupBy, labels) else scope;
      f == tenant + "::" + (ruleID + "::" + (used + "::" + Print(labels)))
  {
    var scope' := scope;
    if scope == "" && |groupBy| > 0 {
      scope' := BuildScope(groupBy, labels);
    }
    var printed := String(labels);
    JoinFour(tenant, ruleID, scope', printed, "::");
    return Join([tenant, ruleID, scope', printed], "::");
  }

  /** buildScope of the evaluator, and the same loop in Fingerprint. */
  method BuildScope(groupBy: seq<string>, labels: LabelMap) returns (scope: string)
    ensures scope == GroupScope(groupBy, labels)
  {
    if |groupBy| == 0 {
      return "";
    }
    var parts: seq<string> := [];
    for i := 0 to |groupBy|
      invariant |parts| == i
      invariant forall j :: 0 <= j < i ==> parts[j] == groupBy[j] + "=" + LookUp(labels, groupBy[j])
    {
      parts := parts + [groupBy[i] + "=" + LookUp(labels, groupBy[i])];
    }
    assert parts == GroupParts(groupBy, labels);
    return Join(parts, "|");
  }

  /** The scope, key by key: a label that is missing reads as nothing. */
  lemma ScopeByKeys(k: string, rest: seq<string>, labels: LabelMap)
    ensures GroupScope([], labels) == ""
    ensures GroupScope([k] + rest, labels)
      == k + "=" + (if k in labels then labels[k] else "") + if rest == [] then "" else "|" + GroupScope(rest, labels)
  {
    var parts := GroupParts([k] + rest, labels);
    assert parts == [k + "=" + LookUp(labels, k)] + GroupParts(rest, labels);
    if rest != [] {
      JoinCons(parts[0], GroupParts(rest, labels), "|");
    } else {
      assert parts == [parts[0]];
    }
  }

  /** Text before and after the first "::". */
  function CutColons(s: string): Option<(string, string)> {
    if |s| < 2 then None
    else if s[0] == ':' && s[1] == ':' then Some(("", s[2..]))
    else match CutColons(s[1..])
         case None => None
         case Some((before, after)) => Some(([s[0]] + before, after))
  }

  /** No "::" inside, and no ':' at the end that would run into the separator. */
  predicate Separable(f: string) {
    f == "" || (!(f[0] == ':' && (|f| == 1 || f[1] == ':')) && Separable(f[1..]))
  }

  lemma {:induction false} ColonFreeIsSeparable(f: string)
    requires ':' !in f
    ensures Separable(f)
  {
    if f != "" {
      ColonFreeIsSeparable(f[1..]);
    }
  }

  /** A field followed by the separator is found again exactly when it is separable; otherwise
      the first "::" comes too early. */
  lemma {:induction false} CutColonsFinds(f: string, rest: string)
    ensures CutColons(f + "::" + rest).Some?
    ensures CutColons(f + "::" + rest) == Some((f, rest)) <==> Separable(f)
    ensures CutColons(f + "::" + rest).value.0 == f <==> Separable(f)
  {
    var s := f + "::" + rest;
    if f == "" {
      assert s[2..] == rest;
    } else {
      assert s[1..] == f[1..] + "::" + rest;
      CutColonsFinds(f[1..], rest);
      assert f == [f[0]] + f[1..];
      assert s[1] == if |f| > 1 then f[1] else ':';
    }
  }

  /** Text before the first "::{", and after its colons: a print opens with '{'. */
  function CutPrint(s: string): Option<(string, string)> {
    if |s| < 3 then None
    else if "::{" <= s then Some(("", s[2..]))
    else match CutPrint(s[1..])
         case None => None
         case Some((before, after)) => Some(([s[0]] + before, after))
  }

  /** No "::{" inside. */
  predicate OpensNoPrint(f: string) {
    f == "" || (!("::{" <= f) && OpensNoPrint(f[1..]))
  }

  /** The scope ends where the print begins, and is found again exactly when it opens none itself;
      other colons do no harm. */
  lemma {:induction false} CutPrintFinds(f: string, printed: string)
    requires printed != "" && printed[0] == '{'
    ensures CutPrint(f + "::" + printed).Some?
    ensures CutPrint(f + "::" + printed) == Some((f, printed)) <==> OpensNoPrint(f)
    ensures CutPrint(f + "::" + printed).value.0 == f <==> OpensNoPrint(f)
  {
    var s := f + "::" + printed;
    if f == "" {
      assert s[2..] == printed;
    } else {
      assert s[1..] == f[1..] + "::" + printed;
      CutPrintFinds(f[1..], printed);
      assert f == [f[0]] + f[1..];
      OpensWithin(f, printed);
    }
  }

  /** The separator does not make a "::{" begin inside a field. */
  lemma OpensWithin(f: string, printed: string)
    requires f != "" && printed != "" && printed[0] == '{'
    ensures "::{" <= f + "::" + printed <==> "::{" <= f
  {
    var s := f + "::" + printed;
    assert s[0] == f[0];
    assert s[1] == if |f| > 1 then f[1] else ':';
    assert s[2] == if |f| > 2 then f[2] else ':';
    assert "::{" <= s <==> s[0] == ':' && s[1] == ':' && s[2] == '{';
    assert "::{" <= f <==> |f| >= 3 && f[0] == ':' && f[1] == ':' && f[2] == '{';
  }

  /** Separable fields are among these. */
  lemma {:induction false} SeparableOpensNoPrint(f: string)
    ensures Separable(f) ==> OpensNoPrint(f)
  {
    if f != "" {
      SeparableOpensNoPrint(f[1..]);
    }
  }

  /** Whatever the colons in it, as in an ARN or an IPv6 address. */
  lemma {:induction false} BraceFreeOpensNoPrint(f: string)
    requires '{' !in f
    ensures OpensNoPrint(f)
  {
    if f != "" {
      assert "::{"[2] == '{';
      BraceFreeOpensNoPrint(f[1..]);
    }
  }

  /** So the scopes are a wider class than the separable fields. */
  lemma {:induction false} ColonsInScope(before: string, after: string)
    requires '{' !in before && '{' !in after
    ensures OpensNoPrint(before + "::" + after) && !Separable(before + "::" + after)
  {
    var s := before + "::" + after;
    BraceFreeOpensNoPrint(s);
    if before != "" {
      assert s[1..] == before[1..] + "::" + after;
      ColonsInScope(before[1..], after);
    }
  }

  lemma PrintOpens(labels: LabelMap)
    ensures Print(labels) != "" && Print(labels)[0] == '{'
  {
  }

  datatype AlertKey = AlertKey(tenant: string, ruleID: string, scope: string, labels: LabelMap)

  function ParseFingerprint(s: string): Option<AlertKey> {
    match CutColons(s)
    case None => None
    case Some((tenant, r1)) =>
      match CutColons(r1)
      case None => None
      case Some((ruleID, r2)) =>
        match CutPrint(r2)
        case None => None
        case Some((scope, printed)) =>
          match Parse(printed)
          case None => None
          case Some(labels) => Some(AlertKey(tenant, ruleID, scope, labels))
  }

  lemma JoinCons(a: string, rest: seq<string>, sep: string)
    requires rest != []
    ensures Join([a] + rest, sep) == a + sep + Join(rest, sep)
  {
    assert ([a] + rest)[1..] == rest;
  }

  lemma JoinFour(a: string, b: string, c: string, d: string, sep: string)
    ensures Join([a, b, c, d], sep) == a + sep + (b + sep + (c + sep + d))
  {
    JoinCons(c, [d], sep);
    JoinCons(b, [c, d], sep);
    JoinCons(a, [b, c, d], sep);
    assert [c] + [d] == [c, d] && [b] + [c, d] == [b, c, d] && [a] + [b, c, d] == [a, b, c, d];
  }

  /** A fingerprint names its alert: it can be read back exactly when tenant and rule are separable,
      the scope opens no print, and the labels are clean. ApplyEvaluation passes no group-by, so
      the scope is used as it comes. */
  lemma FingerprintRoundTrip(k: AlertKey)
    ensures ParseFingerprint(Fingerprint(k.ruleID, k.tenant, k.scope, k.labels, [])) == Some(k)
      <==> Separable(k.tenant) && Separable(k.ruleID) && OpensNoPrint(k.scope) && Clean(k.labels)
  {
    var p := Print(k.labels);
    var s2 := k.scope + "::" + p;
    var s1 := k.ruleID + "::" + s2;
    var s0 := k.tenant + "::" + s1;
    JoinFour(k.tenant, k.ruleID, k.scope, p, "::");
    assert s0 == Fingerprint(k.ruleID, k.tenant, k.scope, k.labels, []);
    CutColonsFinds(k.tenant, s1);
    CutColonsFinds(k.ruleID, s2);
    PrintOpens(k.labels);
    CutPrintFinds(k.scope, p);
    PrintRoundTrip(k.labels);
  }

  /** Hence within that class different alerts have different fingerprints. */
  lemma FingerprintInjective(a: AlertKey, b: AlertKey)
    requires Separable(a.tenant) && Separable(a.ruleID) && OpensNoPrint(a.scope) && Clean(a.labels)
    requires Separable(b.tenant) && Separable(b.ruleID) && OpensNoPrint(b.scope) && Clean(b.labels)
    ensures Fingerprint(a.ruleID, a.tenant, a.scope, a.labels, [])
      == Fingerprint(b.ruleID, b.tenant, b.scope, b.labels, [])
      <==> a == b
  {
    FingerprintRoundTrip(a);
    FingerprintRoundTrip(b);
  }

  /** A colon at the edge of a field is enough for two alerts to share a fingerprint. */
  lemma FingerprintCollides(labels: LabelMap)
    ensures Fingerprint(":b", "a", "", labels, []) == Fingerprint("b", "a:", "", labels, [])
  {
    JoinFour("a", ":b", "", Print(labels), "::");
    JoinFour("a:", "b", "", Print(labels), "::");
    assert "a" + "::" + (":b" + "::" + ("" + "::" + Print(labels)))
        == "a:" + "::" + ("b" + "::" + ("" + "::" + Print(labels)));
  }

  // ---------------------------------------------------------------- dedupe keys

  datatype EventKey = EventKey(tenant: string, source: string, kind: string, labels: LabelMap, text: string)

  ghost function DedupeFingerprint(k: EventKey): string {
    Join([k.tenant, k.source, k.kind, Print(k.labels), k.text], "|")
  }

  function CutBar(s: string): Option<(string, string)> { Cut(s, '|') }

  function ParseDedupe(s: string): Option<EventKey> {
    match CutBar(s)
    case None => None
    case Some((tenant, r1)) =>
      match CutBar(r1)
      case None => None
      case Some((source, r2)) =>
        match CutBar(r2)
        case None => None
        case Some((kind, r3)) =>
          match CutBar(r3)
          case None => None
          case Some((printed, text)) =>
            match Parse(printed)
            case None => None
            case Some(labels) => Some(EventKey(tenant, source, kind, labels, text))
  }

  lemma CutBarFinds(f: string, rest: string)
    ensures CutBar(f + "|" + rest).Some?
    ensures CutBar(f + "|" + rest) == Some((f, rest)) <==> '|' !in f
    ensures CutBar(f + "|" + rest).value.0 == f <==> '|' !in f
    ensures CutBar(f + "|" + rest).value.1 == rest <==> '|' !in f
  {
    var s := f + "|" + rest;
    CutSound(s, '|');
    assert s[|f|] == '|';
    var (before, after) := CutBar(s).value;
    assert |before| == |f| ==> before == s[..|f|] == f;
    if '|' !in f {
      CutFinds(f, '|', rest);
      assert f + "|" + rest == f + ['|'] + rest;
    }
  }

  lemma JoinFive(a: string, b: string, c: string, d: string, e: string, sep: string)
    ensures Join([a, b, c, d, e], sep) == a + sep + (b + sep + (c + sep + (d + sep + e)))
  {
    JoinFour(b, c, d, e, sep);
    JoinCons(a, [b, c, d, e], sep);
    assert [a] + [b, c, d, e] == [a, b, c, d, e];
  }

  predicate BarFree(labels: LabelMap) {
    forall l :: l in labels ==> '|' !in l && '|' !in labels[l]
  }

  /** A dedupe key names everything but the numbers and times of an event: it can be read back
      exactly when the fields before the free text hold no '|' and the labels are clean and hold
      none either. The text itself may hold anything. */
  lemma DedupeRoundTrip(k: EventKey)
    ensures ParseDedupe(DedupeFingerprint(k)) == Some(k)
      <==> '|' !in k.tenant && '|' !in k.source && '|' !in k.kind && BarFree(k.labels) && Clean(k.labels)
  {
    PrintHas(k.labels, '|');
    var p := Print(k.labels);
    var s3 := p + "|" + k.text;
    var s2 := k.kind + "|" + s3;
    var s1 := k.source + "|" + s2;
    JoinFive(k.tenant, k.source, k.kind, p, k.text, "|");
    assert k.tenant + "|" + s1 == DedupeFingerprint(k);
    CutBarFinds(k.tenant, s1);
    CutBarFinds(k.source, s2);
    CutBarFinds(k.kind, s3);
    CutBarFinds(p, k.text);
    PrintRoundTrip(k.labels);
  }
}
