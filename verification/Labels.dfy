/** Label maps, their canonical print, and matching. */
module Labels {
  import opened Prelude

  type LabelMap = map<string, string>

  // ---------------------------------------------------------------- Go's string order

  predicate Leq(a: string, b: string) {
    a == "" || (b != "" && (a[0] < b[0] || (a[0] == b[0] && Leq(a[1..], b[1..]))))
  }

  lemma {:induction false} LeqTotal(a: string, b: string)
    ensures Leq(a, b) || Leq(b, a)
  {
    if a != "" && b != "" && a[0] == b[0] {
      LeqTotal(a[1..], b[1..]);
    }
  }

  lemma {:induction false} LeqAntisymmetric(a: string, b: string)
    requires Leq(a, b) && Leq(b, a)
    ensures a == b
  {
    if a != "" && b != "" {
      LeqAntisymmetric(a[1..], b[1..]);
      assert a == [a[0]] + a[1..] && b == [b[0]] + b[1..];
    }
  }

  lemma {:induction false} LeqTransitive(a: string, b: string, c: string)
    requires Leq(a, b) && Leq(b, c)
    ensures Leq(a, c)
  {
    if a != "" && a[0] == b[0] && b[0] == c[0] {
      LeqTransitive(a[1..], b[1..], c[1..]);
    }
  }

  /** A prefix comes first, and otherwise the first difference decides. */
  lemma {:induction false} LeqDecides(p: string, a: string, b: string)
    ensures Leq(p, p + a)
    ensures a != "" && b != "" && a[0] < b[0] ==> Leq(p + a, p + b) && !Leq(p + b, p + a)
  {
    if p != "" {
      LeqDecides(p[1..], a, b);
      assert (p + a)[1..] == p[1..] + a && (p + b)[1..] == p[1..] + b;
    } else {
      assert p + a == a && p + b == b;
    }
  }

  // ---------------------------------------------------------------- sorted keys

  ghost predicate Sorted(s: seq<string>) {
    forall i, j :: 0 <= i < j < |s| ==> Leq(s[i], s[j]) && s[i] != s[j]
  }

  ghost predicate Least(k: string, keys: set<string>) {
    k in keys && forall other :: other in keys ==> Leq(k, other)
  }

  /** One more key: the least is the old one or the new one. */
  lemma LeastOfMore(x: string, y: string, rest: set<string>)
    requires Least(y, rest)
    ensures Least(if Leq(x, y) then x else y, rest + {x})
  {
    hide Leq;
    LeqTotal(x, y);
    LeqTotal(x, x);
    forall other | other in rest
      ensures Leq(x, y) ==> Leq(x, other)
    {
      if Leq(x, y) {
        LeqTransitive(x, y, other);
      }
    }
  }

  lemma {:induction false} LeastExists(keys: set<string>)
    requires keys != {}
    ensures exists k :: Least(k, keys)
  {
    hide Leq;
    var x :| x in keys;
    var rest := keys - {x};
    assert keys == rest + {x};
    if rest == {} {
      LeqTotal(x, x);
      assert Least(x, keys);
    } else {
      LeastExists(rest);
      var y :| Least(y, rest);
      LeastOfMore(x, y, rest);
    }
  }

  /** The keys in order: the one sequence that is sorted and has exactly these members. */
  ghost function SortedOf(keys: set<string>): (s: seq<string>)
    ensures Sorted(s) && (forall k :: k in s <==> k in keys) && |s| == |keys|
  {
    if keys == {} then [] else
      LeastExists(keys);
      var k :| Least(k, keys);
      [k] + SortedOf(keys - {k})
  }

  lemma {:induction false} SortedIsUnique(a: seq<string>, b: seq<string>)
    requires Sorted(a) && Sorted(b) && forall k :: k in a <==> k in b
    ensures a == b
  {
    if a != [] {
      assert a[0] in a;
    }
    if b != [] {
      assert b[0] in b;
    }
    if a != [] && b != [] {
      HeadIsLeast(a, b[0]);
      HeadIsLeast(b, a[0]);
      LeqAntisymmetric(a[0], b[0]);
      forall k
        ensures k in a[1..] <==> k in b[1..]
      {
        assert k in a <==> k == a[0] || k in a[1..];
        assert k in b <==> k == b[0] || k in b[1..];
      }
      SortedIsUnique(a[1..], b[1..]);
      assert a == [a[0]] + a[1..] && b == [b[0]] + b[1..];
    }
  }

  lemma HeadIsLeast(a: seq<string>, k: string)
    requires Sorted(a) && k in a
    ensures Leq(a[0], k)
  {
    LeqTotal(k, k);
  }

  /** One insertion of sort.Strings, seen as an insertion sort. */
  method Insert(s: seq<string>, k: string) returns (r: seq<string>)
    requires Sorted(s) && k !in s
    ensures Sorted(r) && forall x :: x in r <==> x == k || x in s
  {
    var i := 0;
    while i < |s| && Leq(s[i], k)
      invariant 0 <= i <= |s|
      invariant forall j :: 0 <= j < i ==> Leq(s[j], k)
    {
      i := i + 1;
    }
    r := s[..i] + [k] + s[i..];
    if i < |s| {
      LeqTotal(s[i], k);
    }
    forall a, b | 0 <= a < b < |r|
      ensures Leq(r[a], r[b]) && r[a] != r[b]
    {
      if a == i && b > i + 1 {
        LeqTransitive(k, s[i], s[b - 1]);
      }
    }
  }

  /** SortedKeys: the map is ranged over in any order, then sorted; the order does not show. */
  method SortedKeys(l: LabelMap) returns (keys: seq<string>)
    ensures keys == SortedOf(l.Keys)
  {
    var rest := l.Keys;
    var ranged: seq<string> := [];
    while rest != {}
      invariant rest <= l.Keys && forall k :: k in ranged <==> k in l.Keys && k !in rest
      invariant forall i, j :: 0 <= i < j < |ranged| ==> ranged[i] != ranged[j]
      decreases rest
    {
      var k :| k in rest;
      ranged, rest := ranged + [k], rest - {k};
    }
    keys := [];
    for i := 0 to |ranged|
      invariant Sorted(keys) && forall k :: k in keys <==> k in ranged[..i]
    {
      assert ranged[..i + 1] == ranged[..i] + [ranged[i]];
      keys := Insert(keys, ranged[i]);
    }
    assert ranged[..|ranged|] == ranged;
    SortedIsUnique(keys, SortedOf(l.Keys));
  }

  // ---------------------------------------------------------------- printing

  function Join(parts: seq<string>, sep: string): string {
    if parts == [] then "" else if |parts| == 1 then parts[0]
    else parts[0] + sep + Join(parts[1..], sep)
  }

  lemma {:induction false} JoinHas(parts: seq<string>, sep: string, c: char)
    requires c !in sep
    ensures c in Join(parts, sep) <==> exists i :: 0 <= i < |parts| && c in parts[i]
  {
    if |parts| > 1 {
      JoinHas(parts[1..], sep, c);
      assert forall i :: 0 <= i < |parts| - 1 ==> parts[1..][i] == parts[i + 1];
      assert Join(parts, sep) == parts[0] + (sep + Join(parts[1..], sep));
      if i :| 0 <= i < |parts| && c in parts[i] {
        assert i > 0 ==> parts[1..][i - 1] == parts[i];
      }
    }
  }

  function Part(l: LabelMap, k: string): string
    requires k in l
  {
    k + "=" + l[k]
  }

  function Parts(l: LabelMap, keys: seq<string>): seq<string>
    requires forall k :: k in keys ==> k in l
  {
    seq(|keys|, i requires 0 <= i < |keys| => Part(l, keys[i]))
  }

  function PrintParts(parts: seq<string>): string {
    "{" + Join(parts, ",") + "}"
  }

  /** Labels.String as a function of the map alone. */
  ghost function Print(l: LabelMap): string {
    if |l| == 0 then "{}" else PrintParts(Parts(l, SortedOf(l.Keys)))
  }

  method String(l: LabelMap) returns (s: string)
    ensures s == Print(l)
  {
    if |l| == 0 {
      return "{}";
    }
    var keys := SortedKeys(l);
    var parts := Assemble(l, keys);
    return PrintParts(parts);
  }

  /** The loop of String. */
  method Assemble(l: LabelMap, keys: seq<string>) returns (parts: seq<string>)
    requires forall k :: k in keys ==> k in l
    ensures parts == Parts(l, keys)
  {
    parts := [];
    for i := 0 to |keys|
      invariant |parts| == i && forall j :: 0 <= j < i ==> parts[j] == Part(l, keys[j])
    {
      parts := parts + [keys[i] + "=" + l[keys[i]]];
    }
  }

  // ---------------------------------------------------------------- parsing

  /** Text before and after the first `c`. */
  function Cut(s: string, c: char): Option<(string, string)> {
    if s == "" then None
    else if s[0] == c then Some(("", s[1..]))
    else match Cut(s[1..], c)
         case None => None
         case Some((before, after)) => Some(([s[0]] + before, after))
  }

  lemma {:induction false} CutFinds(before: string, c: char, after: string)
    requires c !in before
    ensures Cut(before + [c] + after, c) == Some((before, after))
  {
    var s := before + [c] + after;
    if before == "" {
      assert s[1..] == after;
    } else {
      assert s[1..] == before[1..] + [c] + after;
      CutFinds(before[1..], c, after);
      assert [before[0]] + before[1..] == before;
    }
  }

  lemma {:induction false} CutMisses(s: string, c: char)
    requires c !in s
    ensures Cut(s, c) == None
  {
    if s != "" {
      CutMisses(s[1..], c);
    }
  }

  lemma {:induction false} CutSound(s: string, c: char)
    ensures Cut(s, c).Some? ==>
      var (before, after) := Cut(s, c).value; c !in before && s == before + [c] + after
    ensures Cut(s, c).None? ==> c !in s
  {
    if s != "" && s[0] != c {
      CutSound(s[1..], c);
    }
  }

  function Split(s: string): (parts: seq<string>)
    decreases |s|
  {
    CutSound(s, ',');
    match Cut(s, ',')
    case None => [s]
    case Some((before, after)) => [before] + Split(after)
  }

  function ParseParts(parts: seq<string>): Option<LabelMap> {
    if parts == [] then Some(map[]) else
      match (Cut(parts[0], '='), ParseParts(parts[1..]))
      case (Some((k, v)), Some(rest)) => Some(rest[k := v])
      case _ => None
  }

  /** Reads back what String prints. */
  function Parse(s: string): Option<LabelMap> {
    if s == "{}" then Some(map[])
    else if |s| >= 2 && s[0] == '{' && s[|s| - 1] == '}' then ParseParts(Split(s[1..|s| - 1]))
    else None
  }

  /** Labels that keep clear of the separators: '=' and ',' in keys, ',' in values. */
  predicate Clean(l: LabelMap) {
    forall k :: k in l ==> '=' !in k && ',' !in k && ',' !in l[k]
  }

  lemma {:induction false} SplitJoin(parts: seq<string>)
    requires parts != [] && forall i :: 0 <= i < |parts| ==> ',' !in parts[i]
    ensures Split(Join(parts, ",")) == parts
  {
    if |parts| == 1 {
      CutMisses(parts[0], ',');
    } else {
      CutFinds(parts[0], ',', Join(parts[1..], ","));
      SplitJoin(parts[1..]);
      assert [parts[0]] + parts[1..] == parts;
    }
  }

  lemma {:induction false} SplitIsCommaFree(s: string)
    ensures forall i :: 0 <= i < |Split(s)| ==> ',' !in Split(s)[i]
    decreases |s|
  {
    CutSound(s, ',');
    if Cut(s, ',').Some? {
      SplitIsCommaFree(Cut(s, ',').value.1);
    }
  }

  lemma {:induction false} ParsePartsOf(l: LabelMap, keys: seq<string>)
    requires Clean(l) && (forall k :: k in keys ==> k in l)
    ensures ParseParts(Parts(l, keys)) == Some(map k | k in keys :: l[k])
  {
    if keys != [] {
      var rest := keys[1..];
      assert Parts(l, keys)[1..] == Parts(l, rest);
      ParsePartsOf(l, rest);
      CutFinds(keys[0], '=', l[keys[0]]);
      assert Part(l, keys[0]) == keys[0] + ['='] + l[keys[0]];
      assert (map k | k in rest :: l[k])[keys[0] := l[keys[0]]] == (map k | k in keys :: l[k]);
    }
  }

  lemma {:induction false} ParsePartsIsClean(parts: seq<string>)
    requires forall i :: 0 <= i < |parts| ==> ',' !in parts[i]
    ensures ParseParts(parts).Some? ==> Clean(ParseParts(parts).value)
  {
    if parts != [] {
      ParsePartsIsClean(parts[1..]);
      CutSound(parts[0], '=');
    }
  }

  lemma ParseIsClean(s: string)
    ensures Parse(s).Some? ==> Clean(Parse(s).value)
  {
    if |s| >= 2 {
      SplitIsCommaFree(s[1..|s| - 1]);
      ParsePartsIsClean(Split(s[1..|s| - 1]));
    }
  }

  /** The print can be read back exactly when the labels keep clear of the separators. So clean
      labels differ in print from one another; labels that are not clean may print like clean ones
      (PrintCollides). */
  lemma PrintRoundTrip(l: LabelMap)
    ensures Parse(Print(l)) == Some(l) <==> Clean(l)
  {
    ParseIsClean(Print(l));
    if Clean(l) && |l| > 0 {
      var keys := SortedOf(l.Keys);
      var parts := Parts(l, keys);
      var body := Join(parts, ",");
      forall i | 0 <= i < |parts|
        ensures ',' !in parts[i]
      {
        assert keys[i] in l;
      }
      SplitJoin(parts);
      ParsePartsOf(l, keys);
      assert Print(l)[1..|Print(l)| - 1] == body;
      assert (map k | k in keys :: l[k]) == l;
      assert |body| >= |parts[0]| >= 1;
    }
  }

  lemma PartHas(l: LabelMap, k: string, c: char)
    requires k in l && c != '='
    ensures c in Part(l, k) <==> c in k || c in l[k]
  {
  }

  /** A character that is no separator of the print is in it exactly when it is in a key or a
      value. */
  lemma PrintHas(l: LabelMap, c: char)
    requires c !in "{=,}"
    ensures c in Print(l) <==> exists k :: k in l && (c in k || c in l[k])
  {
    hide Join, Part;
    if |l| > 0 {
      var keys := SortedOf(l.Keys);
      var parts := Parts(l, keys);
      JoinHas(parts, ",", c);
      forall i | 0 <= i < |keys|
        ensures keys[i] in l && (c in parts[i] <==> c in keys[i] || c in l[keys[i]])
      {
        assert keys[i] in keys;
        PartHas(l, keys[i], c);
      }
      if k :| k in l && (c in k || c in l[k]) {
        var i :| 0 <= i < |keys| && keys[i] == k;
        assert c in parts[i];
      }
      assert c in Print(l) <==> c in Join(parts, ",");
    }
  }

  /** Any sorted listing of the keys prints the map. */
  lemma PrintFrom(l: LabelMap, keys: seq<string>)
    requires |l| > 0 && Sorted(keys) && forall k :: k in keys <==> k in l
    ensures Print(l) == PrintParts(Parts(l, keys))
  {
    SortedIsUnique(keys, SortedOf(l.Keys));
  }

  lemma PrintOne(k: string, v: string)
    ensures Print(map[k := v]) == "{" + (k + "=" + v) + "}"
  {
    var l: LabelMap := map[k := v];
    PrintFrom(l, [k]);
    assert Parts(l, [k]) == [k + "=" + v];
  }

  lemma PrintTwo(j: string, v: string, k: string, w: string)
    requires Leq(j, k) && j != k
    ensures Print(map[j := v, k := w]) == "{" + (j + "=" + v + "," + (k + "=" + w)) + "}"
  {
    var l: LabelMap := map[j := v, k := w];
    assert j in l && k in l;
    PrintFrom(l, [j, k]);
    var a, b := j + "=" + v, k + "=" + w;
    assert Part(l, j) == a && Part(l, k) == b;
    assert Parts(l, [j, k]) == [a, b];
    assert [a, b][1..] == [b];
    assert Join([a, b], ",") == a + "," + b;
  }

  /** Outside that class two different label maps can print alike, whatever the keys: a comma in
      a value does it. */
  lemma PrintCollides(j: string, v: string, k: string, w: string)
    requires Leq(j, k) && j != k
    ensures Print(map[j := v + "," + (k + "=" + w)]) == Print(map[j := v, k := w])
  {
    hide Print, Leq;
    var tail := k + "=" + w;
    PrintOne(j, v + "," + tail);
    PrintTwo(j, v, k, w);
    ConcatAssociates(j + "=", v + ",", tail);
    ConcatAssociates(j + "=", v, ",");
  }

  lemma ConcatAssociates(a: string, b: string, c: string)
    ensures a + (b + c) == (a + b) + c
  {
  }

  // ---------------------------------------------------------------- matching

  /** Every matcher entry is an entry of the labels. */
  ghost predicate Matching(l: LabelMap, matcher: LabelMap) {
    forall k :: k in matcher ==> k in l && l[k] == matcher[k]
  }

  method Match(l: LabelMap, matcher: LabelMap) returns (r: bool)
    ensures r <==> Matching(l, matcher)
  {
    var rest := matcher.Keys;
    while rest != {}
      invariant rest <= matcher.Keys
      invariant forall k :: k in matcher && k !in rest ==> k in l && l[k] == matcher[k]
      decreases rest
    {
      var k :| k in rest;
      if k !in l || l[k] != matcher[k] {
        return false;
      }
      rest := rest - {k};
    }
    return true;
  }
}
