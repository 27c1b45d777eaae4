/** RenderTemplate: a chain of ReplaceAll calls over a map in no particular order. */
module Template {

  /** strings.ReplaceAll for a non-empty `pattern`: leftmost matches, without overlap. */
  function ReplaceAll(s: string, pattern: string, value: string): string
    requires pattern != ""
    decreases |s|
  {
    if |s| < |pattern| then s
    else if s[..|pattern|] == pattern then value + ReplaceAll(s[|pattern|..], pattern, value)
    else [s[0]] + ReplaceAll(s[1..], pattern, value)
  }

  function Marker(key: string): string {
    "{{." + key + "}}"
  }

  // ---------------------------------------------------------------- templates as pieces

  /** A template is text with holes; `Flatten` is the string an operator wrote. */
  datatype Piece = Text(s: string) | Hole(key: string)

  function PieceString(p: Piece): string {
    match p
    case Text(s) => s
    case Hole(key) => Marker(key)
  }

  function Flatten(ps: seq<Piece>): string {
    if ps == [] then "" else PieceString(ps[0]) + Flatten(ps[1..])
  }

  predicate BraceFree(s: string) {
    forall i :: 0 <= i < |s| ==> s[i] != '{' && s[i] != '}'
  }

  /** Text between holes: it opens no marker. Other braces, as in JSON, are welcome. */
  predicate OpensNothing(s: string) {
    && (forall i :: 0 <= i < |s| - 1 ==> !(s[i] == '{' && s[i + 1] == '{'))
    && (s != "" ==> s[|s| - 1] != '{')
  }

  predicate CleanPiece(p: Piece) {
    match p
    case Text(s) => OpensNothing(s)
    case Hole(key) => BraceFree(key)
  }

  predicate Clean(ps: seq<Piece>) {
    forall i :: 0 <= i < |ps| ==> CleanPiece(ps[i])
  }

  /** All holes of the payload filled at once. */
  function Substitute(ps: seq<Piece>, payload: map<string, string>): seq<Piece> {
    seq(|ps|, i requires 0 <= i < |ps| =>
      if ps[i].Hole? && ps[i].key in payload then Text(payload[ps[i].key]) else ps[i])
  }

  // ---------------------------------------------------------------- where a match can start

  /** No match of the marker starts in `t`, whatever follows: `t` neither contains the marker nor
      ends in a beginning of it. */
  predicate Inert(t: string, key: string) {
    forall i :: 0 <= i < |t| ==> !(Marker(key) <= t[i..]) && !(t[i..] <= Marker(key))
  }

  lemma StartsWith(m: string, u: string, rest: string)
    requires m <= u + rest
    ensures m <= u || u <= m
  {
    if |m| <= |u| {
      assert m == (u + rest)[..|m|] == u[..|m|];
    } else {
      assert u == (u + rest)[..|u|] == m[..|u|];
    }
  }

  lemma InertHasNoMatch(t: string, rest: string, key: string, i: nat)
    requires Inert(t, key) && i < |t|
    ensures !(Marker(key) <= (t + rest)[i..])
  {
    assert (t + rest)[i..] == t[i..] + rest;
    if Marker(key) <= t[i..] + rest {
      StartsWith(Marker(key), t[i..], rest);
    }
  }

  lemma OpensNothingIsInert(t: string, key: string)
    requires OpensNothing(t)
    ensures Inert(t, key)
  {
    forall i | 0 <= i < |t|
      ensures !(Marker(key) <= t[i..]) && !(t[i..] <= Marker(key))
    {
      var u := t[i..];
      if |u| >= 2 {
        assert u[0] == t[i] && u[1] == t[i + 1];
        assert Marker(key)[0] == '{' == Marker(key)[1];
      } else {
        assert u[0] == t[|t| - 1];
        assert Marker(key)[0] == '{';
      }
    }
  }

  /** Where two different brace-free keys, closed by braces, first tell themselves apart. */
  lemma KeysDiffer(a: string, b: string) returns (i: nat)
    requires BraceFree(a) && BraceFree(b) && a != b
    ensures i < |a| + 2 && i < |b| + 2 && (a + "}}")[i] != (b + "}}")[i]
  {
    if |a| < |b| {
      i := |a|;
    } else if |b| < |a| {
      i := |b|;
    } else {
      i :| 0 <= i < |a| && a[i] != b[i];
    }
  }

  lemma CharDiffers(a: string, b: string, i: nat)
    requires i < |a| && i < |b| && a[i] != b[i]
    ensures !(a <= b) && !(b <= a)
  {
  }

  /** No match of one marker starts anywhere in another. */
  lemma MarkerIsInert(hole: string, key: string)
    requires BraceFree(hole) && BraceFree(key) && hole != key
    ensures Inert(Marker(hole), key)
  {
    var m, h := Marker(key), Marker(hole);
    forall i | 0 <= i < |h|
      ensures !(m <= h[i..]) && !(h[i..] <= m)
    {
      if i == 0 {
        var j := KeysDiffer(key, hole);
        assert m[j + 3] == (key + "}}")[j] && h[j + 3] == (hole + "}}")[j];
        CharDiffers(m, h[0..], j + 3);
      } else if i == 1 {
        assert h[1..][1] == '.';
        CharDiffers(m, h[1..], 1);
      } else {
        assert h[i..][0] == h[i] != '{';
        CharDiffers(m, h[i..], 0);
      }
    }
  }

  // ---------------------------------------------------------------- one replacement

  lemma CopiesChar(c: char, s: string, pattern: string, value: string)
    requires pattern != "" && !(pattern <= [c] + s)
    ensures ReplaceAll([c] + s, pattern, value) == [c] + ReplaceAll(s, pattern, value)
  {
    assert ([c] + s)[1..] == s;
  }

  /** Where no match starts in `t`, ReplaceAll copies `t`. */
  lemma {:induction false} CopiesPrefix(t: string, rest: string, pattern: string, value: string)
    requires pattern != ""
    requires forall i :: 0 <= i < |t| ==> !(pattern <= (t + rest)[i..])
    ensures ReplaceAll(t + rest, pattern, value) == t + ReplaceAll(rest, pattern, value)
  {
    if t == "" {
      assert t + rest == rest;
    } else {
      var tail := t[1..];
      assert t + rest == [t[0]] + (tail + rest) == (t + rest)[0..];
      forall i | 0 <= i < |tail|
        ensures !(pattern <= (tail + rest)[i..])
      {
        assert (tail + rest)[i..] == (t + rest)[i + 1..];
      }
      CopiesPrefix(tail, rest, pattern, value);
      CopiesChar(t[0], tail + rest, pattern, value);
    }
  }

  /** Replacing a pattern changes a string exactly when the pattern occurs in it and is not
      replaced by itself. */
  lemma {:induction false} ReplaceChanges(s: string, pattern: string, value: string)
    requires pattern != ""
    ensures ReplaceAll(s, pattern, value) != s
      <==> value != pattern && exists i :: 0 <= i <= |s| && pattern <= s[i..]
    ensures |value| <= |pattern| ==> |ReplaceAll(s, pattern, value)| <= |s|
    ensures |value| >= |pattern| ==> |ReplaceAll(s, pattern, value)| >= |s|
    decreases |s|
  {
    if |s| < |pattern| {
    } else if s[..|pattern|] == pattern {
      var rest := s[|pattern|..];
      ReplaceChanges(rest, pattern, value);
      assert s == pattern + rest && pattern <= s[0..];
      if |value| == |pattern| && ReplaceAll(s, pattern, value) == s {
        assert value == ReplaceAll(s, pattern, value)[..|value|] == pattern;
      }
    } else {
      var tail := s[1..];
      ReplaceChanges(tail, pattern, value);
      assert s == [s[0]] + tail && ReplaceAll(s, pattern, value)[1..] == ReplaceAll(tail, pattern, value);
      assert forall i :: 0 <= i <= |tail| ==> tail[i..] == s[i + 1..];
      if i :| 0 <= i <= |s| && pattern <= s[i..] {
        assert i > 0 && tail[i - 1..] == s[i..];
      }
    }
  }

  function FillKey(ps: seq<Piece>, key: string, value: string): seq<Piece> {
    Substitute(ps, map[key := value])
  }

  /** Nothing in the pieces starts a match of the key's marker, except its own holes. */
  predicate Quiet(ps: seq<Piece>, key: string) {
    forall i :: 0 <= i < |ps| ==> ps[i] == Hole(key) || Inert(PieceString(ps[i]), key)
  }

  /** One ReplaceAll fills exactly the holes of its key. */
  lemma {:induction false} ReplaceFillsKey(ps: seq<Piece>, key: string, value: string)
    requires Quiet(ps, key)
    ensures ReplaceAll(Flatten(ps), Marker(key), value) == Flatten(FillKey(ps, key, value))
  {
    if ps != [] {
      var head, rest := PieceString(ps[0]), Flatten(ps[1..]);
      ReplaceFillsKey(ps[1..], key, value);
      assert FillKey(ps, key, value)[1..] == FillKey(ps[1..], key, value);
      if ps[0] == Hole(key) {
        assert (head + rest)[..|head|] == head && (head + rest)[|head|..] == rest;
      } else {
        forall i | 0 <= i < |head|
          ensures !(Marker(key) <= (head + rest)[i..])
        {
          InertHasNoMatch(head, rest, key, i);
        }
        CopiesPrefix(head, rest, Marker(key), value);
      }
    }
  }

  lemma CleanIsQuiet(ps: seq<Piece>, key: string)
    requires Clean(ps) && BraceFree(key)
    ensures Quiet(ps, key)
  {
    forall i | 0 <= i < |ps|
      ensures ps[i] == Hole(key) || Inert(PieceString(ps[i]), key)
    {
      assert CleanPiece(ps[i]);
      match ps[i]
      case Text(s) => OpensNothingIsInert(s, key);
      case Hole(k) =>
        if k != key {
          MarkerIsInert(k, key);
        }
    }
  }

  // ---------------------------------------------------------------- one order of the payload

  /** The chain of replacements in one order of the keys. */
  function Fill(s: string, order: seq<string>, payload: map<string, string>): string
    requires forall k :: k in order ==> k in payload
  {
    if order == [] then s else
      var n := |order| - 1;
      ReplaceAll(Fill(s, order[..n], payload), Marker(order[n]), payload[order[n]])
  }

  predicate Distinct(order: seq<string>) {
    forall i, j :: 0 <= i < j < |order| ==> order[i] != order[j]
  }

  /** One order in which Go may range over the payload. */
  ghost predicate IsOrder(order: seq<string>, payload: map<string, string>) {
    Distinct(order) && forall k :: k in order <==> k in payload
  }

  /** Every order fills every template as one simultaneous substitution would. */
  ghost predicate AlwaysAtOnce(payload: map<string, string>) {
    forall ps, order :: Clean(ps) && IsOrder(order, payload) ==> FillsAtOnce(ps, order, payload)
  }

  /** Any two orders make the same of any template. */
  ghost predicate OrderFree(payload: map<string, string>) {
    forall ps, order, other :: Clean(ps) && IsOrder(order, payload) && IsOrder(other, payload) ==>
      Fill(Flatten(ps), order, payload) == Fill(Flatten(ps), other, payload)
  }

  ghost predicate FillsAtOnce(ps: seq<Piece>, order: seq<string>, payload: map<string, string>)
    requires IsOrder(order, payload)
  {
    Fill(Flatten(ps), order, payload) == Flatten(Substitute(ps, payload))
  }

  /** What a caller can check on the payload: no value carries the marker of another key, nor ends
      in a beginning of it, unless that other key just stands for its own marker. */
  predicate Peaceful(payload: map<string, string>) {
    forall a, b :: a in payload && b in payload && a != b ==> Harmless(payload[a], b, payload[b])
  }

  predicate Harmless(value: string, key: string, keyValue: string) {
    keyValue == Marker(key) || Inert(value, key)
  }

  predicate PlainKeys(payload: map<string, string>) {
    forall k :: k in payload ==> BraceFree(k)
  }

  function Restrict(payload: map<string, string>, order: seq<string>): map<string, string>
    requires forall k :: k in order ==> k in payload
  {
    map k | k in order :: payload[k]
  }

  /** A key that stands for its own marker fills nothing. */
  lemma {:induction false} OwnMarkerFillsNothing(ps: seq<Piece>, key: string)
    ensures Flatten(FillKey(ps, key, Marker(key))) == Flatten(ps)
  {
    if ps != [] {
      OwnMarkerFillsNothing(ps[1..], key);
      assert FillKey(ps, key, Marker(key))[1..] == FillKey(ps[1..], key, Marker(key));
    }
  }

  /** What one replacement makes of pieces in which only harmless values were filled in. */
  lemma FillOneMore(ps: seq<Piece>, done: map<string, string>, key: string, value: string)
    requires Clean(ps) && BraceFree(key) && key !in done
    requires forall k :: k in done ==> Harmless(done[k], key, value)
    ensures ReplaceAll(Flatten(Substitute(ps, done)), Marker(key), value)
         == Flatten(Substitute(ps, done[key := value]))
  {
    var filled := Substitute(ps, done);
    assert FillKey(filled, key, value) == Substitute(ps, done[key := value]);
    if value == Marker(key) {
      OwnMarkerFillsNothing(filled, key);
      ReplaceChanges(Flatten(filled), Marker(key), value);
    } else {
      CleanIsQuiet(ps, key);
      ReplaceFillsKey(filled, key, value);
    }
  }

  lemma {:induction false} PeacefulFills(ps: seq<Piece>, order: seq<string>, payload: map<string, string>)
    requires Clean(ps) && Distinct(order) && (forall k :: k in order ==> k in payload)
    requires PlainKeys(payload) && Peaceful(payload)
    ensures Fill(Flatten(ps), order, payload) == Flatten(Substitute(ps, Restrict(payload, order)))
  {
    if order == [] {
      assert Substitute(ps, Restrict(payload, order)) == ps;
    } else {
      var n := |order| - 1;
      var key, before := order[n], order[..n];
      PeacefulFills(ps, before, payload);
      FillOneMore(ps, Restrict(payload, before), key, payload[key]);
      assert Restrict(payload, order) == Restrict(payload, before)[key := payload[key]] by {
        assert order == before + [key];
      }
    }
  }

  // ---------------------------------------------------------------- the exact condition

  /** Keys that have no hole in the template leave it alone. */
  lemma {:induction false} AbsentKeysFillNothing(ps: seq<Piece>, order: seq<string>, payload: map<string, string>)
    requires Clean(ps) && (forall k :: k in order ==> k in payload) && PlainKeys(payload)
    requires forall k :: k in order ==> Hole(k) !in ps
    ensures Fill(Flatten(ps), order, payload) == Flatten(ps)
  {
    if order != [] {
      var n := |order| - 1;
      var key := order[n];
      AbsentKeysFillNothing(ps, order[..n], payload);
      CleanIsQuiet(ps, key);
      ReplaceFillsKey(ps, key, payload[key]);
      assert key in order;
      assert FillKey(ps, key, payload[key]) == ps;
    }
  }

  /** What is left of a marker opens nothing. */
  lemma MarkerTailOpensNothing(key: string, n: nat)
    requires BraceFree(key) && 0 < n <= |Marker(key)|
    ensures OpensNothing(Marker(key)[n..])
  {
    var m := Marker(key);
    assert m == "{{." + (key + "}}");
    assert forall j :: 3 <= j < |m| ==> m[j] == (key + "}}")[j - 3];
    assert forall j :: 1 < j < |m| ==> m[j] != '{';
    var rest := m[n..];
    assert forall j :: 0 <= j < |rest| ==> rest[j] == m[n + j];
  }

  /** A template that tells when a's value is not harmless to b: a's hole, then whatever completes
      b's marker after it. */
  lemma Telltale(value: string, b: string) returns (rest: string, i: nat)
    requires BraceFree(b) && !Inert(value, b)
    ensures OpensNothing(rest) && i <= |value + rest| && Marker(b) <= (value + rest)[i..]
  {
    var m := Marker(b);
    i :| i < |value| && (m <= value[i..] || value[i..] <= m);
    if m <= value[i..] {
      rest := "";
      assert value + rest == value;
    } else {
      var n := |value| - i;
      MarkerTailOpensNothing(b, n);
      rest := m[n..];
      assert (value + rest)[i..] == value[i..] + rest == m;
    }
  }

  lemma AnOrder(keys: set<string>) returns (order: seq<string>)
    ensures Distinct(order) && forall k :: k in order <==> k in keys
  {
    order := [];
    var rest := keys;
    while rest != {}
      invariant rest <= keys && Distinct(order) && forall k :: k in order <==> k in keys && k !in rest
      decreases rest
    {
      var k :| k in rest;
      order, rest := order + [k], rest - {k};
    }
  }

  /** A value that is not harmless shows, when the other key is filled after it. */
  lemma Disturbed(a: string, va: string, b: string, vb: string) returns (ps: seq<Piece>)
    requires BraceFree(a) && BraceFree(b) && a != b && !Harmless(va, b, vb)
    ensures Clean(ps) && forall k :: Hole(k) in ps ==> k == a
    ensures ReplaceAll(ReplaceAll(Flatten(ps), Marker(a), va), Marker(b), vb)
         != Flatten(Substitute(ps, map[a := va, b := vb]))
  {
    hide Inert;
    var rest, i := Telltale(va, b);
    ps := [Hole(a), Text(rest)];
    CleanIsQuiet(ps, a);
    ReplaceFillsKey(ps, a, va);
    TwoTexts(va, rest);
    assert FillKey(ps, a, va) == [Text(va), Text(rest)] == Substitute(ps, map[a := va, b := vb]);
    ReplaceChanges(va + rest, Marker(b), vb);
  }

  lemma FillNext(s: string, order: seq<string>, key: string, payload: map<string, string>)
    requires key in payload && forall k :: k in order ==> k in payload
    ensures Fill(s, order + [key], payload) == ReplaceAll(Fill(s, order, payload), Marker(key), payload[key])
  {
    assert (order + [key])[..|order|] == order;
  }

  /** The two keys filled last, one way and the other, where only the first has holes. */
  lemma FillLastTwo(ps: seq<Piece>, others: seq<string>, a: string, b: string, payload: map<string, string>)
    requires Clean(ps) && PlainKeys(payload) && a in payload && b in payload && a != b
    requires (forall k :: Hole(k) in ps ==> k == a) && a !in others && forall k :: k in others ==> k in payload
    ensures Fill(Flatten(ps), others + [a] + [b], payload)
         == ReplaceAll(ReplaceAll(Flatten(ps), Marker(a), payload[a]), Marker(b), payload[b])
    ensures Fill(Flatten(ps), others + [b] + [a], payload) == ReplaceAll(Flatten(ps), Marker(a), payload[a])
  {
    hide ReplaceAll, Flatten, Marker, Clean, Fill;
    AbsentKeysFillNothing(ps, others, payload);
    FillNext(Flatten(ps), others, a, payload);
    FillNext(Flatten(ps), others + [a], b, payload);
    AbsentKeysFillNothing(ps, others + [b], payload);
    FillNext(Flatten(ps), others + [b], a, payload);
  }

  /** One key has all the holes: filling it is filling everything. */
  lemma FillOnlyKey(ps: seq<Piece>, a: string, payload: map<string, string>)
    requires Clean(ps) && a in payload && BraceFree(a) && forall k :: Hole(k) in ps ==> k == a
    ensures ReplaceAll(Flatten(ps), Marker(a), payload[a]) == Flatten(Substitute(ps, payload))
  {
    hide ReplaceAll, Flatten, Marker, Quiet, Clean;
    CleanIsQuiet(ps, a);
    ReplaceFillsKey(ps, a, payload[a]);
    assert FillKey(ps, a, payload[a]) == Substitute(ps, payload);
  }

  lemma IsOrderOf(others: seq<string>, a: string, b: string, payload: map<string, string>)
    requires a in payload && b in payload && a != b && Distinct(others)
    requires forall k :: k in others <==> k in payload && k != a && k != b
    ensures IsOrder(others + [a] + [b], payload)
  {
  }

  /** So it shows: the order that fills its key and then the other one last disturbs the template,
      and the order that swaps these two does not. */
  lemma DisturbedOrder(payload: map<string, string>, a: string, b: string)
    returns (ps: seq<Piece>, order: seq<string>, other: seq<string>)
    requires PlainKeys(payload) && a in payload && b in payload && a != b
    requires !Harmless(payload[a], b, payload[b])
    ensures Clean(ps) && IsOrder(order, payload) && IsOrder(other, payload)
    ensures !FillsAtOnce(ps, order, payload) && FillsAtOnce(ps, other, payload)
  {
    hide ReplaceAll, Flatten, Marker, Harmless, Clean, Fill, Distinct, IsOrder;
    ps := Disturbed(a, payload[a], b, payload[b]);
    var others := AnOrder(payload.Keys - {a, b});
    order, other := others + [a] + [b], others + [b] + [a];
    IsOrderOf(others, a, b, payload);
    IsOrderOf(others, b, a, payload);
    FillLastTwo(ps, others, a, b, payload);
    FillOnlyKey(ps, a, payload);
    FillOnlyKey(ps, a, map[a := payload[a], b := payload[b]]);
  }

  lemma TwoTexts(s: string, t: string)
    ensures Flatten([Text(s), Text(t)]) == s + t
  {
    assert [Text(s), Text(t)][1..] == [Text(t)] && [Text(t)][1..] == [];
    assert Flatten([Text(t)]) == t + "" == t;
  }

  /** Every order fills every template like a simultaneous substitution exactly when the payload is
      peaceful, and exactly then the orders agree with one another at all. */
  lemma ConfluentWhenPeaceful(payload: map<string, string>)
    requires PlainKeys(payload)
    ensures AlwaysAtOnce(payload) <==> Peaceful(payload)
    ensures OrderFree(payload) <==> Peaceful(payload)
  {
    hide Peaceful, Fill, IsOrder, Flatten, Clean, Substitute;
    if Peaceful(payload) {
      PeacefulIsAtOnce(payload);
    } else {
      var ps, order, other := Unpeaceful(payload);
    }
  }

  lemma PeacefulIsAtOnce(payload: map<string, string>)
    requires PlainKeys(payload) && Peaceful(payload)
    ensures AlwaysAtOnce(payload)
  {
    hide Peaceful, Fill, Flatten, Clean, Substitute;
    forall ps, order | Clean(ps) && IsOrder(order, payload)
      ensures FillsAtOnce(ps, order, payload)
    {
      PeacefulFills(ps, order, payload);
      assert Restrict(payload, order) == payload;
    }
  }

  lemma Unpeaceful(payload: map<string, string>) returns (ps: seq<Piece>, order: seq<string>, other: seq<string>)
    requires PlainKeys(payload) && !Peaceful(payload)
    ensures Clean(ps) && IsOrder(order, payload) && IsOrder(other, payload)
    ensures !FillsAtOnce(ps, order, payload) && FillsAtOnce(ps, other, payload)
  {
    var a, b :| a in payload && b in payload && a != b && !Harmless(payload[a], b, payload[b]);
    ps, order, other := DisturbedOrder(payload, a, b);
  }

  /** In particular for two keys, filled one after the other. */
  lemma TwoKeys(a: string, va: string, b: string, vb: string)
    requires BraceFree(a) && BraceFree(b) && a != b
    ensures (forall ps :: Clean(ps) ==>
               ReplaceAll(ReplaceAll(Flatten(ps), Marker(a), va), Marker(b), vb)
               == Flatten(Substitute(ps, map[a := va, b := vb])))
      <==> Harmless(va, b, vb)
  {
    var payload := map[a := va, b := vb];
    if Harmless(va, b, vb) {
      forall ps | Clean(ps)
        ensures ReplaceAll(ReplaceAll(Flatten(ps), Marker(a), va), Marker(b), vb) == Flatten(Substitute(ps, payload))
      {
        assert Substitute(ps, map[]) == ps;
        FillOneMore(ps, map[], a, va);
        FillOneMore(ps, map[a := va], b, vb);
      }
    } else {
      var ps := Disturbed(a, va, b, vb);
    }
  }

  /** A value that is another key's placeholder, for one: the two orders of this payload make
      different texts of a template with a single hole. */
  lemma OrderMattersForPlaceholders(a: string, b: string, value: string)
    requires BraceFree(a) && BraceFree(b) && a != b && value != Marker(b)
    ensures var payload := map[a := Marker(b), b := value];
      && Fill(Marker(a), [a, b], payload) == value
      && Fill(Marker(a), [b, a], payload) == Marker(b)
      && !OrderFree(payload)
  {
    hide ReplaceAll, Marker, Fill;
    var payload := map[a := Marker(b), b := value];
    FillOwnMarker(a, Marker(b));
    FillOwnMarker(b, value);
    FillOtherMarker(a, b, value);
    FillTwo(Marker(a), a, b, payload);
    FillTwo(Marker(a), b, a, payload);
    FlattenOne(Hole(a));
    var ps := [Hole(a)];
    assert Clean(ps) && IsOrder([a, b], payload) && IsOrder([b, a], payload);
  }

  lemma FillTwo(s: string, a: string, b: string, payload: map<string, string>)
    requires a in payload && b in payload
    ensures Fill(s, [a, b], payload) == ReplaceAll(ReplaceAll(s, Marker(a), payload[a]), Marker(b), payload[b])
  {
    hide ReplaceAll, Marker;
    FillNext(s, [], a, payload);
    FillNext(s, [a], b, payload);
    assert [] + [a] == [a] && [a] + [b] == [a, b];
  }

  lemma FlattenOne(p: Piece)
    ensures Flatten([p]) == PieceString(p)
  {
    assert [p][1..] == [];
  }

  lemma FillOwnMarker(key: string, value: string)
    ensures ReplaceAll(Marker(key), Marker(key), value) == value
  {
    var m := Marker(key);
    assert m[..|m|] == m && m[|m|..] == "";
  }

  lemma FillOtherMarker(hole: string, key: string, value: string)
    requires BraceFree(hole) && BraceFree(key) && hole != key
    ensures ReplaceAll(Marker(hole), Marker(key), value) == Marker(hole)
  {
    MarkerIsInert(hole, key);
    FlattenOne(Hole(hole));
    ReplaceFillsKey([Hole(hole)], key, value);
    assert FillKey([Hole(hole)], key, value) == [Hole(hole)];
  }

  // ---------------------------------------------------------------- the method

  /** What substituting the payload at once makes of `template`, however it is read as pieces. */
  ghost predicate Rendered(template: string, payload: map<string, string>, result: string) {
    forall ps: seq<Piece> :: Clean(ps) && Flatten(ps) == template ==> result == Flatten(Substitute(ps, payload))
  }

  lemma PeacefulRenders(template: string, order: seq<string>, payload: map<string, string>)
    requires IsOrder(order, payload) && PlainKeys(payload) && Peaceful(payload)
    ensures Rendered(template, payload, Fill(template, order, payload))
  {
    forall ps: seq<Piece> | Clean(ps) && Flatten(ps) == template
      ensures Fill(template, order, payload) == Flatten(Substitute(ps, payload))
    {
      PeacefulFills(ps, order, payload);
      assert Restrict(payload, order) == payload;
    }
  }

  lemma FlattenThree(a: Piece, b: Piece, c: Piece)
    ensures Flatten([a, b, c]) == PieceString(a) + PieceString(b) + PieceString(c)
  {
    assert [a, b, c][1..] == [b, c] && [b, c][1..] == [c] && [c][1..] == [];
    assert Flatten([c]) == PieceString(c) + "" == PieceString(c);
    assert Flatten([b, c]) == PieceString(b) + PieceString(c);
  }

  /** The placeholder of a key, as an operator writes it, gives way to the value. */
  lemma PlaceholderIsFilled(before: string, key: string, after: string, value: string)
    requires OpensNothing(before) && OpensNothing(after) && BraceFree(key)
    ensures Fill(before + ("{{." + key + "}}") + after, [key], map[key := value]) == before + value + after
  {
    var payload, ps := map[key := value], [Text(before), Hole(key), Text(after)];
    PeacefulRenders(before + ("{{." + key + "}}") + after, [key], payload);
    FlattenThree(Text(before), Hole(key), Text(after));
    FlattenThree(Text(before), Text(value), Text(after));
    assert Substitute(ps, payload) == [Text(before), Text(value), Text(after)];
  }

  /** Go ranges over the payload map in any order; `:|` leaves the order open in the same way. A
      peaceful payload gives the simultaneous substitution in every one. */
  method RenderTemplate(subject: string, body: string, payload: map<string, string>)
    returns (subject': string, body': string, ghost order: seq<string>)
    ensures IsOrder(order, payload)
    ensures subject' == Fill(subject, order, payload) && body' == Fill(body, order, payload)
    ensures PlainKeys(payload) && Peaceful(payload) ==>
      Rendered(subject, payload, subject') && Rendered(body, payload, body')
  {
    subject', body', order := subject, body, [];
    var rest := payload.Keys;
    while rest != {}
      invariant rest <= payload.Keys
      invariant Distinct(order) && forall k :: k in order <==> k in payload && k !in rest
      invariant subject' == Fill(subject, order, payload) && body' == Fill(body, order, payload)
      decreases rest
    {
      var k :| k in rest;
      subject' := ReplaceAll(subject', Marker(k), payload[k]);
      body' := ReplaceAll(body', Marker(k), payload[k]);
      assert (order + [k])[..|order|] == order;
      order, rest := order + [k], rest - {k};
    }
    if PlainKeys(payload) && Peaceful(payload) {
      PeacefulRenders(subject, order, payload);
      PeacefulRenders(body, order, payload);
    }
  }
}
