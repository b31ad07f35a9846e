/**
 When two material maps share their canonical text, so that no hash can tell them apart: over all
 maps, over the maps with one fixed set of keys, and over the health snapshots that are accepted.
 */
module MaterialCollisions {
  import opened Common
  import opened Strings
  import opened MaterialHash

  // ---------------------------------------------------------------- all maps

  lemma LinesDependOn(keys: seq<string>, m: Material, n: Material)
    requires forall k :: k in keys ==> k in m && k in n && m[k] == n[k]
    ensures Lines(keys, m) == Lines(keys, n)
  {}

  lemma EnumeratedByOne(keys: seq<string>, m: Material)
    requires Enumerates(keys, m.Keys)
    ensures |keys| == 0 ==> m == map[]
    ensures |keys| == 1 ==> m == map[keys[0] := m[keys[0]]] && |m| == 1
    ensures |keys| >= 2 ==> |m| >= 2
  {
    assert forall k :: k in m <==> k in keys;
    if |keys| >= 2 {
      LessIsTotal(keys[0], keys[1]);
    }
    hide Enumerates, Less;
    if |keys| == 0 {
      assert forall k :: k !in m;
    } else if |keys| == 1 {
      assert keys[0] in keys;
      OnlyKey(m, keys[0]);
    } else {
      assert keys[0] in keys && keys[1] in keys;
      TwoKeys(m, keys[0], keys[1]);
    }
  }

  lemma OnlyKey(m: Material, k: string)
    requires k in m && forall l :: l in m ==> l == k
    ensures m == map[k := m[k]] && |m| == 1
  {
    assert m == map[k := m[k]];
  }

  lemma TwoKeys(m: Material, k: string, l: string)
    requires k in m && l in m && k != l
    ensures |m| >= 2
  {
    assert {k, l} <= m.Keys;
    assert |m.Keys| == |m.Keys - {k, l}| + |{k, l}|;
    assert |m.Keys| == |m|;
  }

  function Merged(keys: seq<string>, m: Material): Material
    requires |keys| >= 2 && keys[0] in m && keys[1] in m
  {
    (m - {keys[1]})[keys[0] := m[keys[0]] + "\n" + keys[1] + "=" + m[keys[1]]]
  }

  /** The first two entries of a map, written as one. */
  lemma MergedSharesText(keys: seq<string>, m: Material)
    requires Enumerates(keys, m.Keys) && |keys| >= 2
    ensures keys[0] in m && keys[1] in m && Merged(keys, m) != m && IsCanonical(Lines(keys, m), Merged(keys, m))
  {
    hide Less;
    assert keys[0] in keys && keys[1] in keys;
    LessIsTotal(keys[0], keys[1]);
    var n := Merged(keys, m);
    assert keys[1] !in n;
    MergedIsEnumerated(keys, m);
    MergedText(keys, m);
    assert IsCanonical(Lines([keys[0]] + keys[2..], n), n);
  }

  lemma MergedIsEnumerated(keys: seq<string>, m: Material)
    requires Enumerates(keys, m.Keys) && |keys| >= 2 && keys[0] in m && keys[1] in m
    ensures Enumerates([keys[0]] + keys[2..], Merged(keys, m).Keys)
  {
    hide Less;
    var n, fewer := Merged(keys, m), [keys[0]] + keys[2..];
    LessIsTotal(keys[0], keys[1]);
    forall x ensures x in fewer <==> x in n.Keys { MergedKeys(keys, x); }
    assert forall i :: 0 < i < |fewer| ==> fewer[i] == keys[i + 1];
  }

  lemma MergedLines(k: string, l: string, rest: seq<string>, m: Material, n: Material)
    requires k in m && l in m && k in n && n[k] == m[k] + "\n" + l + "=" + m[l]
    requires forall x :: x in rest ==> x in m && x in n && m[x] == n[x]
    ensures Lines([k] + rest, n) == Lines([k] + [l] + rest, m)
  {
    LinesDependOn(rest, m, n);
    assert ([k] + rest)[1..] == rest && ([k] + [l] + rest)[1..] == [l] + rest && ([l] + rest)[1..] == rest;
    MergedLine(k, m[k], l, m[l]);
    hide Line;
    assert Line(k, m[k]) + (Line(l, m[l]) + Lines(rest, m)) == Line(k, m[k]) + Line(l, m[l]) + Lines(rest, m);
  }

  lemma MergedLine(k: string, v: string, l: string, w: string)
    ensures Line(k, v) + Line(l, w) == Line(k, v + "\n" + l + "=" + w)
  {}

  lemma MergedText(keys: seq<string>, m: Material)
    requires Enumerates(keys, m.Keys) && |keys| >= 2 && keys[0] in m && keys[1] in m
    requires Enumerates([keys[0]] + keys[2..], Merged(keys, m).Keys)
    ensures Lines([keys[0]] + keys[2..], Merged(keys, m)) == Lines(keys, m)
  {
    hide Enumerates, StrictlyIncreasing, Lines;
    var k, l, rest, n := keys[0], keys[1], keys[2..], Merged(keys, m);
    EnumeratedKeys(keys, m);
    assert keys == [k] + [l] + rest;
    forall x | x in rest ensures x in m && x in n && m[x] == n[x] { RestIsOther(keys, m, x); }
    MergedLines(k, l, rest, m, n);
  }

  lemma EnumeratedKeys(keys: seq<string>, m: Material)
    requires Enumerates(keys, m.Keys)
    ensures forall k :: k in keys ==> k in m
  {}

  lemma RestIsOther(keys: seq<string>, m: Material, x: string)
    requires Enumerates(keys, m.Keys) && |keys| >= 2 && x in keys[2..]
    ensures x != keys[0] && x != keys[1]
  {
    MergedKeys(keys, x);
  }

  lemma MergedKeys(keys: seq<string>, x: string)
    requires StrictlyIncreasing(BY_NAME, keys) && |keys| >= 2
    ensures x in [keys[0]] + keys[2..] <==> x in keys && x != keys[1]
    ensures x in keys[2..] ==> x != keys[0] && x != keys[1]
  {
    hide Less;
    var k, l, rest := keys[0], keys[1], keys[2..];
    assert keys == [k] + [l] + rest;
    LessIsTotal(k, l);
    if x in rest {
      var i :| 0 <= i < |rest| && rest[i] == x;
      assert keys[i + 2] == x;
      LessIsTotal(k, keys[i + 2]);
      LessIsTotal(l, keys[i + 2]);
    }
  }

  /** A single entry whose key or value holds '=', divided there. */
  lemma DividedSharesText(k: string, v: string) returns (n: Material)
    requires '=' in k || '=' in v
    ensures n != map[k := v] && IsCanonical(Line(k, v), n)
  {
    var key, value: string;
    if '=' in k {
      var p :| 0 <= p < |k| && k[p] == '=';
      key, value := k[..p], k[p + 1..] + "=" + v;
      assert k == k[..p] + "=" + k[p + 1..];
    } else {
      var p :| 0 <= p < |v| && v[p] == '=';
      key, value := k + "=" + v[..p], v[p + 1..];
      assert v == v[..p] + "=" + v[p + 1..];
    }
    n := map[key := value];
    assert Line(key, value) == Line(k, v);
    assert key in n && |key| != |k|;
    assert Enumerates([key], n.Keys);
    assert Lines([key], n) == Line(key, value) + Lines([], n);
  }

  lemma TwoLinesTwoSigns(keys: seq<string>, n: Material) returns (p: nat, q: nat)
    requires |keys| >= 2 && forall x :: x in keys ==> x in n
    ensures p < q < |Lines(keys, n)| && Lines(keys, n)[p] == '=' == Lines(keys, n)[q]
  {
    var k, l := keys[0], keys[1];
    assert k in keys && l in keys && keys[1..][0] == l;
    var first, second, rest := Line(k, n[k]), Line(l, n[l]), Lines(keys[1..][1..], n);
    assert Lines(keys, n) == first + (second + rest);
    assert first[|k|] == '=' && second[|l|] == '=';
    p, q := |k|, |first| + |l|;
  }

  /** A single entry without any '=' is read back in one way only. */
  lemma PlainEntryIsAlone(k: string, v: string, keys: seq<string>, n: Material)
    requires '=' !in k && '=' !in v && (forall x :: x in keys ==> x in n) && Lines(keys, n) == Line(k, v)
    ensures |keys| == 1 && keys[0] == k && n[k] == v
  {
    var text := Line(k, v);
    assert forall p :: 0 <= p < |text| && text[p] == '=' ==> p == |k|;
    assert keys != [] && keys[0] in n;
    if |keys| > 1 {
      var p, q := TwoLinesTwoSigns(keys, n);
    } else {
      var l := keys[0];
      OneLine(keys, n);
      assert text == Line(l, n[l]) && text[|l|] == '=';
      assert l == text[..|l|] == k;
      assert text[|k| + 1..|text| - 1] == v && Line(k, n[k])[|k| + 1..|text| - 1] == n[k];
    }
  }

  /** Over all maps, exactly those of at most one entry without any '=' have a text of their own. */
  lemma SharesTextWithSomeMapExactlyWhen(m: Material)
    ensures (exists n: Material :: n != m && IsCanonical(Canonical(m), n)) <==>
            |m| >= 2 || exists k :: k in m && ('=' in k || '=' in m[k])
  {
    var text := Canonical(m);
    var keys :| Enumerates(keys, m.Keys) && text == Lines(keys, m);
    EnumeratedByOne(keys, m);
    if |keys| >= 2 {
      MergedSharesText(keys, m);
    } else if |keys| == 1 && ('=' in keys[0] || '=' in m[keys[0]]) {
      OneLine(keys, m);
      var n := DividedSharesText(keys[0], m[keys[0]]);
    } else {
      forall n: Material | IsCanonical(text, n) ensures n == m {
        var others :| Enumerates(others, n.Keys) && text == Lines(others, n);
        EnumeratedByOne(others, n);
        if |keys| == 1 {
          OneLine(keys, m);
          PlainEntryIsAlone(keys[0], m[keys[0]], others, n);
        } else {
          NoLine(others, n);
        }
      }
      assert forall k :: k in m ==> k in keys;
    }
  }

  lemma OneLine(keys: seq<string>, m: Material)
    requires |keys| == 1 && keys[0] in m
    ensures Lines(keys, m) == Line(keys[0], m[keys[0]])
  {
    assert keys[1..] == [];
  }

  lemma NoLine(keys: seq<string>, n: Material)
    requires (forall x :: x in keys ==> x in n) && Lines(keys, n) == ""
    ensures keys == []
  {}

  // ---------------------------------------------------------------- maps with one fixed set of keys

  predicate CleanKey(k: string) {
    '=' !in k && '\n' !in k
  }

  /** What stands between two values in the text. */
  function Sep(k: string): string {
    "\n" + k + "="
  }

  predicate OccursAt(s: string, x: string, p: nat) {
    p + |x| <= |s| && s[p..p + |x|] == x
  }

  predicate NonBlank(s: string) {
    exists i :: 0 <= i < |s| && !IsSpace(s[i])
  }

  /** x occurs in v; with `strict`, after something that is not blank. */
  predicate DividesAfter(v: string, x: string, strict: bool) {
    exists p :: 0 <= p <= |v| && OccursAt(v, x, p) && (strict ==> NonBlank(v[..p]))
  }

  /** x occurs in v; with `strict`, before something that is not blank. */
  predicate DividesBefore(v: string, x: string, strict: bool) {
    exists p :: 0 <= p <= |v| && OccursAt(v, x, p) && (strict ==> NonBlank(v[p + |x|..]))
  }

  /** Value i can give a part of itself to the next value, or to the one before. */
  predicate Divisible(keys: seq<string>, m: Material, i: nat, strict: bool)
    requires forall k :: k in keys ==> k in m
  {
    && i < |keys|
    && (|| (i + 1 < |keys| && DividesAfter(m[keys[i]], Sep(keys[i + 1]), strict))
        || (i > 0 && DividesBefore(m[keys[i]], Sep(keys[i]), strict)))
  }

  ghost predicate AllNonBlank(m: Material) {
    forall k :: k in m ==> NonBlank(m[k])
  }

  /** Another map with the same keys has the same text; with `strict`, one without blank values. */
  ghost predicate SharesText(m: Material, strict: bool) {
    exists n: Material :: IsTwin(m, n, strict)
  }

  ghost predicate IsTwin(m: Material, n: Material, strict: bool) {
    n != m && n.Keys == m.Keys && (strict ==> AllNonBlank(n)) && IsCanonical(Canonical(m), n)
  }

  /** The text from the first value on. */
  function Body(keys: seq<string>, m: Material): string
    requires keys != [] && forall k :: k in keys ==> k in m
  {
    m[keys[0]] + if |keys| == 1 then "" else Sep(keys[1]) + Body(keys[1..], m)
  }

  lemma BodyMeans(keys: seq<string>, m: Material)
    requires keys != [] && forall k :: k in keys ==> k in m
    ensures |keys| == 1 ==> Body(keys, m) == m[keys[0]]
    ensures |keys| > 1 ==> Body(keys, m) == m[keys[0]] + Sep(keys[1]) + Body(keys[1..], m)
  {}

  lemma OneMoreLine(k: string, v: string, l: string, body: string)
    ensures Line(k, v) + (l + "=" + body + "\n") == k + "=" + (v + Sep(l) + body) + "\n"
  {}

  lemma {:induction false} LinesAreBody(keys: seq<string>, m: Material)
    requires keys != [] && forall k :: k in keys ==> k in m
    ensures Lines(keys, m) == keys[0] + "=" + Body(keys, m) + "\n"
  {
    hide Line, Sep, Body;
    BodyMeans(keys, m);
    if |keys| == 1 {
      OneLine(keys, m);
      LineMeans(keys[0], m[keys[0]]);
    } else {
      LinesAreBody(keys[1..], m);
      OneMoreLine(keys[0], m[keys[0]], keys[1], Body(keys[1..], m));
    }
  }

  lemma LineMeans(k: string, v: string)
    ensures Line(k, v) == k + "=" + v + "\n"
  {}

  lemma SepMeans(s: string, k: string, p: nat)
    requires CleanKey(k) && OccursAt(s, Sep(k), p)
    ensures s[p] == '\n' && s[p + 1..p + 1 + |k|] == k && s[p + 1 + |k|] == '='
    ensures forall i :: p < i < p + |Sep(k)| ==> s[i] != '\n'
    ensures forall i :: p < i <= p + |k| ==> s[i] != '='
  {
    var x := Sep(k);
    forall i | 0 <= i < |x| ensures s[p + i] == x[i] {
      assert s[p + i] == s[p..p + |x|][i];
    }
    forall i | p < i <= p + |k| ensures s[i] == k[i - p - 1] && s[i] in k {
      assert s[p + (i - p)] == x[i - p];
    }
    assert s[p + (1 + |k|)] == x[1 + |k|];
    assert s[p + 0] == x[0];
  }

  /** Two separators in a text are the same one or do not overlap. */
  lemma SepsAreApart(s: string, k: string, p: nat, l: string, q: nat)
    requires CleanKey(k) && CleanKey(l) && OccursAt(s, Sep(k), p) && OccursAt(s, Sep(l), q) && p <= q
    ensures p == q ==> k == l
    ensures p < q ==> p + |Sep(k)| <= q
  {
    SepMeans(s, k, p);
    SepMeans(s, l, q);
    hide OccursAt;
  }

  lemma OccursInside(a: string, x: string, b: string)
    ensures OccursAt(a + x + b, x, |a|)
  {}

  /** If one text is cut at its value's end and at an occurrence of the next separator in it, that
      occurrence is in the value or behind the separator. */
  lemma CutAtSep(v: string, k: string, tail: string, b: string, l: string, rest: string)
    requires CleanKey(k) && CleanKey(l) && v + Sep(k) + tail == b + Sep(l) + rest
    ensures |b| == |v| ==> k == l && tail == rest
    ensures |b| < |v| ==> OccursAt(v, Sep(l), |b|) && v[|b| + |Sep(l)|..] + Sep(k) + tail == rest
    ensures |b| > |v| ==> |b| >= |v| + |Sep(k)| && tail == b[|v| + |Sep(k)|..] + Sep(l) + rest
  {
    var s := v + Sep(k) + tail;
    OccursInside(v, Sep(k), tail);
    OccursInside(b, Sep(l), rest);
    if |b| <= |v| { SepsAreApart(s, l, |b|, k, |v|); } else { SepsAreApart(s, k, |v|, l, |b|); }
    if |b| == |v| {
      assert tail == s[|v| + |Sep(k)|..] && rest == s[|b| + |Sep(l)|..];
    } else if |b| < |v| {
      assert s[|b|..|b| + |Sep(l)|] == v[|b|..|b| + |Sep(l)|];
      assert rest == s[|b| + |Sep(l)|..] == v[|b| + |Sep(l)|..] + Sep(k) + tail;
    } else {
      assert tail == s[|v| + |Sep(k)|..] == b[|v| + |Sep(k)|..] + Sep(l) + rest;
    }
  }

  ghost predicate GoodKeys(keys: seq<string>, m: Material) {
    && keys != [] && (forall k :: k in keys ==> k in m && CleanKey(k))
    && (forall i, j :: 0 <= i < j < |keys| ==> keys[i] != keys[j])
  }

  /** The text of m is that of n with something before it that ends in a separator: some value of m
      holds its own separator. */
  lemma TailIsGood(keys: seq<string>, m: Material)
    requires GoodKeys(keys, m) && |keys| > 1
    ensures GoodKeys(keys[1..], m) && keys[1..][0] == keys[1] && CleanKey(keys[1]) && CleanKey(keys[0])
    ensures forall k :: k in keys ==> k in m
    ensures forall k :: k in keys ==> k == keys[0] || k in keys[1..]
  {
    hide CleanKey;
    assert keys == [keys[0]] + keys[1..];
    assert keys[0] in keys && keys[1] in keys;
    assert forall i :: 0 <= i < |keys| - 1 ==> keys[1..][i] == keys[i + 1];
  }

  lemma HoldsAt(v: string, x: string, p: nat, strict: bool)
    requires OccursAt(v, x, p) && (strict ==> NonBlank(v[p + |x|..]))
    ensures DividesBefore(v, x, strict)
  {
    hide NonBlank;
  }

  lemma HoldsAtEnd(v: string, b: string, x: string, w: string, strict: bool)
    requires v == b + x + w && (strict ==> NonBlank(w))
    ensures DividesBefore(v, x, strict)
  {
    hide NonBlank;
    assert v[|b| + |x|..] == w && OccursAt(v, x, |b|);
  }

  lemma LongerBefore(b: string, x: string, w: string, y: string, behind: string)
    ensures b + x + (w + y + behind) == (b + x + w) + y + behind
  {}

  lemma {:induction false} HoldsOwnSep(keys: seq<string>, m: Material, n: Material, b: string, strict: bool)
    returns (j: nat)
    requires GoodKeys(keys, m) && GoodKeys(keys, n) && (strict ==> AllNonBlank(n))
    requires Body(keys, m) == b + Sep(keys[0]) + Body(keys, n)
    ensures j < |keys| && DividesBefore(m[keys[j]], Sep(keys[j]), strict)
    decreases |keys|, 1
  {
    BodyMeans(keys, m);
    BodyMeans(keys, n);
    var v, w, x := m[keys[0]], n[keys[0]], Sep(keys[0]);
    assert keys[0] in keys && (strict ==> NonBlank(w));
    hide Sep, CleanKey, OccursAt, Body, NonBlank, DividesBefore;
    if |keys| == 1 {
      j := 0;
      HoldsAtEnd(v, b, x, w, strict);
    } else {
      TailIsGood(keys, m);
      TailIsGood(keys, n);
      hide GoodKeys, AllNonBlank;
      var more, y := keys[1..], Sep(keys[1]);
      var tail, behind := Body(more, m), Body(more, n);
      CutAtSep(v, keys[1], tail, b, keys[0], w + y + behind);
      if |b| > |v| {
        LongerBefore(b[|v| + |y|..], x, w, y, behind);
        j := HoldsOwnSep(more, m, n, b[|v| + |y|..] + x + w, strict);
        j := j + 1;
      } else {
        j := FirstOrLater(keys, m, n, |b|, tail, behind, strict);
      }
    }
  }

  /** The occurrence is in the first value: it counts, unless only blanks follow it there; then
      the value of n, which is not blank, reaches into the next one. */
  lemma FirstOrLater(keys: seq<string>, m: Material, n: Material, p: nat, tail: string, behind: string, strict: bool)
    returns (j: nat)
    requires GoodKeys(keys, m) && GoodKeys(keys, n) && |keys| > 1 && (strict ==> AllNonBlank(n))
    requires tail == Body(keys[1..], m) && behind == Body(keys[1..], n)
    requires OccursAt(m[keys[0]], Sep(keys[0]), p)
    requires m[keys[0]][p + |Sep(keys[0])|..] + Sep(keys[1]) + tail == n[keys[0]] + Sep(keys[1]) + behind
    ensures j < |keys| && DividesBefore(m[keys[j]], Sep(keys[j]), strict)
    decreases |keys|, 0
  {
    var v, w, x, y := m[keys[0]], n[keys[0]], Sep(keys[0]), Sep(keys[1]);
    var rest := v[p + |x|..];
    assert keys[0] in keys && (strict ==> NonBlank(w));
    TailIsGood(keys, m);
    TailIsGood(keys, n);
    hide Sep, CleanKey, OccursAt, Body, NonBlank, DividesBefore, GoodKeys, AllNonBlank;
    if strict && !NonBlank(rest) {
      assert rest + (y + tail) == rest + y + tail && w + (y + behind) == w + y + behind;
      LongerThanBlank(rest, w, y + tail, y + behind);
      CutAtSep(w, keys[1], behind, rest, keys[1], tail);
      j := HoldsOwnSep(keys[1..], m, n, w[|rest| + |y|..], strict);
      j := j + 1;
    } else {
      j := 0;
      HoldsAt(v, x, p, strict);
    }
  }

  lemma LongerThanBlank(rest: string, w: string, s: string, t: string)
    requires !NonBlank(rest) && NonBlank(w) && rest + s == w + t
    ensures |rest| < |w|
  {
    if |w| <= |rest| {
      assert forall i :: 0 <= i < |w| ==> w[i] == (w + t)[i] == (rest + s)[i] == rest[i];
    }
  }

  lemma SamePrefix(v: string, s: string, w: string, t: string)
    requires v + s == w + t && |w| <= |v|
    ensures v[..|w|] == w
  {
    assert v[..|w|] == (v + s)[..|w|] == (w + t)[..|w|] == w;
  }

  lemma DivisibleFurther(keys: seq<string>, m: Material, i: nat, strict: bool)
    requires keys != [] && forall k :: k in keys ==> k in m
    ensures i + 1 < |keys| && DividesBefore(m[keys[i + 1]], Sep(keys[i + 1]), strict) ==>
              Divisible(keys, m, i + 1, strict)
    ensures Divisible(keys[1..], m, i, strict) ==> Divisible(keys, m, i + 1, strict)
  {
    hide DividesBefore, DividesAfter, Sep;
  }

  /** Different maps with the same text: the first of them has a divisible value. */
  lemma {:induction false} TwinsAreDivisible(keys: seq<string>, m: Material, n: Material, strict: bool) returns (i: nat)
    requires GoodKeys(keys, m) && GoodKeys(keys, n) && (strict ==> AllNonBlank(n))
    requires Body(keys, m) == Body(keys, n) && exists k :: k in keys && m[k] != n[k]
    ensures Divisible(keys, m, i, strict)
  {
    BodyMeans(keys, m);
    BodyMeans(keys, n);
    var v, w := m[keys[0]], n[keys[0]];
    hide Sep, CleanKey, OccursAt, DividesBefore, Divisible, Body;
    if |keys| > 1 {
      TailIsGood(keys, m);
      TailIsGood(keys, n);
      hide GoodKeys;
      var more, x := keys[1..], Sep(keys[1]);
      var tail, behind := Body(more, m), Body(more, n);
      CutAtSep(v, keys[1], tail, w, keys[1], behind);
      if |w| == |v| {
        SamePrefix(v, x + tail, w, x + behind);
        assert v == w;
        i := TwinsAreDivisible(more, m, n, strict);
        DivisibleFurther(keys, m, i, strict);
        i := i + 1;
      } else if |w| < |v| {
        i := 0;
        SamePrefix(v, x + tail, w, x + behind);
        assert keys[0] in keys;
        TakesFromFirst(keys, m, |w|, strict);
      } else {
        CutAtSep(w, keys[1], behind, v, keys[1], tail);
        i := HoldsOwnSep(more, m, n, w[|v| + |x|..], strict);
        DivisibleFurther(keys, m, i, strict);
        i := i + 1;
      }
    }
  }

  lemma TakesFromFirst(keys: seq<string>, m: Material, p: nat, strict: bool)
    requires |keys| > 1 && forall k :: k in keys ==> k in m
    requires OccursAt(m[keys[0]], Sep(keys[1]), p) && (strict ==> NonBlank(m[keys[0]][..p]))
    ensures Divisible(keys, m, 0, strict)
  {
    hide OccursAt, Sep, NonBlank;
    assert p <= |m[keys[0]]| by { OccursWithin(m[keys[0]], Sep(keys[1]), p); }
  }

  lemma OccursWithin(s: string, x: string, p: nat)
    requires OccursAt(s, x, p)
    ensures p + |x| <= |s|
  {}

  // ---------------------------------------------------------------- the twin of a divisible map

  lemma {:induction false} BodyDependsOn(keys: seq<string>, m: Material, n: Material)
    requires keys != [] && forall k :: k in keys ==> k in m && k in n && m[k] == n[k]
    ensures Body(keys, m) == Body(keys, n)
  {
    if |keys| > 1 {
      BodyDependsOn(keys[1..], m, n);
    }
  }

  /** Two neighbouring values exchange a part of themselves and keep their joint text. */
  lemma {:induction false} ExchangeKeepsBody(keys: seq<string>, m: Material, n: Material, i: nat)
    requires GoodKeys(keys, m) && i + 1 < |keys| && n.Keys == m.Keys
    requires forall k :: k in m && k != keys[i] && k != keys[i + 1] ==> n[k] == m[k]
    requires m[keys[i]] + Sep(keys[i + 1]) + m[keys[i + 1]] == n[keys[i]] + Sep(keys[i + 1]) + n[keys[i + 1]]
    ensures Body(keys, m) == Body(keys, n)
  {
    hide Sep, CleanKey, Body;
    BodyMeans(keys, m);
    BodyMeans(keys, n);
    TailIsGood(keys, m);
    var more := keys[1..];
    BodyMeans(more, m);
    BodyMeans(more, n);
    if i > 0 {
      assert keys[0] in keys && keys[0] != keys[i] && keys[0] != keys[i + 1];
      ExchangeKeepsBody(more, m, n, i - 1);
    } else if |keys| > 2 {
      var rest := more[1..];
      assert forall j :: 0 <= j < |rest| ==> rest[j] == keys[j + 2];
      RestIsSame(keys, rest, m, n);
      SameBehind(m[keys[0]], Sep(keys[1]), m[keys[1]], n[keys[0]], n[keys[1]], Sep(keys[2]) + Body(rest, m));
      LongerAgain(m[keys[1]], Sep(keys[2]), Body(rest, m));
      LongerAgain(n[keys[1]], Sep(keys[2]), Body(rest, m));
    }
  }

  lemma LongerAgain(a: string, y: string, z: string)
    ensures a + y + z == a + (y + z)
  {}

  lemma SameBehind(a: string, x: string, b: string, c: string, d: string, z: string)
    requires a + x + b == c + x + d
    ensures a + x + (b + z) == c + x + (d + z)
  {
    assert a + x + (b + z) == (a + x + b) + z;
    assert c + x + (d + z) == (c + x + d) + z;
  }

  lemma RestIsSame(keys: seq<string>, rest: seq<string>, m: Material, n: Material)
    requires GoodKeys(keys, m) && |keys| > 2 && n.Keys == m.Keys && rest == keys[2..]
    requires forall k :: k in m && k != keys[0] && k != keys[1] ==> n[k] == m[k]
    ensures (forall k :: k in rest ==> k in m) && Body(rest, m) == Body(rest, n)
  {
    hide Body, CleanKey;
    forall k | k in rest ensures k in m && n[k] == m[k] {
      var j :| 0 <= j < |rest| && rest[j] == k;
      assert k == keys[j + 2] && keys[j + 2] in keys;
    }
    BodyDependsOn(rest, m, n);
  }

  lemma SepIsNotBlank(a: string, k: string, b: string)
    ensures NonBlank(a + Sep(k) + b)
  {
    var s := a + Sep(k) + b;
    assert s[|a| + 1 + |k|] == '=';
  }

  /** The value of key i gives what follows the separator to the next value. */
  function GivenOn(keys: seq<string>, m: Material, i: nat, p: nat): Material
    requires i + 1 < |keys| && keys[i] in m && keys[i + 1] in m && p + |Sep(keys[i + 1])| <= |m[keys[i]]|
  {
    var v, x := m[keys[i]], Sep(keys[i + 1]);
    m[keys[i] := v[..p]][keys[i + 1] := v[p + |x|..] + x + m[keys[i + 1]]]
  }

  /** The value of key i + 1 gives what precedes the separator to the value before. */
  function GivenBack(keys: seq<string>, m: Material, i: nat, p: nat): Material
    requires i + 1 < |keys| && keys[i] in m && keys[i + 1] in m && p + |Sep(keys[i + 1])| <= |m[keys[i + 1]]|
  {
    var v, x := m[keys[i + 1]], Sep(keys[i + 1]);
    m[keys[i] := m[keys[i]] + x + v[..p]][keys[i + 1] := v[p + |x|..]]
  }

  predicate IsSibling(m: Material, n: Material, strict: bool) {
    n != m && n.Keys == m.Keys && (strict ==> forall k :: k in n && n[k] != m[k] ==> NonBlank(n[k]))
  }

  lemma Regroup(a: string, x: string, b: string, c: string)
    ensures (a + x + b) + x + c == a + x + (b + x + c)
  {}

  lemma GivenOnIsTwin(keys: seq<string>, m: Material, i: nat, p: nat, strict: bool)
    requires GoodKeys(keys, m) && i + 1 < |keys| && keys[i] in m && keys[i + 1] in m
    requires OccursAt(m[keys[i]], Sep(keys[i + 1]), p) && (strict ==> NonBlank(m[keys[i]][..p]))
    ensures var n := GivenOn(keys, m, i, p);
            IsSibling(m, n, strict) && Body(keys, n) == Body(keys, m)
  {
    var v, x, n := m[keys[i]], Sep(keys[i + 1]), GivenOn(keys, m, i, p);
    SepIsLong(keys[i + 1]);
    hide Sep, CleanKey, Body, NonBlank;
    assert keys[i] in keys && keys[i + 1] in keys && keys[i] != keys[i + 1];
    assert v == v[..p] + x + v[p + |x|..];
    SepIsNotBlank(v[p + |x|..], keys[i + 1], m[keys[i + 1]]);
    assert n.Keys == m.Keys && |n[keys[i]]| < |v|;
    Regroup(v[..p], x, v[p + |x|..], m[keys[i + 1]]);
    ExchangeKeepsBody(keys, m, n, i);
  }

  lemma GivenBackIsTwin(keys: seq<string>, m: Material, i: nat, p: nat, strict: bool)
    requires GoodKeys(keys, m) && i + 1 < |keys| && keys[i] in m && keys[i + 1] in m
    requires OccursAt(m[keys[i + 1]], Sep(keys[i + 1]), p)
    requires strict ==> NonBlank(m[keys[i + 1]][p + |Sep(keys[i + 1])|..])
    ensures var n := GivenBack(keys, m, i, p);
            IsSibling(m, n, strict) && Body(keys, n) == Body(keys, m)
  {
    var v, x, n := m[keys[i + 1]], Sep(keys[i + 1]), GivenBack(keys, m, i, p);
    SepIsLong(keys[i + 1]);
    hide Sep, CleanKey, Body, NonBlank;
    assert keys[i] in keys && keys[i + 1] in keys && keys[i] != keys[i + 1];
    assert v == v[..p] + x + v[p + |x|..];
    SepIsNotBlank(m[keys[i]], keys[i + 1], v[..p]);
    assert n.Keys == m.Keys && |n[keys[i + 1]]| < |v|;
    Regroup(m[keys[i]], x, v[..p], v[p + |x|..]);
    ExchangeKeepsBody(keys, m, n, i);
  }

  lemma DivisibleHasTwin(keys: seq<string>, m: Material, i: nat, strict: bool) returns (n: Material)
    requires GoodKeys(keys, m) && Divisible(keys, m, i, strict) && (strict ==> AllNonBlank(m))
    ensures n != m && n.Keys == m.Keys && (strict ==> AllNonBlank(n)) && Body(keys, n) == Body(keys, m)
  {
    hide Sep, CleanKey, Body, NonBlank, GivenOn, GivenBack;
    var v := m[keys[i]];
    if i + 1 < |keys| && DividesAfter(v, Sep(keys[i + 1]), strict) {
      var x := Sep(keys[i + 1]);
      var p :| 0 <= p <= |v| && OccursAt(v, x, p) && (strict ==> NonBlank(v[..p]));
      assert keys[i] in keys && keys[i + 1] in keys;
      n := GivenOn(keys, m, i, p);
      GivenOnIsTwin(keys, m, i, p, strict);
    } else {
      var x := Sep(keys[i]);
      var p :| 0 <= p <= |v| && OccursAt(v, x, p) && (strict ==> NonBlank(v[p + |x|..]));
      assert keys[i] in keys && keys[i - 1] in keys;
      n := GivenBack(keys, m, i - 1, p);
      GivenBackIsTwin(keys, m, i - 1, p, strict);
    }
    if strict {
      forall k | k in n ensures NonBlank(n[k]) { assert k in m; }
    }
  }

  lemma SepIsLong(k: string)
    ensures |Sep(k)| > 0
  {}

  lemma EnumeratedIsGood(keys: seq<string>, m: Material)
    requires Enumerates(keys, m.Keys) && m != map[] && forall k :: k in m ==> CleanKey(k)
    ensures GoodKeys(keys, m)
  {
    hide Less;
    if keys == [] {
      EnumeratedByOne(keys, m);
    }
    forall i, j | 0 <= i < j < |keys| ensures keys[i] != keys[j] {
      LessIsTotal(keys[i], keys[j]);
    }
  }

  lemma SameTextSameBody(keys: seq<string>, m: Material, n: Material)
    requires Enumerates(keys, m.Keys) && n.Keys == m.Keys && keys != []
    ensures (forall k :: k in keys ==> k in m && k in n)
    ensures IsCanonical(Canonical(m), n) <==> Body(keys, m) == Body(keys, n)
  {
    CanonicalTextIsUnique(m, Canonical(m), Lines(keys, m));
    LinesAreBody(keys, m);
    LinesAreBody(keys, n);
    hide Lines, Body, Enumerates;
    assert IsCanonical(Lines(keys, n), n);
    var pre := keys[0] + "=";
    if IsCanonical(Canonical(m), n) {
      CanonicalTextIsUnique(n, Canonical(m), Lines(keys, n));
      assert (pre + Body(keys, m) + "\n")[|pre|..|pre| + |Body(keys, m)|] == Body(keys, m);
      assert (pre + Body(keys, n) + "\n")[|pre|..|pre| + |Body(keys, n)|] == Body(keys, n);
    }
  }

  /** Among the maps with the same clean keys, exactly those share their text with another one in
      which a value can give a part of itself to a neighbour: it holds the separator before the
      next value, or the one before itself. With `strict`, the same for maps without blank values,
      where what stays behind must not be blank either. */
  lemma SharesTextExactlyWhen(m: Material, keys: seq<string>, strict: bool)
    requires Enumerates(keys, m.Keys) && (forall k :: k in m ==> CleanKey(k)) && (strict ==> AllNonBlank(m))
    ensures forall k :: k in keys ==> k in m
    ensures SharesText(m, strict) <==> exists i :: 0 <= i < |keys| && Divisible(keys, m, i, strict)
  {
    if m == map[] {
      forall n: Material | n.Keys == m.Keys ensures n == m { assert n == map[]; }
      NonEmptyHasMember(keys);
    } else {
      EnumeratedIsGood(keys, m);
      hide Less, Divisible, Enumerates, CleanKey, AllNonBlank;
      if i :| 0 <= i < |keys| && Divisible(keys, m, i, strict) {
        var n := DivisibleHasTwin(keys, m, i, strict);
        SameTextSameBody(keys, m, n);
        assert IsTwin(m, n, strict);
      }
      if SharesText(m, strict) {
        var n :| IsTwin(m, n, strict);
        SameTextSameBody(keys, m, n);
        DifferSomewhere(keys, m, n);
        var i := TwinsAreDivisible(keys, m, n, strict);
      }
    }
  }

  lemma NonEmptyHasMember(keys: seq<string>)
    ensures keys != [] ==> exists k :: k in keys
  {
    if keys != [] {
      assert keys[0] in keys;
    }
  }

  lemma SameEntries(m: Material, n: Material)
    requires n.Keys == m.Keys && forall k :: k in m ==> m[k] == n[k]
    ensures m == n
  {}

  lemma DifferSomewhere(keys: seq<string>, m: Material, n: Material)
    requires Enumerates(keys, m.Keys) && n.Keys == m.Keys && n != m && GoodKeys(keys, m)
    ensures GoodKeys(keys, n) && exists k :: k in keys && m[k] != n[k]
  {
    if forall k :: k in m ==> m[k] == n[k] { SameEntries(m, n); }
  }

  /** In particular a map with clean keys and without line breaks in its values is alone. */
  lemma OneLineValuesAreAlone(m: Material)
    requires forall k :: k in m ==> CleanKey(k) && '\n' !in m[k]
    ensures !SharesText(m, false)
  {
    hide Less, Lines, Divisible, Canonical;
    assert IsCanonical(Canonical(m), m);
    var keys :| Enumerates(keys, m.Keys) && Canonical(m) == Lines(keys, m);
    SharesTextExactlyWhen(m, keys, false);
    forall i | 0 <= i < |keys| ensures !Divisible(keys, m, i, false) {
      assert keys[i] in keys;
      OneLineIsWhole(keys, m, i);
    }
  }

  lemma OneLineIsWhole(keys: seq<string>, m: Material, i: nat)
    requires i < |keys| && (forall k :: k in keys ==> k in m) && keys[i] in m && '\n' !in m[keys[i]]
    ensures !Divisible(keys, m, i, false)
  {
    hide Sep, OccursAt;
    var v := m[keys[i]];
    forall k: string, p | 0 <= p <= |v| ensures !OccursAt(v, Sep(k), p) {
      if OccursAt(v, Sep(k), p) { SepNeedsBreak(v, k, p); }
    }
  }

  lemma SepNeedsBreak(v: string, k: string, p: nat)
    requires OccursAt(v, Sep(k), p)
    ensures '\n' in v
  {
    assert v[p] == v[p..p + |Sep(k)|][0];
  }

  // ---------------------------------------------------------------- health snapshots

  const AGENT_STATUS := "agent.status"
  const HOME := "home_assistant."
  const BACKUP_STATUS := HOME + "backup.status"
  const CORE_STATUS := HOME + "core.status"

  /** The material of a health snapshot. */
  function Snapshot(agent: string, backup: string, core: string): Material {
    map[AGENT_STATUS := agent, BACKUP_STATUS := backup, CORE_STATUS := core]
  }

  lemma {:induction false} LessBehind(prefix: string, a: string, b: string)
    requires Less(a, b)
    ensures Less(prefix + a, prefix + b)
  {
    if prefix == [] {
      assert prefix + a == a && prefix + b == b;
    } else {
      LessBehind(prefix[1..], a, b);
      assert (prefix + a)[1..] == prefix[1..] + a && (prefix + b)[1..] == prefix[1..] + b;
    }
  }

  lemma CleanBehind(a: string, b: string)
    requires CleanKey(a) && CleanKey(b)
    ensures CleanKey(a + b)
  {}

  lemma SnapshotKeysAreOrdered()
    ensures Less(AGENT_STATUS, BACKUP_STATUS) && Less(BACKUP_STATUS, CORE_STATUS) && Less(AGENT_STATUS, CORE_STATUS)
  {
    assert Less("backup.status", "core.status");
    LessBehind(HOME, "backup.status", "core.status");
  }

  lemma SnapshotKeysAreClean()
    ensures CleanKey(AGENT_STATUS) && CleanKey(BACKUP_STATUS) && CleanKey(CORE_STATUS)
  {
    assert CleanKey(AGENT_STATUS) && CleanKey(HOME) && CleanKey("backup.status") && CleanKey("core.status");
    CleanBehind(HOME, "backup.status");
    CleanBehind(HOME, "core.status");
  }

  lemma ThreeKeys(k: string, l: string, j: string, m: Material)
    requires Less(k, l) && Less(l, j) && Less(k, j) && m.Keys == {k, l, j}
    ensures Enumerates([k, l, j], m.Keys)
  {
    hide Less;
    var keys := [k, l, j];
    assert forall i, h :: 0 <= i < h < |keys| ==> Less(BY_NAME(keys[i]), BY_NAME(keys[h]));
  }

  lemma SnapshotKeys(agent: string, backup: string, core: string)
    ensures var keys := [AGENT_STATUS, BACKUP_STATUS, CORE_STATUS];
            && Enumerates(keys, Snapshot(agent, backup, core).Keys)
            && Less(AGENT_STATUS, BACKUP_STATUS) && Less(BACKUP_STATUS, CORE_STATUS) && Less(AGENT_STATUS, CORE_STATUS)
            && forall k :: k in keys ==> CleanKey(k)
  {
    hide Less, CleanKey;
    SnapshotKeysAreOrdered();
    SnapshotKeysAreClean();
    ThreeKeys(AGENT_STATUS, BACKUP_STATUS, CORE_STATUS, Snapshot(agent, backup, core));
  }

  /** The validator's test on a status: blank is what trimming leaves empty. */
  lemma {:induction false} TrimLeftKeeps(s: string)
    ensures NonBlank(TrimLeft(s)) <==> NonBlank(s)
    ensures TrimLeft(s) != "" ==> NonBlank(s)
  {
    if s != [] && IsSpace(s[0]) {
      TrimLeftKeeps(s[1..]);
      if NonBlank(s) {
        var i :| 0 <= i < |s| && !IsSpace(s[i]);
        assert s[1..][i - 1] == s[i];
      }
      if NonBlank(s[1..]) {
        var i :| 0 <= i < |s| - 1 && !IsSpace(s[1..][i]);
        assert s[i + 1] == s[1..][i];
      }
    }
  }

  lemma NonBlankIsNotTrimmedAway(s: string)
    ensures NonBlank(s) <==> TrimSpace(s) != ""
  {
    TrimLeftKeeps(s);
    TrimLeftStarts(s);
    var t := TrimLeft(s);
    if t != "" {
      TrimRightKeepsStart(t);
    }
  }

  lemma DivisibleOfThree(keys: seq<string>, m: Material, strict: bool)
    requires |keys| == 3 && forall k :: k in keys ==> k in m
    ensures keys[0] in m && keys[1] in m && keys[2] in m
    ensures Divisible(keys, m, 0, strict) <==> DividesAfter(m[keys[0]], Sep(keys[1]), strict)
    ensures Divisible(keys, m, 1, strict) <==>
            DividesAfter(m[keys[1]], Sep(keys[2]), strict) || DividesBefore(m[keys[1]], Sep(keys[1]), strict)
    ensures Divisible(keys, m, 2, strict) <==> DividesBefore(m[keys[2]], Sep(keys[2]), strict)
  {
    hide DividesAfter, DividesBefore, Sep;
    assert keys[0] in keys && keys[1] in keys && keys[2] in keys;
  }

  lemma ThreeValues(keys: seq<string>, m: Material, strict: bool)
    requires |keys| == 3 && Enumerates(keys, m.Keys) && (strict ==> AllNonBlank(m))
    requires forall k :: k in keys ==> CleanKey(k)
    ensures keys[0] in m && keys[1] in m && keys[2] in m
    ensures SharesText(m, strict) <==>
            || DividesAfter(m[keys[0]], Sep(keys[1]), strict)
            || DividesBefore(m[keys[1]], Sep(keys[1]), strict) || DividesAfter(m[keys[1]], Sep(keys[2]), strict)
            || DividesBefore(m[keys[2]], Sep(keys[2]), strict)
  {
    EnumeratedKeys(keys, m);
    assert forall k :: k in m ==> CleanKey(k);
    hide CleanKey, NonBlank, DividesAfter, DividesBefore, Divisible, SharesText, Sep, Enumerates;
    SharesTextExactlyWhen(m, keys, strict);
    DivisibleOfThree(keys, m, strict);
  }

  lemma SnapshotMeans(agent: string, backup: string, core: string)
    ensures var m := Snapshot(agent, backup, core);
            && AGENT_STATUS in m && BACKUP_STATUS in m && CORE_STATUS in m
            && m[AGENT_STATUS] == agent && m[BACKUP_STATUS] == backup && m[CORE_STATUS] == core
            && forall k :: k in m ==> m[k] == agent || m[k] == backup || m[k] == core
  {
    SnapshotKeys(agent, backup, core);
    LessIsTotal(AGENT_STATUS, BACKUP_STATUS);
    LessIsTotal(BACKUP_STATUS, CORE_STATUS);
    LessIsTotal(AGENT_STATUS, CORE_STATUS);
  }

  /** An accepted health snapshot shares its text with another one that would be accepted exactly
      when a status holds the line that a neighbouring status begins with. */
  lemma SnapshotSharesTextExactlyWhen(agent: string, backup: string, core: string)
    requires TrimSpace(agent) != "" && TrimSpace(backup) != "" && TrimSpace(core) != ""
    ensures SharesText(Snapshot(agent, backup, core), true) <==>
            || DividesAfter(agent, Sep(BACKUP_STATUS), true)
            || DividesBefore(backup, Sep(BACKUP_STATUS), true) || DividesAfter(backup, Sep(CORE_STATUS), true)
            || DividesBefore(core, Sep(CORE_STATUS), true)
  {
    hide Less, CleanKey, NonBlank, DividesAfter, DividesBefore, Enumerates, TrimSpace, Sep, Snapshot, SharesText;
    SnapshotKeys(agent, backup, core);
    SnapshotMeans(agent, backup, core);
    NonBlankIsNotTrimmedAway(agent);
    NonBlankIsNotTrimmedAway(backup);
    NonBlankIsNotTrimmedAway(core);
    ThreeValues([AGENT_STATUS, BACKUP_STATUS, CORE_STATUS], Snapshot(agent, backup, core), true);
  }

  /** Two snapshots that differ and share their text, for any statuses. */
  lemma SnapshotsShareText(agent: string, x: string, backup: string, core: string)
    ensures var m := Snapshot(agent, x + Sep(BACKUP_STATUS) + backup, core);
            var n := Snapshot(agent + Sep(BACKUP_STATUS) + x, backup, core);
            n != m && Canonical(n) == Canonical(m)
  {
    var m := Snapshot(agent, x + Sep(BACKUP_STATUS) + backup, core);
    var n := Snapshot(agent + Sep(BACKUP_STATUS) + x, backup, core);
    var keys := [AGENT_STATUS, BACKUP_STATUS, CORE_STATUS];
    SnapshotKeys(agent, x + Sep(BACKUP_STATUS) + backup, core);
    SepIsLong(BACKUP_STATUS);
    LessIsTotal(AGENT_STATUS, BACKUP_STATUS);
    LessIsTotal(BACKUP_STATUS, CORE_STATUS);
    hide Less, CleanKey, Enumerates, Sep;
    assert n[AGENT_STATUS] != m[AGENT_STATUS];
    assert n.Keys == m.Keys;
    assert forall k :: k in m ==> k in keys;
    EnumeratedIsGood(keys, m);
    Regroup(agent, Sep(BACKUP_STATUS), x, backup);
    ExchangeKeepsBody(keys, m, n, 0);
    SameTextSameBody(keys, m, n);
    CanonicalTextIsUnique(n, Canonical(n), Canonical(m));
  }
}
