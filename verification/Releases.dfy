/** Dotted versions, compatibility windows, and the verdict of a release artifact on a host. */
module Releases {
  import opened Common
  import opened Strings

  // ---------------------------------------------------------------- parsing

  const MAX_INT64 := 0x7fff_ffff_ffff_ffff

  predicate IsDigit(c: char) { '0' <= c <= '9' }

  function DigitsValue(s: string): (v: int)
    requires forall c :: c in s ==> IsDigit(c)
    ensures 0 <= v
  {
    if s == "" then 0
    else
      var last: int := s[|s| - 1] as int;
      assert IsDigit(s[|s| - 1]);
      10 * DigitsValue(s[..|s| - 1]) + last - 48
  }

  /** strconv.Atoi: an optional sign and at least one digit, within 64 bits. */
  function Atoi(s: string): Option<int> {
    var signed := s != "" && (s[0] == '-' || s[0] == '+');
    var digits := if signed then s[1..] else s;
    if digits == "" || exists c :: c in digits && !IsDigit(c) then None
    else
      var value: int := if signed && s[0] == '-' then -DigitsValue(digits) else DigitsValue(digits);
      if -MAX_INT64 - 1 <= value <= MAX_INT64 then Some(value) else None
  }

  /** The part of a version that is compared: no surrounding space, no leading v, and nothing
      from the first '-' or '+' on. */
  function Core(version: string): string {
    var t := TrimSpace(version);
    var u := if "v" <= t then t[1..] else t;
    var d, p := Index(u, '-'), Index(u, '+');
    u[..if d < p then d else p]
  }

  function ParseParts(parts: seq<string>): Option<seq<int>> {
    if parts == [] then Some([])
    else
      var head, tail := Atoi(parts[0]), ParseParts(parts[1..]);
      if parts[0] == "" || head.None? || tail.None? then None else Some([head.value] + tail.value)
  }

  function Parse(version: string): Option<seq<int>> {
    if Core(version) == "" then None else ParseParts(Split(Core(version), '.'))
  }

  lemma {:induction false} ParsePartsAppend(parts: seq<string>, p: string)
    ensures ParseParts(parts + [p]) ==
            if ParseParts(parts).None? || p == "" || Atoi(p).None? then None
            else Some(ParseParts(parts).value + [Atoi(p).value])
  {
    if parts == [] {
      assert (parts + [p])[1..] == [];
      if Atoi(p).Some? {
        assert [Atoi(p).value] + [] == [] + [Atoi(p).value];
      }
    } else {
      ParsePartsAppend(parts[1..], p);
      assert (parts + [p])[1..] == parts[1..] + [p];
      if ParseParts(parts + [p]).Some? {
        var head, tail, last := Atoi(parts[0]).value, ParseParts(parts[1..]).value, Atoi(p).value;
        assert [head] + (tail + [last]) == [head] + tail + [last];
      }
    }
  }

  lemma {:induction false} ParsePartsPrefix(parts: seq<string>, n: nat)
    requires n <= |parts| && ParseParts(parts[..n]).None?
    ensures ParseParts(parts).None?
    decreases |parts| - n
  {
    if n < |parts| {
      ParsePartsAppend(parts[..n], parts[n]);
      assert parts[..n + 1] == parts[..n] + [parts[n]];
      ParsePartsPrefix(parts, n + 1);
    } else {
      assert parts[..n] == parts;
    }
  }

  method ParseDottedVersion(version: string) returns (values: Option<seq<int>>)
    ensures values == Parse(version)
  {
    var core := Core(version);
    if core == "" {
      return None;
    }
    var parts := Split(core, '.');
    var parsed := [];
    for i := 0 to |parts|
      invariant ParseParts(parts[..i]) == Some(parsed)
    {
      ParsePartsAppend(parts[..i], parts[i]);
      assert parts[..i + 1] == parts[..i] + [parts[i]];
      var value := Atoi(parts[i]);
      if parts[i] == "" || value.None? {
        ParsePartsPrefix(parts, i + 1);
        return None;
      }
      parsed := parsed + [value.value];
    }
    assert parts[..|parts|] == parts;
    values := Some(parsed);
  }

  lemma {:induction false} ParsedPartsAreNatural(parts: seq<string>)
    requires forall p, c :: p in parts && c in p ==> c != '-' && c != '+'
    ensures var r := ParseParts(parts); r.Some? ==> |r.value| == |parts| && forall v :: v in r.value ==> 0 <= v
  {
    if parts != [] {
      assert forall p :: p in parts[1..] ==> p in parts;
      ParsedPartsAreNatural(parts[1..]);
      if parts[0] != "" {
        assert parts[0] in parts && parts[0][0] in parts[0];
      }
    }
  }

  /** A parsed version has at least one component and no negative one, although Atoi reads signs. */
  lemma ParsedVersionIsNatural(version: string)
    ensures var r := Parse(version); r.Some? ==> r.value != [] && forall v :: v in r.value ==> 0 <= v
  {
    var t := TrimSpace(version);
    var u := if "v" <= t then t[1..] else t;
    var core := Core(version);
    assert core == u[..|core|] && core <= u[..Index(u, '-')] && core <= u[..Index(u, '+')];
    assert '-' !in core && '+' !in core;
    if core != "" {
      var parts := Split(core, '.');
      ParsedPartsAreNatural(parts);
    }
  }

  /** Surrounding space does not matter to a version. */
  lemma ParseTrims(version: string)
    ensures Parse(TrimSpace(version)) == Parse(version)
  {
    TrimIsIdempotent(version);
  }

  function Decimal(n: nat): string {
    var d := ['0' + (n % 10) as char];
    if n < 10 then d else Decimal(n / 10) + d
  }

  function Decimals(ns: seq<nat>): seq<string> {
    if ns == [] then [] else [Decimal(ns[0])] + Decimals(ns[1..])
  }

  predicate VersionText(s: string) {
    forall c :: c in s ==> IsDigit(c) || c == '.'
  }

  lemma {:induction false} DecimalIsRead(n: nat)
    ensures Decimal(n) != "" && forall c :: c in Decimal(n) ==> IsDigit(c)
    ensures DigitsValue(Decimal(n)) == n
  {
    if n >= 10 {
      DecimalIsRead(n / 10);
      var d := ['0' + (n % 10) as char];
      assert Decimal(n)[..|Decimal(n)| - 1] == Decimal(n / 10);
    }
  }

  lemma AtoiReadsDecimal(n: nat)
    requires n <= MAX_INT64
    ensures Atoi(Decimal(n)) == Some(n) && Decimal(n) != "" && forall c :: c in Decimal(n) ==> IsDigit(c)
  {
    DecimalIsRead(n);
    var d := Decimal(n);
    assert d[0] in d;
    hide Decimal, DigitsValue;
  }

  lemma {:induction false} DecimalsAreRead(ns: seq<nat>)
    requires forall n :: n in ns ==> n <= MAX_INT64
    ensures |Decimals(ns)| == |ns|
    ensures ParseParts(Decimals(ns)) == Some(ns)
    ensures forall p, c :: p in Decimals(ns) && c in p ==> IsDigit(c)
  {
    hide Atoi, Decimal;
    if ns != [] {
      var n, rest := ns[0], ns[1..];
      assert n in ns && forall m :: m in rest ==> m in ns;
      DecimalsAreRead(rest);
      AtoiReadsDecimal(n);
      var parts := Decimals(ns);
      assert parts == [Decimal(n)] + Decimals(rest) && parts[1..] == Decimals(rest);
      assert ns == [n] + rest;
    }
  }

  lemma {:induction false} JoinedText(parts: seq<string>)
    requires parts != [] && forall p :: p in parts ==> VersionText(p)
    ensures VersionText(Join(parts, '.'))
  {
    if |parts| > 1 {
      assert parts[0] in parts && forall p :: p in parts[1..] ==> p in parts;
      JoinedText(parts[1..]);
    }
  }

  lemma TrimKeeps(s: string)
    requires s != "" && !IsSpace(s[0]) && !IsSpace(s[|s| - 1])
    ensures TrimSpace(s) == s
  {}

  lemma CoreOfDecorated(c: string, suffix: string)
    requires c != "" && VersionText(c)
    requires suffix == "" || ((suffix[0] == '-' || suffix[0] == '+') && !IsSpace(suffix[|suffix| - 1]))
    ensures Core(c + suffix) == c == Core("v" + c + suffix)
  {
    var t := c + suffix;
    DecoratedIsTrimmed(c, suffix);
    assert ("v" + t)[1..] == t && "v" + c + suffix == "v" + t;
    assert !("v" <= t) by { assert t[0] == c[0] && c[0] in c; }
    assert t[..|c|] == c;
    hide TrimSpace, Index, VersionText;
    IndexPastText(c, suffix, '-');
    IndexPastText(c, suffix, '+');
  }

  lemma DecoratedIsTrimmed(c: string, suffix: string)
    requires c != "" && VersionText(c)
    requires suffix == "" || !IsSpace(suffix[|suffix| - 1])
    ensures TrimSpace(c + suffix) == c + suffix
    ensures TrimSpace("v" + (c + suffix)) == "v" + (c + suffix)
  {
    var t := c + suffix;
    assert c[0] in c && c[|c| - 1] in c;
    hide TrimSpace;
    TrimKeeps(t);
    TrimKeeps("v" + t);
  }

  lemma IndexPastText(c: string, suffix: string, sep: char)
    requires VersionText(c) && (sep == '-' || sep == '+')
    ensures |c| <= Index(c + suffix, sep)
    ensures suffix != "" && suffix[0] == sep ==> Index(c + suffix, sep) == |c|
    ensures suffix == "" ==> Index(c + suffix, sep) == |c|
  {
    var t := c + suffix;
    assert forall i :: 0 <= i < |c| ==> t[i] == c[i] && c[i] in c;
    assert t[..|c|] == c;
    if suffix != "" && suffix[0] == sep {
      IndexUnique(t, sep, |c|);
    }
  }

  /** Writing components in decimal and reading them back gives the same components, with or
      without a leading v and whatever pre-release or build text follows. */
  lemma ParseReadsWhatIsWritten(ns: seq<nat>, suffix: string)
    requires ns != [] && forall n :: n in ns ==> n <= MAX_INT64
    requires suffix == "" || ((suffix[0] == '-' || suffix[0] == '+') && !IsSpace(suffix[|suffix| - 1]))
    ensures |Decimals(ns)| == |ns|
    ensures var c := Join(Decimals(ns), '.');
            Parse(c + suffix) == Some(ns) == Parse("v" + c + suffix)
  {
    DecimalsAreRead(ns);
    var parts := Decimals(ns);
    JoinedText(parts);
    SplitOfJoin(parts, '.');
    CoreOfDecorated(Join(parts, '.'), suffix);
  }

  // ---------------------------------------------------------------- comparison

  /** Missing components count as zero. */
  function At(s: seq<int>, i: nat): int {
    if i < |s| then s[i] else 0
  }

  function CompareFrom(l: seq<int>, r: seq<int>, i: nat): (c: int)
    ensures c in {-1, 0, 1}
    decreases |l| + |r| - i
  {
    if i >= |l| && i >= |r| then 0
    else if At(l, i) < At(r, i) then -1
    else if At(l, i) > At(r, i) then 1
    else CompareFrom(l, r, i + 1)
  }

  function Compare(l: seq<int>, r: seq<int>): int {
    CompareFrom(l, r, 0)
  }

  /** The order meant: at the first component where they differ, l has the smaller one. */
  ghost predicate Precedes(l: seq<int>, r: seq<int>) {
    exists i: nat :: At(l, i) < At(r, i) && forall j: nat :: j < i ==> At(l, j) == At(r, j)
  }

  ghost predicate SameVersion(l: seq<int>, r: seq<int>) {
    forall i: nat :: At(l, i) == At(r, i)
  }

  lemma {:induction false} CompareFromMeans(l: seq<int>, r: seq<int>, i: nat)
    requires forall j: nat :: j < i ==> At(l, j) == At(r, j)
    ensures CompareFrom(l, r, i) < 0 <==> Precedes(l, r)
    ensures CompareFrom(l, r, i) > 0 <==> Precedes(r, l)
    ensures CompareFrom(l, r, i) == 0 <==> SameVersion(l, r)
    decreases |l| + |r| - i
  {
    if i >= |l| && i >= |r| {
      assert SameVersion(l, r);
    } else if At(l, i) < At(r, i) {
      assert Precedes(l, r) && !SameVersion(l, r);
    } else if At(l, i) > At(r, i) {
      assert Precedes(r, l) && !SameVersion(l, r);
    } else {
      CompareFromMeans(l, r, i + 1);
    }
  }

  /** The comparison decides the order of versions: exactly one of before, same, after. */
  lemma CompareMeans(l: seq<int>, r: seq<int>)
    ensures Compare(l, r) < 0 <==> Precedes(l, r)
    ensures Compare(l, r) > 0 <==> Precedes(r, l)
    ensures Compare(l, r) == 0 <==> SameVersion(l, r)
  {
    CompareFromMeans(l, r, 0);
  }

  lemma CompareIsReversed(l: seq<int>, r: seq<int>)
    ensures Compare(r, l) == -Compare(l, r)
    ensures Compare(l, l) == 0
  {
    CompareMeans(l, r);
    CompareMeans(r, l);
    CompareMeans(l, l);
  }

  lemma CompareIsTransitive(a: seq<int>, b: seq<int>, c: seq<int>)
    requires Compare(a, b) <= 0 && Compare(b, c) <= 0
    ensures Compare(a, c) <= 0
    ensures Compare(a, b) < 0 || Compare(b, c) < 0 ==> Compare(a, c) < 0
  {
    CompareMeans(a, b);
    CompareMeans(b, c);
    CompareMeans(a, c);
    if Precedes(a, b) && Precedes(b, c) {
      var i: nat :| At(a, i) < At(b, i) && forall j: nat :: j < i ==> At(a, j) == At(b, j);
      var k: nat :| At(b, k) < At(c, k) && forall j: nat :: j < k ==> At(b, j) == At(c, j);
      var m := if i < k then i else k;
      assert At(a, m) < At(c, m) && forall j: nat :: j < m ==> At(a, j) == At(c, j);
    } else if Precedes(a, b) {
      var i: nat :| At(a, i) < At(b, i) && forall j: nat :: j < i ==> At(a, j) == At(b, j);
      assert At(a, i) < At(c, i) && forall j: nat :: j < i ==> At(a, j) == At(c, j);
    } else if Precedes(b, c) {
      var k: nat :| At(b, k) < At(c, k) && forall j: nat :: j < k ==> At(b, j) == At(c, j);
      assert At(a, k) < At(c, k) && forall j: nat :: j < k ==> At(a, j) == At(c, j);
    }
  }

  function DropTrailingZeros(s: seq<int>): seq<int> {
    if s != [] && s[|s| - 1] == 0 then DropTrailingZeros(s[..|s| - 1]) else s
  }

  lemma {:induction false} DropKeepsVersion(s: seq<int>)
    ensures SameVersion(DropTrailingZeros(s), s)
    ensures DropTrailingZeros(s) != [] ==> DropTrailingZeros(s)[|DropTrailingZeros(s)| - 1] != 0
  {
    if s != [] && s[|s| - 1] == 0 {
      DropKeepsVersion(s[..|s| - 1]);
      forall i: nat ensures At(s[..|s| - 1], i) == At(s, i) {}
    }
  }

  /** Two versions compare equal exactly when they agree after dropping trailing zeros. */
  lemma EqualExactlyUpToTrailingZeros(l: seq<int>, r: seq<int>)
    ensures Compare(l, r) == 0 <==> DropTrailingZeros(l) == DropTrailingZeros(r)
  {
    CompareMeans(l, r);
    DropKeepsVersion(l);
    DropKeepsVersion(r);
    var x, y := DropTrailingZeros(l), DropTrailingZeros(r);
    if Compare(l, r) == 0 {
      assert forall i: nat :: At(x, i) == At(l, i) == At(r, i) == At(y, i);
      assert x != [] ==> At(x, |x| - 1) != 0;
      assert y != [] ==> At(y, |y| - 1) != 0;
      assert |x| == |y|;
      forall i | 0 <= i < |x| ensures x[i] == y[i] { assert At(x, i) == At(y, i); }
    }
  }

  /** None is the error of an unparsable version. */
  function CompareVersions(left: string, right: string): Option<int> {
    if Parse(left).None? || Parse(right).None? then None else Some(Compare(Parse(left).value, Parse(right).value))
  }

  method CompareDottedVersion(left: string, right: string) returns (c: Option<int>)
    ensures c == CompareVersions(left, right)
  {
    var l := ParseDottedVersion(left);
    if l.None? {
      return None;
    }
    var r := ParseDottedVersion(right);
    if r.None? {
      return None;
    }
    var maxLen := |l.value|;
    if |r.value| > maxLen {
      maxLen := |r.value|;
    }
    for i := 0 to maxLen
      invariant Compare(l.value, r.value) == CompareFrom(l.value, r.value, i)
    {
      var leftValue, rightValue := 0, 0;
      if i < |l.value| {
        leftValue := l.value[i];
      }
      if i < |r.value| {
        rightValue := r.value[i];
      }
      if leftValue < rightValue {
        return Some(-1);
      } else if leftValue > rightValue {
        return Some(1);
      }
    }
    c := Some(0);
  }

  // ---------------------------------------------------------------- windows

  function VersionWithin(value: string, min: string, max: string): Option<bool> {
    var v := TrimSpace(value);
    if v == "" then Some(min == "" && max == "") else
    var low := if min == "" then Some(0) else CompareVersions(v, min);
    if low.None? then None else
    if low.value < 0 then Some(false) else
    var high := if max == "" then Some(0) else CompareVersions(v, max);
    if high.None? then None else Some(high.value <= 0)
  }

  predicate AtMost(v: string, w: string) {
    CompareVersions(v, w).Some? && CompareVersions(v, w).value <= 0
  }

  predicate ValidWindow(min: string, max: string) {
    min == "" || max == "" || AtMost(min, max)
  }

  lemma CompareTrims(v: string, w: string)
    ensures CompareVersions(TrimSpace(v), w) == CompareVersions(v, w)
    ensures CompareVersions(v, w).Some? ==> TrimSpace(v) != "" && TrimSpace(w) != ""
  {
    assert Parse("").None?;
    hide Parse, TrimSpace, Compare;
    ParseTrims(v);
    ParseTrims(w);
  }

  lemma VersionsReverse(v: string, w: string)
    ensures CompareVersions(v, w).Some? <==> CompareVersions(w, v).Some?
    ensures CompareVersions(v, w).Some? ==> CompareVersions(w, v).value == -CompareVersions(v, w).value
    ensures CompareVersions(v, w).Some? ==> CompareVersions(v, v) == Some(0)
  {
    hide Parse, Compare;
    if CompareVersions(v, w).Some? {
      CompareIsReversed(Parse(v).value, Parse(w).value);
    }
  }

  lemma VersionsTransitive(u: string, v: string, w: string)
    requires AtMost(u, v) && AtMost(v, w)
    ensures AtMost(u, w)
  {
    hide Parse, Compare;
    CompareIsTransitive(Parse(u).value, Parse(v).value, Parse(w).value);
  }

  /** Between two versions inside a window there are only versions inside it. */
  lemma WindowIsConvex(a: string, b: string, c: string, min: string, max: string)
    requires VersionWithin(a, min, max) == Some(true) == VersionWithin(c, min, max)
    requires AtMost(a, b) && AtMost(b, c)
    ensures VersionWithin(b, min, max) == Some(true)
  {
    hide CompareVersions, TrimSpace;
    CompareTrims(a, min);
    CompareTrims(a, b);
    CompareTrims(b, min);
    CompareTrims(b, c);
    CompareTrims(b, max);
    CompareTrims(c, max);
    VersionsReverse(a, min);
    VersionsReverse(b, min);
    if min != "" {
      VersionsTransitive(min, a, b);
    }
    if max != "" {
      VersionsTransitive(b, c, max);
    }
  }

  /** A two-sided window is accepted exactly when it contains its lower bound, and then it
      contains its upper bound too. A window that is open on one side is always accepted. */
  lemma ValidWindowContainsItsEnds(min: string, max: string)
    ensures ValidWindow(min, max) <==> min == "" || max == "" || VersionWithin(min, min, max) == Some(true)
    ensures ValidWindow(min, max) <==> min == "" || max == "" || VersionWithin(max, min, max) == Some(true)
  {
    hide CompareVersions, TrimSpace;
    CompareTrims(min, min);
    CompareTrims(min, max);
    CompareTrims(max, min);
    CompareTrims(max, max);
    VersionsReverse(min, max);
    VersionsReverse(max, min);
  }

  // ---------------------------------------------------------------- verdicts

  datatype Window = Window(minProtocol: string, maxProtocol: string, minHA: string, maxHA: string,
                           supported: bool, reason: string)

  datatype ArtifactStatus = Draft | Published | Retired | Unsupported

  datatype Artifact = Artifact(status: ArtifactStatus, windows: seq<Window>)

  datatype Verdict = Verdict(supported: bool, reason: string) | BadVersion

  function ReasonForStatus(s: ArtifactStatus): string {
    match s
    case Draft => "release_not_published"
    case Retired => "release_retired"
    case Unsupported => "unsupported_version"
    case Published => "release_unavailable"
  }

  function Matches(w: Window, protocol: string, ha: string): Option<bool> {
    var p := VersionWithin(protocol, w.minProtocol, w.maxProtocol);
    if p != Some(true) then p else VersionWithin(ha, w.minHA, w.maxHA)
  }

  function VerdictOf(w: Window): Verdict {
    if w.supported then Verdict(true, "supported")
    else Verdict(false, if TrimSpace(w.reason) == "" then "unsupported_compatibility_window" else TrimSpace(w.reason))
  }

  predicate Parses(v: string) { Parse(v).Some? }

  /** Both parse, and the first comes before the second. */
  ghost predicate Earlier(v: string, w: string) {
    Parses(v) && Parses(w) && Precedes(Parse(v).value, Parse(w).value)
  }

  /** The window test cannot be decided: a bound that is set is looked at, and it or the value
      does not parse. The upper bound is not looked at when the value is below the lower one. */
  ghost predicate Undecidable(value: string, min: string, max: string) {
    && TrimSpace(value) != ""
    && (|| (min != "" && !(Parses(value) && Parses(min)))
        || (max != "" && !(Parses(value) && Parses(max)) && !(min != "" && Earlier(value, min))))
  }

  /** What the version order says about a value and two bounds. A window without bounds contains
      every value, one with a bound no blank one. */
  ghost predicate Inside(value: string, min: string, max: string) {
    if TrimSpace(value) == "" then min == "" && max == ""
    else (min != "" ==> !Earlier(value, min)) && (max != "" ==> !Earlier(max, value))
  }

  ghost predicate WindowUndecidable(w: Window, protocol: string, ha: string) {
    || Undecidable(protocol, w.minProtocol, w.maxProtocol)
    || (Inside(protocol, w.minProtocol, w.maxProtocol) && Undecidable(ha, w.minHA, w.maxHA))
  }

  ghost predicate Contains(w: Window, protocol: string, ha: string) {
    Inside(protocol, w.minProtocol, w.maxProtocol) && Inside(ha, w.minHA, w.maxHA)
  }

  lemma VersionsMean(v: string, w: string)
    requires Parse(v).Some? && Parse(w).Some?
    ensures CompareVersions(v, w).Some?
    ensures CompareVersions(v, w).value < 0 <==> Precedes(Parse(v).value, Parse(w).value)
    ensures CompareVersions(v, w).value > 0 <==> Precedes(Parse(w).value, Parse(v).value)
  {
    hide Parse, Compare, Precedes;
    CompareMeans(Parse(v).value, Parse(w).value);
  }

  /** The window test, for any value and any bounds: an error exactly when it is undecidable, and
      otherwise what the version order says. */
  lemma WithinMeansInside(value: string, min: string, max: string)
    ensures VersionWithin(value, min, max) ==
            if Undecidable(value, min, max) then None else Some(Inside(value, min, max))
  {
    hide Parse, TrimSpace, CompareVersions, Precedes;
    ParseTrims(value);
    CompareTrims(value, min);
    CompareTrims(value, max);
    OnlyParsedCompare(value, min);
    OnlyParsedCompare(value, max);
    if Parses(value) && Parses(min) { VersionsMean(value, min); }
    if Parses(value) && Parses(max) { VersionsMean(value, max); }
  }

  lemma OnlyParsedCompare(v: string, w: string)
    ensures CompareVersions(v, w).Some? <==> Parses(v) && Parses(w)
  {
    hide Parse;
  }

  /** Which window decides: the first that matches or fails to parse, if any. */
  function Deciding(windows: seq<Window>, protocol: string, ha: string): (n: nat)
    ensures n <= |windows|
  {
    if windows == [] || Matches(windows[0], protocol, ha) != Some(false) then 0
    else 1 + Deciding(windows[1..], protocol, ha)
  }

  lemma {:induction false} DecidingIsFirst(windows: seq<Window>, protocol: string, ha: string, n: nat)
    requires n <= |windows|
    requires forall i :: 0 <= i < n ==> Matches(windows[i], protocol, ha) == Some(false)
    requires n < |windows| ==> Matches(windows[n], protocol, ha) != Some(false)
    ensures Deciding(windows, protocol, ha) == n
  {
    if n > 0 {
      forall i | 0 <= i < n - 1 ensures Matches(windows[1..][i], protocol, ha) == Some(false) {
        assert windows[1..][i] == windows[i + 1];
      }
      DecidingIsFirst(windows[1..], protocol, ha, n - 1);
    }
  }

  function Compatibility(artifact: Option<Artifact>, protocol: string, ha: string): Verdict {
    if artifact.None? then Verdict(false, "unsupported_version") else
    if artifact.value.status != Published then Verdict(false, ReasonForStatus(artifact.value.status)) else
    var ws := artifact.value.windows;
    var n := Deciding(ws, protocol, ha);
    if n == |ws| then Verdict(false, "outside_compatibility_window")
    else if Matches(ws[n], protocol, ha).None? then BadVersion
    else VerdictOf(ws[n])
  }

  /** The verdict on a host whose installed version resolved to `artifact` (None: no such version). */
  method CompatibilityForVersion(artifact: Option<Artifact>, protocol: string, ha: string) returns (v: Verdict)
    ensures v == Compatibility(artifact, protocol, ha)
  {
    if artifact.None? {
      return Verdict(false, "unsupported_version");
    }
    if artifact.value.status != Published {
      return Verdict(false, ReasonForStatus(artifact.value.status));
    }
    var ws := artifact.value.windows;
    for i := 0 to |ws|
      invariant forall j :: 0 <= j < i ==> Matches(ws[j], protocol, ha) == Some(false)
    {
      var matches := Matches(ws[i], protocol, ha);
      if matches == Some(false) {
        continue;
      }
      DecidingIsFirst(ws, protocol, ha, i);
      return if matches.None? then BadVersion else VerdictOf(ws[i]);
    }
    DecidingIsFirst(ws, protocol, ha, |ws|);
    v := Verdict(false, "outside_compatibility_window");
  }

  lemma MatchesMeans(w: Window, protocol: string, ha: string)
    ensures Matches(w, protocol, ha) ==
            if WindowUndecidable(w, protocol, ha) then None else Some(Contains(w, protocol, ha))
  {
    hide VersionWithin, Inside, Undecidable;
    WithinMeansInside(protocol, w.minProtocol, w.maxProtocol);
    WithinMeansInside(ha, w.minHA, w.maxHA);
  }

  /** Window n is the first, if any, that contains the host or cannot be decided. */
  ghost predicate FirstToDecide(windows: seq<Window>, protocol: string, ha: string, n: nat) {
    && n <= |windows|
    && (forall i :: 0 <= i < n ==> !WindowUndecidable(windows[i], protocol, ha) && !Contains(windows[i], protocol, ha))
    && (n < |windows| ==> WindowUndecidable(windows[n], protocol, ha) || Contains(windows[n], protocol, ha))
  }

  /** A published artifact, any windows and any host: there is exactly one window that decides, or
      none, and it gives the verdict; the host's versions are refused exactly when that window
      cannot be decided. */
  lemma FirstWindowDecides(a: Artifact, protocol: string, ha: string) returns (n: nat)
    requires a.status == Published
    ensures FirstToDecide(a.windows, protocol, ha, n)
    ensures forall m :: FirstToDecide(a.windows, protocol, ha, m) ==> m == n
    ensures Compatibility(Some(a), protocol, ha) ==
            if n == |a.windows| then Verdict(false, "outside_compatibility_window")
            else if WindowUndecidable(a.windows[n], protocol, ha) then BadVersion
            else if a.windows[n].supported then Verdict(true, "supported")
            else Verdict(false, if TrimSpace(a.windows[n].reason) != "" then TrimSpace(a.windows[n].reason)
                                else "unsupported_compatibility_window")
  {
    hide Matches, WindowUndecidable, Contains, TrimSpace;
    forall i | 0 <= i < |a.windows|
      ensures Matches(a.windows[i], protocol, ha) ==
              if WindowUndecidable(a.windows[i], protocol, ha) then None else Some(Contains(a.windows[i], protocol, ha))
    {
      MatchesMeans(a.windows[i], protocol, ha);
    }
    n := 0;
    while n < |a.windows| && Matches(a.windows[n], protocol, ha) == Some(false)
      invariant n <= |a.windows| && forall i :: 0 <= i < n ==> Matches(a.windows[i], protocol, ha) == Some(false)
    {
      n := n + 1;
    }
    DecidingIsFirst(a.windows, protocol, ha, n);
  }

  /** Any installed version and any host: the host is supported exactly when the version is known
      and published and the first window that decides contains the host and is a supported one. */
  lemma SupportedExactlyWhen(artifact: Option<Artifact>, protocol: string, ha: string)
    ensures Compatibility(artifact, protocol, ha) == Verdict(true, "supported") <==>
            && artifact.Some? && artifact.value.status == Published
            && exists n :: 0 <= n < |artifact.value.windows|
                           && FirstToDecide(artifact.value.windows, protocol, ha, n)
                           && !WindowUndecidable(artifact.value.windows[n], protocol, ha)
                           && artifact.value.windows[n].supported
    ensures Compatibility(artifact, protocol, ha).Verdict? && Compatibility(artifact, protocol, ha).supported ==>
              Compatibility(artifact, protocol, ha) == Verdict(true, "supported")
  {
    hide WindowUndecidable, Contains;
    if artifact.Some? && artifact.value.status == Published {
      hide Compatibility, TrimSpace;
      var n := FirstWindowDecides(artifact.value, protocol, ha);
    }
  }

  /** Why a host is not supported: the version is unknown or not published, each with a reason of
      its own; or no window contains the host; or the window that decides says so, for its own
      reason if it has one. */
  lemma RefusedBecause(artifact: Option<Artifact>, protocol: string, ha: string, n: nat)
    requires artifact.Some? ==> FirstToDecide(artifact.value.windows, protocol, ha, n)
    ensures var v := Compatibility(artifact, protocol, ha);
            if artifact.None? then v == Verdict(false, "unsupported_version")
            else if artifact.value.status == Draft then v == Verdict(false, "release_not_published")
            else if artifact.value.status == Retired then v == Verdict(false, "release_retired")
            else if artifact.value.status == Unsupported then v == Verdict(false, "unsupported_version")
            else if n == |artifact.value.windows| then v == Verdict(false, "outside_compatibility_window")
            else
              var w := artifact.value.windows[n];
              && (WindowUndecidable(w, protocol, ha) <==> v == BadVersion)
              && (v.Verdict? ==> v.supported == w.supported && Contains(w, protocol, ha))
              && (v.Verdict? && !w.supported ==>
                    v.reason == if TrimSpace(w.reason) == [] then "unsupported_compatibility_window"
                                else TrimSpace(w.reason))
  {
    hide WindowUndecidable, Contains, TrimSpace;
    if artifact.Some? && artifact.value.status == Published {
      hide Compatibility;
      var m := FirstWindowDecides(artifact.value, protocol, ha);
    }
  }

  /** So the versions are refused exactly when the deciding window cannot be decided. */
  lemma BadVersionExactlyWhen(a: Artifact, protocol: string, ha: string)
    requires a.status == Published
    ensures Compatibility(Some(a), protocol, ha) == BadVersion <==>
            exists n :: 0 <= n < |a.windows| && WindowUndecidable(a.windows[n], protocol, ha)
                        && forall i :: 0 <= i < n ==> !Contains(a.windows[i], protocol, ha)
                                                       && !WindowUndecidable(a.windows[i], protocol, ha)
  {
    hide Compatibility, WindowUndecidable, Contains;
    var n := FirstWindowDecides(a, protocol, ha);
  }
}
