/** The canonical text of a material map, which is what the material hash is taken of. */
module MaterialHash {
  import opened Common
  import opened Strings

  type Material = map<string, string>

  const BY_NAME: string -> string := s => s

  function Line(key: string, value: string): string {
    key + "=" + value + "\n"
  }

  function Lines(keys: seq<string>, m: Material): string
    requires forall k :: k in keys ==> k in m
  {
    if keys == [] then "" else Line(keys[0], m[keys[0]]) + Lines(keys[1..], m)
  }

  lemma {:induction false} LinesAppend(keys: seq<string>, k: string, m: Material)
    requires k in m && forall k' :: k' in keys ==> k' in m
    ensures Lines(keys + [k], m) == Lines(keys, m) + Line(k, m[k])
  {
    if keys != [] {
      LinesAppend(keys[1..], k, m);
      assert (keys + [k])[1..] == keys[1..] + [k];
    } else {
      assert Lines([k], m) == Line(k, m[k]) + Lines([], m);
    }
  }

  /** The keys of a map in increasing order. */
  ghost predicate Enumerates(keys: seq<string>, s: set<string>) {
    StrictlyIncreasing(BY_NAME, keys) && forall k :: k in keys <==> k in s
  }

  /** `text` is the canonical text of m: one line for each key, in increasing order of the keys. */
  ghost predicate IsCanonical(text: string, m: Material) {
    exists keys :: Enumerates(keys, m.Keys) && text == Lines(keys, m)
  }

  lemma CanonicalTextIsUnique(m: Material, t: string, u: string)
    requires IsCanonical(t, m) && IsCanonical(u, m)
    ensures t == u
  {
    var ks :| Enumerates(ks, m.Keys) && t == Lines(ks, m);
    var ls :| Enumerates(ls, m.Keys) && u == Lines(ls, m);
    IncreasingListsWithTheSameElements(BY_NAME, ks, ls);
  }

  /** The members of a set in some order. */
  ghost function ListOf(s: set<string>): (l: seq<string>)
    ensures forall k :: k in l <==> k in s
    ensures forall i, j :: 0 <= i < j < |l| ==> l[i] != l[j]
  {
    if s == {} then [] else var k :| k in s; [k] + ListOf(s - {k})
  }

  /** The canonical text of m. */
  ghost function Canonical(m: Material): (text: string)
    ensures IsCanonical(text, m)
  {
    SortEnumerates(ListOf(m.Keys), m.Keys);
    Lines(Sort(BY_NAME, ListOf(m.Keys)), m)
  }

  /** Sorting any listing of a set without repetition enumerates the set. */
  lemma SortEnumerates(keys: seq<string>, s: set<string>)
    requires forall i, j :: 0 <= i < j < |keys| ==> keys[i] != keys[j]
    requires forall k :: k in keys <==> k in s
    ensures Enumerates(Sort(BY_NAME, keys), s)
  {
    hide Less, Sort, SortedBy, StrictlyIncreasing;
    var r := Sort(BY_NAME, keys);
    SortSorts(BY_NAME, keys);
    SameMembers(r, keys);
    forall i | 0 < i < |r| ensures r[i - 1] != r[i] {
      NoRepetition(keys, r[i]);
      if r[i - 1] == r[i] { OccursTwice(r, i - 1, i); }
    }
    SortedWithoutEqualNeighbours(BY_NAME, r);
  }

  lemma {:induction false} NoRepetition(keys: seq<string>, k: string)
    requires forall i, j :: 0 <= i < j < |keys| ==> keys[i] != keys[j]
    ensures multiset(keys)[k] <= 1
  {
    if keys != [] {
      NoRepetition(keys[1..], k);
      assert keys == [keys[0]] + keys[1..];
      if k == keys[0] {
        assert forall i :: 0 <= i < |keys[1..]| ==> keys[1..][i] != k;
        assert k !in keys[1..];
      }
    }
  }

  /** The keys of m. Go iterates over a map in an arbitrary order: so does the choice of the next
      key here. */
  method KeysOf(m: Material) returns (keys: seq<string>)
    ensures forall k :: k in keys <==> k in m.Keys
    ensures forall i, j :: 0 <= i < j < |keys| ==> keys[i] != keys[j]
  {
    keys := [];
    var todo := m.Keys;
    while todo != {}
      invariant todo <= m.Keys
      invariant forall k :: k in keys <==> k in m.Keys && k !in todo
      invariant forall i, j :: 0 <= i < j < |keys| ==> keys[i] != keys[j]
      decreases todo
    {
      var k :| k in todo;
      keys := keys + [k];
      todo := todo - {k};
    }
  }

  method WriteLines(keys: seq<string>, m: Material) returns (text: string)
    requires forall k :: k in keys ==> k in m
    ensures text == Lines(keys, m)
  {
    text := "";
    for i := 0 to |keys|
      invariant text == Lines(keys[..i], m)
    {
      LinesAppend(keys[..i], keys[i], m);
      assert keys[..i + 1] == keys[..i] + [keys[i]];
      text := text + keys[i];
      text := text + "=";
      text := text + m[keys[i]];
      text := text + "\n";
      assert text == Lines(keys[..i], m) + Line(keys[i], m[keys[i]]);
    }
    assert keys[..|keys|] == keys;
  }

  /** The text written for m. */
  method CanonicalText(m: Material) returns (text: string)
    ensures text == Canonical(m)
  {
    var keys := KeysOf(m);
    SortEnumerates(keys, m.Keys);
    keys := Sort(BY_NAME, keys);
    text := WriteLines(keys, m);
    CanonicalTextIsUnique(m, text, Canonical(m));
  }

  method Hash(m: Material, sha256: string -> string) returns (hash: string)
    ensures hash == sha256(Canonical(m))
  {
    var text := CanonicalText(m);
    hash := sha256(text);
  }

  // ---------------------------------------------------------------- decoding

  /** Reads a text line by line, each line up to its first '='. */
  function Decode(text: string): Option<Material>
    decreases |text|
  {
    if text == "" then Some(map[]) else
    var n := Index(text, '\n');
    if n == |text| then None else
    var e := Index(text[..n], '=');
    if e == n then None else
    var rest := Decode(text[n + 1..]);
    if rest.None? then None else Some(rest.value[text[..e] := text[e + 1..n]])
  }

  predicate CleanEntry(key: string, value: string) {
    '=' !in key && '\n' !in key && '\n' !in value
  }

  ghost predicate Clean(m: Material) {
    forall k :: k in m ==> CleanEntry(k, m[k])
  }

  lemma {:induction false} DecodedIsClean(text: string)
    ensures Decode(text).Some? ==> Clean(Decode(text).value)
    decreases |text|
  {
    if text != "" && Decode(text).Some? {
      var n := Index(text, '\n');
      var e := Index(text[..n], '=');
      DecodedIsClean(text[n + 1..]);
      assert text[..n][..e] == text[..e];
      assert forall c :: c in text[..e] ==> c in text[..n];
      assert forall c :: c in text[e + 1..n] ==> c in text[..n];
    }
  }

  lemma DecodeLine(key: string, value: string, rest: string)
    requires CleanEntry(key, value) && Decode(rest).Some?
    ensures Decode(Line(key, value) + rest) == Some(Decode(rest).value[key := value])
  {
    var line := key + "=" + value;
    var text := Line(key, value) + rest;
    var n := |line|;
    assert text == line + "\n" + rest;
    assert text[..n] == line && text[n] == '\n' && text[n + 1..] == rest;
    IndexUnique(text, '\n', n);
    assert line[..|key|] == key && line[|key|] == '=';
    IndexUnique(line, '=', |key|);
    assert text[..|key|] == key && text[|key| + 1..n] == value;
  }

  lemma DecodeNothing()
    ensures Decode("") == Some(map[])
  {}

  lemma {:induction false} DecodeLines(keys: seq<string>, m: Material)
    requires StrictlyIncreasing(BY_NAME, keys)
    requires forall k :: k in keys ==> k in m && CleanEntry(k, m[k])
    ensures Decode(Lines(keys, m)) == Some(map k | k in keys :: m[k])
  {
    hide Decode, Less, Line;
    if keys == [] {
      DecodeNothing();
    } else {
      var k0, rest := keys[0], keys[1..];
      assert keys == [k0] + rest;
      DecodeLines(rest, m);
      DecodeLine(k0, m[k0], Lines(rest, m));
      assert (map k | k in keys :: m[k]) == (map k | k in rest :: m[k])[k0 := m[k0]];
    }
  }

  /** The canonical text can be read back exactly when no key holds '=' or a line break and no
      value holds a line break. */
  lemma RoundTrip(m: Material, text: string)
    requires IsCanonical(text, m)
    ensures Decode(text) == Some(m) <==> Clean(m)
  {
    var keys :| Enumerates(keys, m.Keys) && text == Lines(keys, m);
    if Clean(m) {
      DecodeLines(keys, m);
      assert (map k | k in keys :: m[k]) == m;
    }
    DecodedIsClean(text);
  }

  /** On clean maps the encoding is injective: equal texts, equal maps. */
  lemma CanonicalTextIsInjective(m: Material, n: Material, text: string)
    requires IsCanonical(text, m) && IsCanonical(text, n) && Clean(m) && Clean(n)
    ensures m == n
  {
    RoundTrip(m, text);
    RoundTrip(n, text);
  }
}
