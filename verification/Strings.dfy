/** The string and sorting operations of Go's library that the components call. */
module Strings {
  // ---------------------------------------------------------------- order and sorting

  predicate Less(a: string, b: string) {
    b != [] && (a == [] || a[0] < b[0] || (a[0] == b[0] && Less(a[1..], b[1..])))
  }

  lemma {:induction false} LessIsTotal(a: string, b: string)
    ensures !(Less(a, b) && Less(b, a))
    ensures Less(a, b) || Less(b, a) <==> a != b
  {
    if a != [] && b != [] {
      LessIsTotal(a[1..], b[1..]);
      assert a == [a[0]] + a[1..] && b == [b[0]] + b[1..];
    }
  }

  /** Byte order: at the first difference the smaller character decides, and a proper prefix comes
      first. */
  lemma {:induction false} LessMeans(a: string, b: string)
    ensures Less(a, b) <==> exists n :: 0 <= n <= |a| && n < |b| && a[..n] == b[..n] && (n == |a| || a[n] < b[n])
  {
    if a != [] && b != [] && a[0] == b[0] {
      LessMeans(a[1..], b[1..]);
      if Less(a, b) {
        var n :| 0 <= n <= |a| - 1 && n < |b| - 1 && a[1..][..n] == b[1..][..n]
                 && (n == |a| - 1 || a[1..][n] < b[1..][n]);
        assert a[..n + 1] == [a[0]] + a[1..][..n] && b[..n + 1] == [b[0]] + b[1..][..n];
        assert n + 1 == |a| || a[n + 1] < b[n + 1];
      }
      if n :| 0 <= n <= |a| && n < |b| && a[..n] == b[..n] && (n == |a| || a[n] < b[n]) {
        assert n > 0;
        assert a[1..][..n - 1] == a[..n][1..] && b[1..][..n - 1] == b[..n][1..];
        assert n - 1 == |a[1..]| || a[1..][n - 1] < b[1..][n - 1];
      }
    } else if Less(a, b) {
      assert a[..0] == b[..0];
    } else if n :| 0 <= n <= |a| && n < |b| && a[..n] == b[..n] && (n == |a| || a[n] < b[n]) {
      assert n > 0;
      assert a[..n][0] == b[..n][0];
    }
  }

  lemma {:induction false} LessIsTransitive(a: string, b: string, c: string)
    requires !Less(b, a) && !Less(c, b)
    ensures !Less(c, a)
  {
    if a != [] && b != [] && c != [] && a[0] == b[0] == c[0] {
      LessIsTransitive(a[1..], b[1..], c[1..]);
    }
  }

  ghost predicate SortedBy<T(!new)>(key: T -> string, s: seq<T>) {
    forall i, j :: 0 <= i < j < |s| ==> !Less(key(s[j]), key(s[i]))
  }

  ghost predicate StrictlyIncreasing<T(!new)>(key: T -> string, s: seq<T>) {
    forall i, j :: 0 <= i < j < |s| ==> Less(key(s[i]), key(s[j]))
  }

  function Insert<T>(key: T -> string, x: T, s: seq<T>): seq<T> {
    if s == [] || !Less(key(s[0]), key(x)) then [x] + s
    else [s[0]] + Insert(key, x, s[1..])
  }

  function Sort<T>(key: T -> string, s: seq<T>): seq<T> {
    if s == [] then [] else Insert(key, s[0], Sort(key, s[1..]))
  }

  lemma {:induction false} InsertKeeps<T(!new)>(key: T -> string, x: T, s: seq<T>)
    requires SortedBy(key, s)
    ensures SortedBy(key, Insert(key, x, s))
    ensures multiset(Insert(key, x, s)) == multiset{x} + multiset(s)
  {
    hide Less;
    var r := Insert(key, x, s);
    if s == [] || !Less(key(s[0]), key(x)) {
      forall j | 0 < j < |r| ensures !Less(key(r[j]), key(x)) {
        if j > 1 {
          assert !Less(key(s[j - 1]), key(s[0]));
          LessIsTransitive(key(x), key(s[0]), key(s[j - 1]));
        }
      }
    } else {
      InsertKeeps(key, x, s[1..]);
      assert s == [s[0]] + s[1..];
      var tail := Insert(key, x, s[1..]);
      forall j | 0 <= j < |tail| ensures !Less(key(tail[j]), key(s[0])) {
        assert tail[j] in multiset(tail);
        if tail[j] == x {
          LessIsTotal(key(s[0]), key(x));
        } else {
          assert tail[j] in s[1..];
        }
      }
    }
  }

  /** Sorting orders the elements and keeps every one of them. */
  lemma {:induction false} SortSorts<T(!new)>(key: T -> string, s: seq<T>)
    ensures SortedBy(key, Sort(key, s))
    ensures multiset(Sort(key, s)) == multiset(s)
  {
    if s != [] {
      SortSorts(key, s[1..]);
      InsertKeeps(key, s[0], Sort(key, s[1..]));
      assert s == [s[0]] + s[1..];
    }
  }

  /** A sorted list without equal neighbours is strictly increasing, and conversely. */
  lemma SortedWithoutEqualNeighbours<T(!new)>(key: T -> string, s: seq<T>)
    requires SortedBy(key, s)
    ensures StrictlyIncreasing(key, s) <==> forall i :: 0 < i < |s| ==> key(s[i - 1]) != key(s[i])
  {
    if StrictlyIncreasing(key, s) {
      forall i | 0 < i < |s| ensures key(s[i - 1]) != key(s[i]) {
        assert Less(key(s[i - 1]), key(s[i]));
        LessIsTotal(key(s[i - 1]), key(s[i]));
      }
    } else {
      var i, j :| 0 <= i < j < |s| && !Less(key(s[i]), key(s[j]));
      LessIsTotal(key(s[i]), key(s[j]));
      if i + 1 < j {
        LessIsTransitive(key(s[i]), key(s[i + 1]), key(s[j]));
        LessIsTotal(key(s[i]), key(s[i + 1]));
        assert !Less(key(s[j]), key(s[i + 1])) && !Less(key(s[i + 1]), key(s[i]));
        assert key(s[i + 1]) == key(s[i]);
      }
      assert key(s[i + 1 - 1]) == key(s[i + 1]);
    }
  }

  lemma {:induction false} IncreasingListsWithTheSameElements<T(!new)>(key: T -> string, s: seq<T>, t: seq<T>)
    requires StrictlyIncreasing(key, s) && StrictlyIncreasing(key, t)
    requires forall x :: x in s <==> x in t
    ensures s == t
  {
    assert s != [] ==> s[0] in t;
    assert t != [] ==> t[0] in s;
    if s != [] && t != [] {
      if s[0] != t[0] {
        var i :| 0 <= i < |t| && t[i] == s[0];
        var j :| 0 <= j < |s| && s[j] == t[0];
        LessIsTotal(key(s[0]), key(t[0]));
        assert false;
      }
      forall x ensures x in s[1..] <==> x in t[1..] {
        InTail(key, s, x);
        InTail(key, t, x);
      }
      IncreasingListsWithTheSameElements(key, s[1..], t[1..]);
      assert s == [s[0]] + s[1..] && t == [t[0]] + t[1..];
    }
  }

  lemma InTail<T(!new)>(key: T -> string, s: seq<T>, x: T)
    requires s != [] && StrictlyIncreasing(key, s)
    ensures x in s[1..] <==> x in s && x != s[0]
  {
    assert s == [s[0]] + s[1..];
    if x in s[1..] {
      var i :| 0 <= i < |s| - 1 && s[1..][i] == x;
      LessIsTotal(key(s[0]), key(s[i + 1]));
    }
  }

  lemma OccursTwice<T>(s: seq<T>, i: nat, j: nat)
    requires i < j < |s| && s[i] == s[j]
    ensures multiset(s)[s[i]] >= 2
  {
    assert s == s[..i] + [s[i]] + s[i + 1..j] + [s[j]] + s[j + 1..];
  }

  lemma SameMembers<T>(s: seq<T>, t: seq<T>)
    requires multiset(s) == multiset(t)
    ensures forall x :: x in s <==> x in t
  {
    forall x ensures x in s <==> x in t {
      assert x in s <==> x in multiset(s);
      assert x in t <==> x in multiset(t);
    }
  }

  // ---------------------------------------------------------------- searching, splitting, trimming

  /** The first position at which c occurs, or the length of s. */
  function Index(s: string, c: char): (n: nat)
    ensures n <= |s| && c !in s[..n] && (n < |s| ==> s[n] == c)
  {
    if s == [] || s[0] == c then 0
    else
      var n := 1 + Index(s[1..], c);
      assert s[..n] == [s[0]] + s[1..][..n - 1];
      n
  }

  lemma IndexUnique(s: string, c: char, n: nat)
    requires n < |s| && s[n] == c && c !in s[..n]
    ensures Index(s, c) == n
  {
    var i := Index(s, c);
    assert forall k :: 0 <= k < n ==> s[..n][k] == s[k];
    assert forall k :: 0 <= k < i ==> s[..i][k] == s[k];
  }

  function Split(s: string, sep: char): (parts: seq<string>)
    ensures parts != []
    ensures forall p, c :: p in parts && c in p ==> c in s && c != sep
    decreases |s|
  {
    var n := Index(s, sep);
    if n == |s| then
      assert s[..n] == s;
      [s]
    else [s[..n]] + Split(s[n + 1..], sep)
  }

  function Join(parts: seq<string>, sep: char): string
    requires parts != []
  {
    if |parts| == 1 then parts[0] else parts[0] + [sep] + Join(parts[1..], sep)
  }

  lemma {:induction false} JoinOfSplit(s: string, sep: char)
    ensures Join(Split(s, sep), sep) == s
    decreases |s|
  {
    hide Index;
    var n := Index(s, sep);
    if n < |s| {
      var rest := Split(s[n + 1..], sep);
      JoinOfSplit(s[n + 1..], sep);
      var parts := Split(s, sep);
      assert parts == [s[..n]] + rest && parts[1..] == rest;
      hide Split;
      assert Join(parts, sep) == s[..n] + [sep] + Join(rest, sep);
      assert s == s[..n] + [sep] + s[n + 1..];
    }
  }

  lemma {:induction false} SplitOfJoin(parts: seq<string>, sep: char)
    requires parts != [] && forall p :: p in parts ==> sep !in p
    ensures Split(Join(parts, sep), sep) == parts
    ensures (exists p :: p in parts && p != "") ==> Join(parts, sep) != ""
  {
    var s := Join(parts, sep);
    var first := parts[0];
    assert first in parts;
    if |parts| == 1 {
      assert forall i :: 0 <= i < |s| ==> s[i] == first[i] && first[i] in first;
      assert Index(s, sep) == |s|;
    } else {
      SplitOfJoin(parts[1..], sep);
      assert s == first + [sep] + Join(parts[1..], sep);
      assert s[..|first|] == first && s[|first|] == sep;
      IndexUnique(s, sep, |first|);
      assert s[|first| + 1..] == Join(parts[1..], sep);
    }
  }

  predicate IsSpace(c: char) {
    var n := c as int;
    || 0x09 <= n <= 0x0d || n == 0x20 || n == 0x85 || n == 0xa0 || n == 0x1680
    || 0x2000 <= n <= 0x200a || n == 0x2028 || n == 0x2029 || n == 0x202f || n == 0x205f || n == 0x3000
  }

  function TrimLeft(s: string): string {
    if s != [] && IsSpace(s[0]) then TrimLeft(s[1..]) else s
  }

  function TrimRight(s: string): string {
    if s != [] && IsSpace(s[|s| - 1]) then TrimRight(s[..|s| - 1]) else s
  }

  function TrimSpace(s: string): string {
    TrimRight(TrimLeft(s))
  }

  lemma {:induction false} TrimRightKeepsStart(s: string)
    requires s != [] && !IsSpace(s[0])
    ensures TrimRight(s) != [] && TrimRight(s)[0] == s[0]
    ensures !IsSpace(TrimRight(s)[|TrimRight(s)| - 1])
  {
    if IsSpace(s[|s| - 1]) {
      TrimRightKeepsStart(s[..|s| - 1]);
    }
  }

  lemma {:induction false} TrimLeftStarts(s: string)
    ensures TrimLeft(s) == [] || !IsSpace(TrimLeft(s)[0])
  {
    if s != [] && IsSpace(s[0]) {
      TrimLeftStarts(s[1..]);
    }
  }

  /** Trimming takes spaces off both ends and leaves none there. */
  lemma TrimMeans(s: string) returns (left: string, right: string)
    ensures s == left + TrimSpace(s) + right && forall c :: c in left + right ==> IsSpace(c)
    ensures TrimSpace(s) != "" ==> !IsSpace(TrimSpace(s)[0]) && !IsSpace(TrimSpace(s)[|TrimSpace(s)| - 1])
  {
    left := TrimLeftCuts(s);
    right := TrimRightCuts(TrimLeft(s));
    TrimLeftStarts(s);
    if TrimLeft(s) != [] {
      TrimRightKeepsStart(TrimLeft(s));
    }
  }

  lemma {:induction false} TrimLeftCuts(s: string) returns (left: string)
    ensures s == left + TrimLeft(s) && forall c :: c in left ==> IsSpace(c)
  {
    left := [];
    if s != [] && IsSpace(s[0]) {
      left := TrimLeftCuts(s[1..]);
      left := [s[0]] + left;
    }
  }

  lemma {:induction false} TrimRightCuts(s: string) returns (right: string)
    ensures s == TrimRight(s) + right && forall c :: c in right ==> IsSpace(c)
  {
    right := [];
    if s != [] && IsSpace(s[|s| - 1]) {
      right := TrimRightCuts(s[..|s| - 1]);
      right := right + [s[|s| - 1]];
    }
  }

  lemma TrimIsIdempotent(s: string)
    ensures TrimSpace(TrimSpace(s)) == TrimSpace(s)
  {
    TrimLeftStarts(s);
    if TrimLeft(s) != [] {
      TrimRightKeepsStart(TrimLeft(s));
    }
  }
}
