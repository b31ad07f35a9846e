/** The duplicate-key check that runs over the token stream of a JSON payload. */
module StrictJson {
  import opened Common

  datatype Token = OpenObject | CloseObject | OpenArray | CloseArray | Text(s: string) | Other(literal: string)

  datatype Error =
    | EndOfInput | KeyNotString | DuplicateKey(key: string)
    | ObjectNotClosed | ArrayNotClosed | UnexpectedDelimiter | TrailingData

  type Stream = seq<Token>
  type Outcome = Result<Stream, Error>

  // ---------------------------------------------------------------- the check as a function

  /** Another element or member follows. */
  predicate More(ts: Stream) {
    ts != [] && !ts[0].CloseObject? && !ts[0].CloseArray?
  }

  /** Consumes one value; the result is what is left of the stream. */
  function CheckValue(ts: Stream): (r: Outcome)
    ensures r.Success? ==> |r.value| < |ts|
    decreases |ts|, 0
  {
    if ts == [] then Failure(EndOfInput) else
    match ts[0]
    case OpenObject => CheckMembers(ts[1..], {})
    case OpenArray => CheckElements(ts[1..])
    case CloseObject => Failure(UnexpectedDelimiter)
    case CloseArray => Failure(UnexpectedDelimiter)
    case _ => Success(ts[1..])
  }

  /** Consumes the rest of an object of which `seen` are the keys so far. */
  function CheckMembers(ts: Stream, seen: set<string>): (r: Outcome)
    ensures r.Success? ==> |r.value| < |ts|
    decreases |ts|, 1
  {
    if !More(ts) then
      if ts == [] then Failure(EndOfInput)
      else if ts[0] != CloseObject then Failure(ObjectNotClosed)
      else Success(ts[1..])
    else if !ts[0].Text? then Failure(KeyNotString)
    else if ts[0].s in seen then Failure(DuplicateKey(ts[0].s))
    else
      var v := CheckValue(ts[1..]);
      if v.Failure? then v else CheckMembers(v.value, seen + {ts[0].s})
  }

  function CheckElements(ts: Stream): (r: Outcome)
    ensures r.Success? ==> |r.value| < |ts|
    decreases |ts|, 1
  {
    if !More(ts) then
      if ts == [] then Failure(EndOfInput)
      else if ts[0] != CloseArray then Failure(ArrayNotClosed)
      else Success(ts[1..])
    else
      var v := CheckValue(ts);
      if v.Failure? then v else CheckElements(v.value)
  }

  function CheckDocument(ts: Stream): Option<Error> {
    var v := CheckValue(ts);
    if v.Failure? then Some(v.error)
    else if v.value != [] then Some(TrailingData)
    else None
  }

  // ---------------------------------------------------------------- the decoder and the loops

  class Decoder {
    var rest: Stream

    constructor (tokens: Stream)
      ensures rest == tokens
    {
      rest := tokens;
    }

    method Next() returns (t: Option<Token>)
      modifies this
      ensures old(rest) == [] ==> t == None && rest == []
      ensures old(rest) != [] ==> t == Some(old(rest)[0]) && rest == old(rest)[1..]
    {
      if rest == [] {
        return None;
      }
      t := Some(rest[0]);
      rest := rest[1..];
    }
  }

  method RejectDuplicateValueKeys(d: Decoder) returns (err: Option<Error>)
    modifies d
    ensures var r := CheckValue(old(d.rest));
            if r.Success? then err == None && d.rest == r.value else err == Some(r.error)
    decreases |d.rest|
  {
    var token := d.Next();
    if token.None? {
      return Some(EndOfInput);
    }
    if token.value == OpenObject {
      var seen := {};
      ghost var start := d.rest;
      while More(d.rest)
        invariant |d.rest| <= |start|
        invariant CheckMembers(start, {}) == CheckMembers(d.rest, seen)
        decreases |d.rest|
      {
        var key := d.Next();
        if !key.value.Text? {
          return Some(KeyNotString);
        }
        if key.value.s in seen {
          return Some(DuplicateKey(key.value.s));
        }
        seen := seen + {key.value.s};
        err := RejectDuplicateValueKeys(d);
        if err.Some? {
          return;
        }
      }
      var end := d.Next();
      if end.None? {
        return Some(EndOfInput);
      }
      if end.value != CloseObject {
        return Some(ObjectNotClosed);
      }
    } else if token.value == OpenArray {
      ghost var start := d.rest;
      while More(d.rest)
        invariant |d.rest| <= |start|
        invariant CheckElements(start) == CheckElements(d.rest)
        decreases |d.rest|
      {
        err := RejectDuplicateValueKeys(d);
        if err.Some? {
          return;
        }
      }
      var end := d.Next();
      if end.None? {
        return Some(EndOfInput);
      }
      if end.value != CloseArray {
        return Some(ArrayNotClosed);
      }
    } else if token.value == CloseObject || token.value == CloseArray {
      return Some(UnexpectedDelimiter);
    }
    err := None;
  }

  method RejectDuplicateJSONKeys(payload: Stream) returns (err: Option<Error>)
    ensures err == CheckDocument(payload)
  {
    var d := new Decoder(payload);
    err := RejectDuplicateValueKeys(d);
    if err.Some? {
      return;
    }
    var extra := d.Next();
    if extra.Some? {
      return Some(TrailingData);
    }
  }

  // ---------------------------------------------------------------- JSON trees

  datatype Json = Str(s: string) | Lit(literal: string) | Arr(items: Items) | Obj(members: Members)
  datatype Items = NoItems | Item(head: Json, tail: Items)
  datatype Members = NoMembers | Member(key: string, value: Json, others: Members)

  function Tokens(j: Json): Stream {
    match j
    case Str(s) => [Text(s)]
    case Lit(l) => [Other(l)]
    case Arr(items) => [OpenArray] + ItemTokens(items)
    case Obj(members) => [OpenObject] + MemberTokens(members)
  }

  function ItemTokens(items: Items): Stream {
    match items
    case NoItems => [CloseArray]
    case Item(head, tail) => Tokens(head) + ItemTokens(tail)
  }

  function MemberTokens(members: Members): Stream {
    match members
    case NoMembers => [CloseObject]
    case Member(key, value, others) => [Text(key)] + Tokens(value) + MemberTokens(others)
  }

  function Keys(members: Members): set<string> {
    match members
    case NoMembers => {}
    case Member(key, _, others) => {key} + Keys(others)
  }

  /** No object at any depth repeats a key. */
  predicate KeysUnique(j: Json) {
    match j
    case Arr(items) => ItemsUnique(items)
    case Obj(members) => MembersUnique(members)
    case _ => true
  }

  predicate ItemsUnique(items: Items) {
    match items
    case NoItems => true
    case Item(head, tail) => KeysUnique(head) && ItemsUnique(tail)
  }

  predicate MembersUnique(members: Members) {
    match members
    case NoMembers => true
    case Member(key, value, others) => key !in Keys(others) && KeysUnique(value) && MembersUnique(others)
  }

  // ---------------------------------------------------------------- exactness on trees

  /** The verdict on a piece of text that is well formed: what is left, or a repeated key. */
  ghost predicate Exact(r: Outcome, unique: bool, rest: Stream) {
    if unique then r == Success(rest) else r.Failure? && r.error.DuplicateKey?
  }

  lemma ValueTokens(j: Json)
    ensures More(Tokens(j))
  {}

  lemma {:induction false} ValueExact(j: Json, rest: Stream)
    ensures Exact(CheckValue(Tokens(j) + rest), KeysUnique(j), rest)
    decreases j
  {
    var ts := Tokens(j) + rest;
    match j
    case Str(s) => assert ts[1..] == rest;
    case Lit(l) => assert ts[1..] == rest;
    case Arr(items) =>
      ItemsExact(items, rest);
      assert ts[1..] == ItemTokens(items) + rest;
    case Obj(members) =>
      MembersExact(members, {}, rest);
      assert ts[1..] == MemberTokens(members) + rest;
  }

  lemma {:induction false} ItemsExact(items: Items, rest: Stream)
    ensures Exact(CheckElements(ItemTokens(items) + rest), ItemsUnique(items), rest)
    decreases items
  {
    var ts := ItemTokens(items) + rest;
    match items
    case NoItems => assert ts[1..] == rest;
    case Item(head, tail) =>
      assert ts == Tokens(head) + (ItemTokens(tail) + rest);
      ValueTokens(head);
      ValueExact(head, ItemTokens(tail) + rest);
      ItemsExact(tail, rest);
  }

  lemma {:induction false} MembersExact(members: Members, seen: set<string>, rest: Stream)
    ensures Exact(CheckMembers(MemberTokens(members) + rest, seen),
                  MembersUnique(members) && Keys(members) !! seen, rest)
    decreases members
  {
    var ts := MemberTokens(members) + rest;
    match members
    case NoMembers => assert ts[1..] == rest;
    case Member(key, value, others) =>
      assert ts[1..] == Tokens(value) + (MemberTokens(others) + rest);
      ValueExact(value, MemberTokens(others) + rest);
      MembersExact(others, seen + {key}, rest);
  }

  // ---------------------------------------------------------------- exactness on arbitrary streams

  /** The tree of a value that was accepted. */
  lemma {:induction false} ValueSound(ts: Stream) returns (j: Json)
    requires CheckValue(ts).Success?
    ensures ts == Tokens(j) + CheckValue(ts).value && KeysUnique(j)
    decreases |ts|, 0
  {
    var rest := CheckValue(ts).value;
    match ts[0]
    case Text(s) => j := Str(s);
    case Other(l) => j := Lit(l);
    case OpenArray =>
      var items := ElementsSound(ts[1..]);
      j := Arr(items);
      assert ts == [OpenArray] + ts[1..];
    case OpenObject =>
      var members := MembersSound(ts[1..], {});
      j := Obj(members);
      assert ts == [OpenObject] + ts[1..];
  }

  lemma {:induction false} ElementsSound(ts: Stream) returns (items: Items)
    requires CheckElements(ts).Success?
    ensures ts == ItemTokens(items) + CheckElements(ts).value && ItemsUnique(items)
    decreases |ts|, 1
  {
    if !More(ts) {
      items := NoItems;
    } else {
      var head := ValueSound(ts);
      var tail := ElementsSound(CheckValue(ts).value);
      items := Item(head, tail);
    }
  }

  lemma MemberStream(key: string, value: Json, others: Members, rest: Stream)
    ensures [Text(key)] + (Tokens(value) + (MemberTokens(others) + rest)) ==
            MemberTokens(Member(key, value, others)) + rest
  {}

  lemma {:induction false} MembersSound(ts: Stream, seen: set<string>) returns (members: Members)
    requires CheckMembers(ts, seen).Success?
    ensures ts == MemberTokens(members) + CheckMembers(ts, seen).value
    ensures MembersUnique(members) && Keys(members) !! seen
    decreases |ts|, 1
  {
    hide CheckValue, Tokens, KeysUnique;
    if !More(ts) {
      members := NoMembers;
    } else {
      var key, after := ts[0].s, CheckValue(ts[1..]).value;
      var value := ValueSound(ts[1..]);
      var others := MembersSound(after, seen + {key});
      members := Member(key, value, others);
      MemberStream(key, value, others, CheckMembers(after, seen + {key}).value);
      assert ts == [Text(key)] + ts[1..];
    }
  }

  /** Every token stream whatever: it is accepted exactly when it is the stream of one JSON tree
      in which no object repeats a key. */
  lemma AcceptedExactlyWhenUnique(ts: Stream)
    ensures CheckDocument(ts).None? <==> exists j :: Tokens(j) == ts && KeysUnique(j)
  {
    if CheckDocument(ts).None? {
      var j := ValueSound(ts);
      assert Tokens(j) + [] == Tokens(j);
    }
    forall j | Tokens(j) == ts && KeysUnique(j) ensures CheckDocument(ts).None? {
      ValueExact(j, []);
      assert Tokens(j) + [] == Tokens(j);
    }
  }

  /** On the stream of a tree the only complaint there can be is a repeated key; and any token
      after an acceptable tree is complained about. */
  lemma ComplaintsOnTrees(j: Json, extra: Stream)
    ensures var c := CheckDocument(Tokens(j) + extra);
            if !KeysUnique(j) then c.Some? && c.value.DuplicateKey?
            else if extra != [] then c == Some(TrailingData)
            else c == None
  {
    ValueExact(j, extra);
  }

  // ---------------------------------------------------------------- prefixes of a stream

  /** A verdict on one piece of a stream holds for every longer stream, unless it was that the input
      had ended. */
  ghost predicate Final(r: Outcome, s: Outcome, more: Stream) {
    if r.Success? then s == Success(r.value + more) else r.error != EndOfInput ==> s == r
  }

  lemma {:induction false} ValueFinal(ts: Stream, more: Stream)
    ensures Final(CheckValue(ts), CheckValue(ts + more), more)
    decreases |ts|, 0
  {
    if ts != [] {
      assert (ts + more)[1..] == ts[1..] + more;
      match ts[0]
      case OpenObject => MembersFinal(ts[1..], {}, more);
      case OpenArray => ElementsFinal(ts[1..], more);
      case _ =>
    }
  }

  lemma {:induction false} MembersFinal(ts: Stream, seen: set<string>, more: Stream)
    ensures Final(CheckMembers(ts, seen), CheckMembers(ts + more, seen), more)
    decreases |ts|, 1
  {
    if ts != [] {
      assert (ts + more)[1..] == ts[1..] + more;
      if More(ts) {
        ValueFinal(ts[1..], more);
        var v := CheckValue(ts[1..]);
        if v.Success? && ts[0].Text? { MembersFinal(v.value, seen + {ts[0].s}, more); }
      }
    }
  }

  lemma {:induction false} ElementsFinal(ts: Stream, more: Stream)
    ensures Final(CheckElements(ts), CheckElements(ts + more), more)
    decreases |ts|, 1
  {
    if ts != [] {
      assert (ts + more)[1..] == ts[1..] + more;
      if More(ts) {
        ValueFinal(ts, more);
        var v := CheckValue(ts);
        if v.Success? { ElementsFinal(v.value, more); }
      }
    }
  }

  lemma {:induction false} ValueCompletes(ts: Stream) returns (more: Stream)
    requires CheckValue(ts) == Failure(EndOfInput)
    ensures CheckValue(ts + more) == Success([])
    decreases |ts|, 0
  {
    if ts == [] {
      more := [Other("null")];
      assert (ts + more)[1..] == [];
    } else {
      if ts[0].OpenObject? {
        more := MembersComplete(ts[1..], {});
      } else {
        more := ElementsComplete(ts[1..]);
      }
      assert (ts + more)[1..] == ts[1..] + more;
    }
  }

  lemma {:induction false} MembersComplete(ts: Stream, seen: set<string>) returns (more: Stream)
    requires CheckMembers(ts, seen) == Failure(EndOfInput)
    ensures CheckMembers(ts + more, seen) == Success([])
    decreases |ts|, 1
  {
    if ts == [] {
      more := [CloseObject];
    } else {
      var v := CheckValue(ts[1..]);
      if v.Success? {
        more := MembersComplete(v.value, seen + {ts[0].s});
      } else {
        var value := ValueCompletes(ts[1..]);
        more := value + [CloseObject];
        ValueFinal(ts[1..] + value, [CloseObject]);
        assert ts[1..] + value + [CloseObject] == ts[1..] + more;
      }
      ValueFinal(ts[1..], more);
      assert (ts + more)[1..] == ts[1..] + more;
    }
  }

  lemma {:induction false} ElementsComplete(ts: Stream) returns (more: Stream)
    requires CheckElements(ts) == Failure(EndOfInput)
    ensures CheckElements(ts + more) == Success([])
    decreases |ts|, 1
  {
    if ts == [] {
      more := [CloseArray];
    } else {
      var v := CheckValue(ts);
      if v.Success? {
        more := ElementsComplete(v.value);
      } else {
        var value := ValueCompletes(ts);
        more := value + [CloseArray];
        ValueFinal(ts + value, [CloseArray]);
        assert ts + value + [CloseArray] == ts + more;
      }
      ValueFinal(ts, more);
      assert (ts + more)[0] == ts[0];
    }
  }

  /** Any stream: the complaint is that the input has ended exactly when something can still follow
      that makes it acceptable; every other complaint stays, whatever follows. */
  lemma EndOfInputExactlyWhenItCanGoOn(ts: Stream)
    ensures CheckDocument(ts) == Some(EndOfInput) <==> exists more :: more != [] && CheckDocument(ts + more).None?
    ensures CheckDocument(ts).Some? && CheckDocument(ts) != Some(EndOfInput) ==>
              forall more :: CheckDocument(ts + more) == CheckDocument(ts)
  {
    if CheckDocument(ts) == Some(EndOfInput) {
      var more := ValueCompletes(ts);
      assert ts + [] == ts;
      assert CheckDocument(ts + more).None?;
    }
    forall more ensures Final(CheckValue(ts), CheckValue(ts + more), more) { ValueFinal(ts, more); }
    forall more: Stream | more != [] && CheckDocument(ts + more).None? ensures CheckDocument(ts) == Some(EndOfInput) {
      assert Final(CheckValue(ts), CheckValue(ts + more), more);
    }
    forall more | CheckDocument(ts).Some? && CheckDocument(ts) != Some(EndOfInput)
      ensures CheckDocument(ts + more) == CheckDocument(ts)
    {
      assert Final(CheckValue(ts), CheckValue(ts + more), more);
    }
  }

  /** The complaint fits the token. */
  predicate Blames(e: Error, t: Token) {
    match e
    case DuplicateKey(key) => t == Text(key)
    case KeyNotString => t.OpenObject? || t.OpenArray? || t.Other?
    case ObjectNotClosed => t == CloseArray
    case ArrayNotClosed => t == CloseObject
    case UnexpectedDelimiter => t == CloseArray || t == CloseObject
    case _ => false
  }

  /** Up to token n the input had only ended too early, and with it comes the complaint. */
  ghost predicate FailsAt(before: Outcome, after: Outcome, r: Outcome, t: Token) {
    r.Failure? && before == Failure(EndOfInput) && after == r && Blames(r.error, t)
  }

  lemma {:induction false} ValueFailsAt(ts: Stream) returns (n: nat)
    requires CheckValue(ts).Failure? && CheckValue(ts).error != EndOfInput
    ensures n < |ts| && FailsAt(CheckValue(ts[..n]), CheckValue(ts[..n + 1]), CheckValue(ts), ts[n])
    decreases |ts|, 0
  {
    n := 0;
    if ts[0].OpenObject? || ts[0].OpenArray? {
      if ts[0].OpenObject? {
        n := MembersFailAt(ts[1..], {});
      } else {
        n := ElementsFailAt(ts[1..]);
      }
      n := n + 1;
      assert ts[..n][1..] == ts[1..][..n - 1] && ts[..n + 1][1..] == ts[1..][..n];
    }
  }

  lemma CutAfter(ts: Stream, first: Stream, rest: Stream, n: nat)
    requires ts == first + rest && n < |rest|
    ensures ts[..|first| + n] == first + rest[..n] && ts[..|first| + n + 1] == first + rest[..n + 1]
    ensures ts[|first| + n] == rest[n]
  {}

  lemma CutInside(ts: Stream, first: Stream, rest: Stream, n: nat)
    requires ts != [] && ts[1..] == first + rest && n < |rest|
    ensures var m := 1 + |first|;
            && ts[..m + n][1..] == first + rest[..n] && ts[..m + n + 1][1..] == first + rest[..n + 1]
            && ts[m + n] == rest[n]
  {
    assert ts == [ts[0]] + first + rest;
    CutAfter(ts, [ts[0]] + first, rest, n);
  }

  lemma MembersGoOn(ts: Stream, seen: set<string>)
    requires More(ts) && ts[0].Text? && ts[0].s !in seen
    ensures var v := CheckValue(ts[1..]);
            CheckMembers(ts, seen) == if v.Failure? then v else CheckMembers(v.value, seen + {ts[0].s})
  {}

  lemma {:induction false} MembersFailAt(ts: Stream, seen: set<string>) returns (n: nat)
    requires CheckMembers(ts, seen).Failure? && CheckMembers(ts, seen).error != EndOfInput
    ensures n < |ts|
    ensures FailsAt(CheckMembers(ts[..n], seen), CheckMembers(ts[..n + 1], seen), CheckMembers(ts, seen), ts[n])
    decreases |ts|, 1
  {
    hide CheckMembers, CheckValue, Tokens, FailsAt;
    if !(More(ts) && ts[0].Text? && ts[0].s !in seen) {
      n := 0;
      MembersFailHere(ts, seen);
    } else {
      MembersGoOn(ts, seen);
      var v := CheckValue(ts[1..]);
      if v.Success? {
        var j := ValueSound(ts[1..]);
        n := MembersFailAt(v.value, seen + {ts[0].s});
        ValueExact(j, v.value[..n]);
        ValueExact(j, v.value[..n + 1]);
        CutInside(ts, Tokens(j), v.value, n);
        n := 1 + |Tokens(j)| + n;
      } else {
        n := ValueFailsAt(ts[1..]);
        n := n + 1;
        assert ts[..n][1..] == ts[1..][..n - 1] && ts[..n + 1][1..] == ts[1..][..n];
      }
      MembersGoOn(ts[..n], seen);
      MembersGoOn(ts[..n + 1], seen);
    }
  }

  lemma MembersFailHere(ts: Stream, seen: set<string>)
    requires CheckMembers(ts, seen).Failure? && CheckMembers(ts, seen).error != EndOfInput
    requires !(More(ts) && ts[0].Text? && ts[0].s !in seen)
    ensures ts != [] && FailsAt(CheckMembers(ts[..0], seen), CheckMembers(ts[..1], seen), CheckMembers(ts, seen), ts[0])
  {}

  lemma {:induction false} ElementsFailAt(ts: Stream) returns (n: nat)
    requires CheckElements(ts).Failure? && CheckElements(ts).error != EndOfInput
    ensures n < |ts| && FailsAt(CheckElements(ts[..n]), CheckElements(ts[..n + 1]), CheckElements(ts), ts[n])
    decreases |ts|, 1
  {
    n := 0;
    if More(ts) {
      var v := CheckValue(ts);
      if v.Success? {
        var j := ValueSound(ts);
        n := ElementsFailAt(v.value);
        ValueExact(j, v.value[..n]);
        ValueExact(j, v.value[..n + 1]);
        CutAfter(ts, Tokens(j), v.value, n);
        ValueTokens(j);
        n := |Tokens(j)| + n;
      } else {
        n := ValueFailsAt(ts);
      }
    }
  }

  /** Any other complaint is about one token: what comes before it can still be made acceptable, or
      is acceptable where the complaint is trailing data; with the token the complaint is there; and
      the complaint fits it: a repeated key is the key at that token. */
  lemma TheFirstBadTokenIsBlamed(ts: Stream) returns (n: nat)
    requires CheckDocument(ts).Some? && CheckDocument(ts) != Some(EndOfInput)
    ensures n < |ts| && CheckDocument(ts[..n + 1]) == CheckDocument(ts)
    ensures if CheckDocument(ts) == Some(TrailingData) then CheckDocument(ts[..n]).None?
            else CheckDocument(ts[..n]) == Some(EndOfInput) && Blames(CheckDocument(ts).value, ts[n])
  {
    var v := CheckValue(ts);
    if v.Failure? {
      n := ValueFailsAt(ts);
    } else {
      var j := ValueSound(ts);
      n := |Tokens(j)|;
      ValueExact(j, []);
      ValueExact(j, v.value[..1]);
      assert ts[..n] == Tokens(j) + [] && ts[..n + 1] == Tokens(j) + v.value[..1];
    }
  }
}
