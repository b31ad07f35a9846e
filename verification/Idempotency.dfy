/** The idempotency store: two critical sections around the work that produces a response. */
module Idempotency {
  import opened Common

  datatype Response = Response(status: int, headers: map<string, string>, body: string)

  datatype Entry = Entry(requestHash: string, expiresAt: Time, response: Response)

  type Entries = map<string, Entry>

  const REPLAYED := "X-HomeSignal-Idempotency-Replayed"

  function Replayed(r: Response): Response {
    r.(headers := r.headers[REPLAYED := "true"])
  }

  function CacheKey(scope: string, key: string): string {
    scope + "|" + key
  }

  datatype Answer = Conflict | Replay(response: Response) | Miss

  /** The first critical section. */
  function Lookup(entries: Entries, now: Time, key: string, hash: string): (Entries, Answer) {
    if key !in entries then (entries, Miss)
    else if now > entries[key].expiresAt then (entries - {key}, Miss)
    else if entries[key].requestHash != hash then (entries, Conflict)
    else (entries, Replay(Replayed(entries[key].response)))
  }

  /** The second critical section; `now` was read before the first one. */
  function Remember(entries: Entries, now: Time, ttl: int, key: string, hash: string, r: Response): Entries {
    entries[key := Entry(hash, now + ttl, r)]
  }

  class IdempotencyStore {
    const ttl: int
    var entries: Entries

    constructor (ttl: int)
      ensures this.ttl == ttl && entries == map[]
    {
      this.ttl, entries := ttl, map[];
    }

    method FirstSection(now: Time, key: string, hash: string) returns (answer: Answer)
      modifies this
      ensures (entries, answer) == Lookup(old(entries), now, key, hash)
    {
      answer := Miss;
      if key in entries {
        var existing := entries[key];
        if now > existing.expiresAt {
          entries := entries - {key};
        } else if existing.requestHash != hash {
          answer := Conflict;
        } else {
          var response := existing.response;
          response := response.(headers := response.headers[REPLAYED := "true"]);
          answer := Replay(response);
        }
      }
    }

    method SecondSection(now: Time, key: string, hash: string, r: Response)
      modifies this
      ensures entries == Remember(old(entries), now, ttl, key, hash, r)
    {
      entries := entries[key := Entry(hash, now + ttl, r)];
    }

    /** `produced` is what the work returns if it runs; `conflict` is the error response. */
    method GetOrStore(scope: string, key: string, hash: string, now: Time, produced: Response, conflict: Response)
      returns (response: Response)
      modifies this
      ensures var call := Keyed(ScopedCall(scope, key, hash, now, produced));
              && entries == Serve(old(entries), ttl, call).0
              && response == match Serve(old(entries), ttl, call).1
                             case Conflict => conflict
                             case Replay(r) => r
                             case Miss => produced
    {
      var cacheKey := CacheKey(scope, key);
      var answer := FirstSection(now, cacheKey, hash);
      match answer
      case Conflict => response := conflict;
      case Replay(r) => response := r;
      case Miss =>
        response := produced;
        SecondSection(now, cacheKey, hash, response);
    }
  }

  /** The answer is the response with the one header set that says so. */
  ghost predicate IsReplayOf(answer: Answer, r: Response) {
    && answer.Replay? && answer.response.status == r.status && answer.response.body == r.body
    && var h := answer.response.headers;
       && "X-HomeSignal-Idempotency-Replayed" in h && h["X-HomeSignal-Idempotency-Replayed"] == "true"
       && forall name :: name != "X-HomeSignal-Idempotency-Replayed" ==>
            (name in h <==> name in r.headers) && (name in h ==> h[name] == r.headers[name])
  }

  // ---------------------------------------------------------------- calls that do not overlap

  datatype Call = Call(key: string, hash: string, now: Time, produced: Response)

  function Serve(entries: Entries, ttl: int, c: Call): (Entries, Answer) {
    var (kept, answer) := Lookup(entries, c.now, c.key, c.hash);
    (if answer.Miss? then Remember(kept, c.now, ttl, c.key, c.hash, c.produced) else kept, answer)
  }

  function ServeAll(ttl: int, calls: seq<Call>): Entries {
    if calls == [] then map[]
    else Serve(ServeAll(ttl, calls[..|calls| - 1]), ttl, calls[|calls| - 1]).0
  }

  function AnswerTo(ttl: int, calls: seq<Call>, i: nat): Answer
    requires i < |calls|
  {
    Serve(ServeAll(ttl, calls[..i]), ttl, calls[i]).1
  }

  /** Call i runs the work for its key. */
  predicate Produces(ttl: int, calls: seq<Call>, i: nat) {
    i < |calls| && AnswerTo(ttl, calls, i).Miss?
  }

  predicate ClockForward(calls: seq<Call>) {
    forall i, j :: 0 <= i < j < |calls| ==> calls[i].now <= calls[j].now
  }

  /** The last call before n that ran the work for a key. */
  ghost predicate LastProducer(ttl: int, calls: seq<Call>, n: nat, key: string, i: nat) {
    && i < n <= |calls| && Produces(ttl, calls, i) && calls[i].key == key
    && forall j :: i < j < n && calls[j].key == key ==> !Produces(ttl, calls, j)
  }

  lemma ServeMeans(entries: Entries, ttl: int, c: Call)
    ensures var (after, answer) := Serve(entries, ttl, c);
            && (answer.Miss? ==> c.key in after && after[c.key] == Entry(c.hash, c.now + ttl, c.produced))
            && (!answer.Miss? ==> c.key in entries && after == entries)
            && (forall k :: k != c.key ==> (k in after <==> k in entries) && (k in after ==> after[k] == entries[k]))
  {}

  lemma ServeOneMore(ttl: int, calls: seq<Call>, n: nat)
    requires 0 < n <= |calls|
    ensures ServeAll(ttl, calls[..n]) == Serve(ServeAll(ttl, calls[..n - 1]), ttl, calls[n - 1]).0
  {
    assert calls[..n][..n - 1] == calls[..n - 1];
  }

  lemma NothingServed(ttl: int, calls: seq<Call>)
    ensures ServeAll(ttl, calls[..0]) == map[]
  {}

  lemma {:induction false} EntriesAreLastProductions(ttl: int, calls: seq<Call>, n: nat, key: string)
    requires n <= |calls|
    ensures var entries := ServeAll(ttl, calls[..n]);
            if key in entries then
              exists i :: 0 <= i < n && LastProducer(ttl, calls, n, key, i)
                          && entries[key] == Entry(calls[i].hash, calls[i].now + ttl, calls[i].produced)
            else forall i :: 0 <= i < n && calls[i].key == key ==> !Produces(ttl, calls, i)
  {
    hide Serve, ServeAll, Lookup;
    if n > 0 {
      EntriesAreLastProductions(ttl, calls, n - 1, key);
      ServeOneMore(ttl, calls, n);
      var before, c := ServeAll(ttl, calls[..n - 1]), calls[n - 1];
      ServeMeans(before, ttl, c);
      if c.key == key && Produces(ttl, calls, n - 1) {
        assert LastProducer(ttl, calls, n, key, n - 1);
      } else if key in before {
        var i :| 0 <= i < n - 1 && LastProducer(ttl, calls, n - 1, key, i)
                 && before[key] == Entry(calls[i].hash, calls[i].now + ttl, calls[i].produced);
        hide Produces;
        assert LastProducer(ttl, calls, n, key, i);
      }
    } else {
      NothingServed(ttl, calls);
    }
  }

  lemma ProducesMeans(ttl: int, calls: seq<Call>, n: nat)
    requires n < |calls|
    ensures var entries, c := ServeAll(ttl, calls[..n]), calls[n];
            Produces(ttl, calls, n) <==> c.key !in entries || c.now > entries[c.key].expiresAt
  {
    hide ServeAll;
  }

  /** A call runs the work exactly when every earlier run for its key started more than ttl ago. */
  lemma ProducesExactlyWhenStale(ttl: int, calls: seq<Call>, n: nat)
    requires n < |calls| && ClockForward(calls)
    ensures Produces(ttl, calls, n) <==>
            forall i :: 0 <= i < n && Produces(ttl, calls, i) && calls[i].key == calls[n].key ==>
                calls[n].now > calls[i].now + ttl
  {
    var key := calls[n].key;
    EntriesAreLastProductions(ttl, calls, n, key);
    ProducesMeans(ttl, calls, n);
    hide Produces, ServeAll;
    var entries := ServeAll(ttl, calls[..n]);
    if key in entries {
      var last :| 0 <= last < n && LastProducer(ttl, calls, n, key, last)
                  && entries[key] == Entry(calls[last].hash, calls[last].now + ttl, calls[last].produced);
      forall i | 0 <= i < n && Produces(ttl, calls, i) && calls[i].key == key ensures calls[i].now <= calls[last].now {
        assert i <= last;
      }
    }
  }

  /** Otherwise the last run for the key answers: with its response, marked as replayed, if the
      requests have the same hash, and with a conflict if not. */
  lemma FreshKeysAreAnsweredByTheLastRun(ttl: int, calls: seq<Call>, n: nat, i: nat)
    requires n < |calls| && LastProducer(ttl, calls, n, calls[n].key, i) && calls[n].now <= calls[i].now + ttl
    ensures if calls[n].hash == calls[i].hash then IsReplayOf(AnswerTo(ttl, calls, n), calls[i].produced)
            else AnswerTo(ttl, calls, n) == Conflict
  {
    EntriesAreLastProductions(ttl, calls, n, calls[n].key);
  }

  // ---------------------------------------------------------------- scopes

  /** The call of one subject on one route: the key is the client's, the scope is not. */
  datatype ScopedCall = ScopedCall(scope: string, key: string, hash: string, now: Time, produced: Response)

  function Keyed(c: ScopedCall): Call {
    Call(CacheKey(c.scope, c.key), c.hash, c.now, c.produced)
  }

  function KeyedAll(calls: seq<ScopedCall>): seq<Call> {
    seq(|calls|, i requires 0 <= i < |calls| => Keyed(calls[i]))
  }

  function Scope(pattern: string, subject: string): string {
    pattern + "|" + subject
  }

  /** The second scope is the first one, a bar and `m`; the first key is `m`, a bar and the second. */
  predicate Shifted(scope: string, key: string, longer: string, shorter: string, m: string) {
    longer == scope + "|" + m && key == m + "|" + shorter
  }

  ghost predicate SharesEntry(scope: string, key: string, scope': string, key': string) {
    || (scope == scope' && key == key')
    || (exists m :: Shifted(scope, key, scope', key', m))
    || (exists m :: Shifted(scope', key', scope, key, m))
  }

  lemma ShorterScopeIsShifted(scope: string, key: string, scope': string, key': string)
    requires CacheKey(scope, key) == CacheKey(scope', key') && |scope| < |scope'|
    ensures Shifted(scope, key, scope', key', scope'[|scope| + 1..])
  {
    var c, d := CacheKey(scope, key), CacheKey(scope', key');
    var m := scope'[|scope| + 1..];
    assert scope' == d[..|scope'|] && scope == c[..|scope|] && c[|scope|] == '|';
    assert scope' == scope'[..|scope|] + [scope'[|scope|]] + m;
    assert key == c[|scope| + 1..] && key' == d[|scope'| + 1..] && d[|scope'|] == '|';
    assert c[|scope| + 1..] == c[|scope| + 1..|scope'|] + [c[|scope'|]] + c[|scope'| + 1..];
  }

  lemma ShiftedShares(scope: string, key: string, scope': string, key': string, m: string)
    requires Shifted(scope, key, scope', key', m)
    ensures CacheKey(scope, key) == CacheKey(scope', key')
  {
    assert scope + "|" + (m + "|" + key') == (scope + "|" + m) + "|" + key';
  }

  /** Which calls share an entry: those of one scope and one key, and those where one scope goes on,
      after a bar, with what the other key begins with. */
  lemma SharesEntryExactlyWhen(scope: string, key: string, scope': string, key': string)
    ensures CacheKey(scope, key) == CacheKey(scope', key') <==> SharesEntry(scope, key, scope', key')
  {
    if CacheKey(scope, key) == CacheKey(scope', key') {
      if |scope| < |scope'| {
        ShorterScopeIsShifted(scope, key, scope', key');
      } else if |scope'| < |scope| {
        ShorterScopeIsShifted(scope', key', scope, key);
      } else {
        var c, d := CacheKey(scope, key), CacheKey(scope', key');
        assert scope == c[..|scope|] && scope' == d[..|scope'|];
        assert key == c[|scope| + 1..] && key' == d[|scope'| + 1..];
      }
    } else {
      forall m | Shifted(scope, key, scope', key', m) ensures false { ShiftedShares(scope, key, scope', key', m); }
      forall m | Shifted(scope', key', scope, key, m) ensures false { ShiftedShares(scope', key', scope, key, m); }
    }
  }

  /** A key without a bar is answered apart in every scope, and so is every key in two scopes. */
  lemma ScopesAreApart(scope: string, key: string, scope': string, key': string)
    requires CacheKey(scope, key) == CacheKey(scope', key')
    ensures '|' !in key && '|' !in key' ==> scope == scope' && key == key'
    ensures key == key' ==> scope == scope'
    ensures scope == scope' ==> key == key'
  {
    SharesEntryExactlyWhen(scope, key, scope', key');
    forall m, s: string, k: string, s': string, k': string | Shifted(s, k, s', k', m)
      ensures '|' in k && |k| > |k'| && |s| < |s'|
    {
      assert k[|m|] == '|';
    }
  }

  /** Subjects and routes are apart as well, as no route holds a bar. */
  lemma SubjectsAreApart(pattern: string, subject: string, pattern': string, subject': string)
    requires '|' !in pattern && '|' !in pattern' && Scope(pattern, subject) == Scope(pattern', subject')
    ensures pattern == pattern' && subject == subject'
  {
    var c, d := Scope(pattern, subject), Scope(pattern', subject');
    assert c[|pattern|] == '|' && d[|pattern'|] == '|';
    assert forall i :: 0 <= i < |pattern| ==> c[i] == pattern[i];
    assert forall i :: 0 <= i < |pattern'| ==> d[i] == pattern'[i];
    assert |pattern| == |pattern'|;
    assert pattern == c[..|pattern|] && pattern' == d[..|pattern'|];
    assert subject == c[|pattern| + 1..] && subject' == d[|pattern'| + 1..];
  }

  /** A call runs its work exactly when every earlier call that shares its entry and ran its own
      started more than ttl ago. */
  lemma WorkRunsExactlyWhen(ttl: int, calls: seq<ScopedCall>, n: nat)
    requires n < |calls| && forall i, j :: 0 <= i < j < |calls| ==> calls[i].now <= calls[j].now
    ensures Produces(ttl, KeyedAll(calls), n) <==>
            forall i :: 0 <= i < n && Produces(ttl, KeyedAll(calls), i)
                        && SharesEntry(calls[i].scope, calls[i].key, calls[n].scope, calls[n].key) ==>
                calls[n].now > calls[i].now + ttl
  {
    var all := KeyedAll(calls);
    ProducesExactlyWhenStale(ttl, all, n);
    forall i | 0 <= i < n
      ensures all[i].key == all[n].key <==> SharesEntry(calls[i].scope, calls[i].key, calls[n].scope, calls[n].key)
    {
      SharesEntryExactlyWhen(calls[i].scope, calls[i].key, calls[n].scope, calls[n].key);
    }
    hide Produces, SharesEntry;
  }

  /** In any run a call is answered without running its work only because of an earlier call that
      shares its entry and ran its own, no more than ttl before: with the response of that
      call if the requests have the same hash, and with a conflict if not. For keys without a bar
      that is a call of the same scope with the same key. */
  lemma AnsweredOnlyForTheSameScopeAndKey(ttl: int, calls: seq<ScopedCall>, n: nat)
    requires n < |calls| && !AnswerTo(ttl, KeyedAll(calls), n).Miss?
    ensures exists i :: 0 <= i < n && Produces(ttl, KeyedAll(calls), i)
                        && SharesEntry(calls[i].scope, calls[i].key, calls[n].scope, calls[n].key)
                        && ('|' !in calls[i].key && '|' !in calls[n].key ==>
                              calls[i].scope == calls[n].scope && calls[i].key == calls[n].key)
                        && (calls[i].key == calls[n].key ==> calls[i].scope == calls[n].scope)
                        && calls[n].now <= calls[i].now + ttl
                        && if calls[n].hash == calls[i].hash
                           then IsReplayOf(AnswerTo(ttl, KeyedAll(calls), n), calls[i].produced)
                           else AnswerTo(ttl, KeyedAll(calls), n) == Conflict
  {
    var all := KeyedAll(calls);
    var key := all[n].key;
    EntriesAreLastProductions(ttl, all, n, key);
    var entries := ServeAll(ttl, all[..n]);
    var i :| 0 <= i < n && LastProducer(ttl, all, n, key, i)
             && entries[key] == Entry(all[i].hash, all[i].now + ttl, all[i].produced);
    FreshKeysAreAnsweredByTheLastRun(ttl, all, n, i);
    SharesEntryExactlyWhen(calls[i].scope, calls[i].key, calls[n].scope, calls[n].key);
    ScopesAreApart(calls[i].scope, calls[i].key, calls[n].scope, calls[n].key);
    hide IsReplayOf, SharesEntry, ServeAll;
  }

  // ---------------------------------------------------------------- sections in any order

  /** One critical section of some call. */
  datatype Section = First(now: Time, key: string, hash: string) | Second(now: Time, key: string, hash: string,
      response: Response)

  function After(ttl: int, sections: seq<Section>): Entries {
    if sections == [] then map[] else
    var before, last := After(ttl, sections[..|sections| - 1]), sections[|sections| - 1];
    match last
    case First(now, key, hash) => Lookup(before, now, key, hash).0
    case Second(now, key, hash, response) => Remember(before, now, ttl, key, hash, response)
  }

  /** Section j is the last one before n that stored a response for a key. */
  ghost predicate LastStored(sections: seq<Section>, n: nat, key: string, j: nat) {
    && j < n <= |sections| && sections[j].Second? && sections[j].key == key
    && forall k :: j < k < n ==> !(sections[k].Second? && sections[k].key == key)
  }

  /** Between j and n some lookup of the same key found the response stored at j too old. */
  ghost predicate Dropped(ttl: int, sections: seq<Section>, j: nat, n: nat) {
    exists m :: j < m < n <= |sections| && DroppedAt(ttl, sections, j, m)
  }

  predicate DroppedAt(ttl: int, sections: seq<Section>, j: nat, m: nat) {
    && j < m < |sections| && sections[m].First? && sections[m].key == sections[j].key
    && sections[m].now > sections[j].now + ttl
  }

  /** An entry is the response stored last for its key, unless that has been dropped since. */
  lemma {:induction false} EntriesWereStored(ttl: int, sections: seq<Section>, n: nat, key: string)
    requires n <= |sections|
    ensures var entries := After(ttl, sections[..n]);
            if key in entries then
              exists j :: 0 <= j < n && LastStored(sections, n, key, j) && !Dropped(ttl, sections, j, n)
                          && entries[key] == Entry(sections[j].hash, sections[j].now + ttl, sections[j].response)
            else forall j :: 0 <= j < n && LastStored(sections, n, key, j) ==> Dropped(ttl, sections, j, n)
  {
    if n > 0 {
      assert sections[..n][..n - 1] == sections[..n - 1];
      EntriesWereStored(ttl, sections, n - 1, key);
      var before, last := After(ttl, sections[..n - 1]), sections[n - 1];
      if last.Second? && last.key == key {
        assert LastStored(sections, n, key, n - 1);
      } else if key in before {
        var j :| 0 <= j < n - 1 && LastStored(sections, n - 1, key, j) && !Dropped(ttl, sections, j, n - 1)
                 && before[key] == Entry(sections[j].hash, sections[j].now + ttl, sections[j].response);
        LastStoredStays(sections, n, key);
        DropsOneMore(ttl, sections, j, n);
      } else {
        LastStoredStays(sections, n, key);
        forall j | 0 <= j < n && LastStored(sections, n, key, j) ensures Dropped(ttl, sections, j, n) {
          DropsOneMore(ttl, sections, j, n);
        }
      }
    }
  }

  lemma LastStoredStays(sections: seq<Section>, n: nat, key: string)
    requires 0 < n <= |sections| && !(sections[n - 1].Second? && sections[n - 1].key == key)
    ensures forall j :: 0 <= j < n ==>
              (LastStored(sections, n, key, j) <==> j < n - 1 && LastStored(sections, n - 1, key, j))
  {}

  lemma DropsOneMore(ttl: int, sections: seq<Section>, j: nat, n: nat)
    requires j < n - 1 < |sections|
    ensures Dropped(ttl, sections, j, n) <==> Dropped(ttl, sections, j, n - 1) || DroppedAt(ttl, sections, j, n - 1)
  {}

  /** Section n looks its key up and finds nothing it can answer with. */
  predicate Misses(ttl: int, sections: seq<Section>, n: nat) {
    && n < |sections| && sections[n].First?
    && Lookup(After(ttl, sections[..n]), sections[n].now, sections[n].key, sections[n].hash).1.Miss?
  }

  /** In any order of the sections of any calls: a lookup misses, so that the work is run, exactly
      when the response stored last for its key, if there is one, is too old for it or was
      dropped by an earlier lookup for which it was too old. */
  lemma LookupMissesExactlyWhen(ttl: int, sections: seq<Section>, n: nat)
    requires n < |sections| && sections[n].First?
    ensures Misses(ttl, sections, n) <==>
            forall j :: 0 <= j < n && LastStored(sections, n, sections[n].key, j) ==>
                sections[n].now > sections[j].now + ttl || Dropped(ttl, sections, j, n)
  {
    EntriesWereStored(ttl, sections, n, sections[n].key);
  }

  /** The work of two calls with one key, started within ttl of each other and with no other
      store of the key between their lookups, is run twice exactly when the second lookup comes
      before the first call has stored its response, or after a lookup with a later clock has
      dropped that response. */
  lemma ProducesTwiceExactlyOnOverlapOrDrop(ttl: int, sections: seq<Section>, first: nat, store: nat, second: nat)
    requires first < second < |sections| && first < store < |sections|
    requires Misses(ttl, sections, first) && sections[second].First? && sections[second].key == sections[first].key
    requires sections[store].Second? && sections[store].key == sections[first].key
    requires sections[store].now == sections[first].now
    requires sections[second].now <= sections[first].now + ttl
    requires forall k :: first < k < second && sections[k].Second? && sections[k].key == sections[first].key ==>
               k == store
    ensures Misses(ttl, sections, second) <==> second < store || Dropped(ttl, sections, store, second)
  {
    LookupMissesExactlyWhen(ttl, sections, first);
    LookupMissesExactlyWhen(ttl, sections, second);
    hide Misses;
    var key := sections[first].key;
    if second < store {
      forall j | 0 <= j < second && LastStored(sections, second, key, j) ensures Dropped(ttl, sections, j, second) {
        assert LastStored(sections, first, key, j);
        if sections[first].now > sections[j].now + ttl {
          assert DroppedAt(ttl, sections, j, first);
        } else {
          var m :| j < m < first && DroppedAt(ttl, sections, j, m);
        }
      }
    } else {
      assert LastStored(sections, second, key, store);
      assert forall j :: 0 <= j < second && LastStored(sections, second, key, j) ==> j == store;
    }
  }

  /** The lookups happen in the order in which their calls read the clock. */
  predicate LookupsForward(sections: seq<Section>) {
    forall i, j :: 0 <= i < j < |sections| && sections[i].First? && sections[j].First? ==>
      sections[i].now <= sections[j].now
  }

  /** If so, the second of these calls runs the work exactly when it overlaps the first. */
  lemma ProducesTwiceExactlyOnOverlap(ttl: int, sections: seq<Section>, first: nat, store: nat, second: nat)
    requires first < second < |sections| && first < store < |sections|
    requires Misses(ttl, sections, first) && sections[second].First? && sections[second].key == sections[first].key
    requires sections[store].Second? && sections[store].key == sections[first].key
    requires sections[store].now == sections[first].now
    requires sections[second].now <= sections[first].now + ttl && LookupsForward(sections)
    requires forall k :: first < k < second && sections[k].Second? && sections[k].key == sections[first].key ==>
               k == store
    ensures Misses(ttl, sections, second) <==> second < store
  {
    ProducesTwiceExactlyOnOverlapOrDrop(ttl, sections, first, store, second);
    forall m | store < m < second ensures !DroppedAt(ttl, sections, store, m) {
      assert sections[m].First? ==> sections[m].now <= sections[second].now;
    }
  }

  /** However the critical sections of any calls interleave: a replayed response is, apart from
      the replay header, the one stored last for the same key, for the same request hash. */
  lemma ReplaysAreFaithful(ttl: int, sections: seq<Section>, n: nat)
    requires n < |sections| && sections[n].First?
    requires Lookup(After(ttl, sections[..n]), sections[n].now, sections[n].key, sections[n].hash).1.Replay?
    ensures var answer := Lookup(After(ttl, sections[..n]), sections[n].now, sections[n].key, sections[n].hash).1;
            exists j :: 0 <= j < n && LastStored(sections, n, sections[n].key, j)
                        && sections[j].hash == sections[n].hash
                        && sections[n].now <= sections[j].now + ttl && IsReplayOf(answer, sections[j].response)
  {
    EntriesWereStored(ttl, sections, n, sections[n].key);
  }
}
