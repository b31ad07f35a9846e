/** What the ingest pipeline promises over every run of requests that do not overlap. */
module IngestRuns {
  import opened Common
  import opened Ingest
  import opened MaterialCollisions
  import MaterialHash

  datatype Call = Call(request: Request, faults: Faults)

  /** The state after a run that starts empty. */
  ghost function Run(p: Setup, calls: seq<Call>): State {
    if calls == [] then EMPTY
    else Step(p, Run(p, calls[..|calls| - 1]), calls[|calls| - 1].request, calls[|calls| - 1].faults).0
  }

  /** The reply to call i. */
  ghost function ReplyTo(p: Setup, calls: seq<Call>, i: nat): Reply
    requires i < |calls|
  {
    Step(p, Run(p, calls[..i]), calls[i].request, calls[i].faults).1
  }

  lemma RunPrefix(p: Setup, calls: seq<Call>, i: nat)
    requires i < |calls|
    ensures Run(p, calls[..i + 1]) == Step(p, Run(p, calls[..i]), calls[i].request, calls[i].faults).0
  {
    assert calls[..i + 1][..i] == calls[..i];
  }

  // ---------------------------------------------------------------- what an answer says

  /** The message was seen before. */
  predicate IsDuplicate(s: State, m: Message) {
    MessageKey(m.deviceID, m.messageID) in s.seen
  }

  /** The stored hash of the message's state can be read and is its own. */
  ghost predicate IsUnchanged(p: Setup, s: State, m: Message, f: Faults) {
    var k := StateKey(m.deviceID, m.schemaType, m.schemaVersion);
    m.telemetry && !f.lastHash && k in s.hashes && s.hashes[k] == p.sha256(MaterialHash.Canonical(m.material))
  }

  /** The message is handed to the writer: it can be looked up, is new and not unchanged, and there
      is a writer. */
  ghost predicate IsHandedOver(p: Setup, s: State, r: Request, f: Faults) {
    r.Valid? && !f.seen && !IsDuplicate(s, r.message) && !IsUnchanged(p, s, r.message, f) && p.writer
  }

  /** The message gets as far as being recorded as seen: it is new and what comes before has worked. */
  ghost predicate IsRecorded(p: Setup, s: State, r: Request, f: Faults) {
    && r.Valid? && !f.seen && !IsDuplicate(s, r.message)
    && (IsHandedOver(p, s, r, f) ==> f.write.Works? && (r.message.telemetry ==> f.recordHash.Works?))
  }

  lemma SameTests(p: Setup, s: State, m: Message, f: Faults)
    ensures HashOf(p, m) == p.sha256(MaterialHash.Canonical(m.material))
    ensures Unchanged(p, s, m, f) <==> IsUnchanged(p, s, m, f)
  {}

  /** In any state and with any faults: a request is accepted exactly when it is valid and the
      message is a duplicate, or everything done for it has worked; the answer says "written" exactly
      when the log of writes has grown by the message, "duplicate" exactly when it was seen before
      and "unchanged" exactly when it is new and its stored hash was read and is equal. A refusal
      names the stage that failed, and is recorded if there is a sink that works. */
  lemma ReplyMeans(p: Setup, s: State, r: Request, f: Faults)
    ensures var (t, reply) := Step(p, s, r, f);
            && (reply.Accepted? <==>
                || (r.Valid? && !f.seen && IsDuplicate(s, r.message))
                || (IsRecorded(p, s, r, f) && f.recordMessage.Works?))
            && (reply.Accepted? ==>
                  && (reply.written <==> t.written == s.written + [r.message])
                  && (!reply.written <==> t.written == s.written)
                  && (reply.written ==> reply.suppression == NotSuppressed)
                  && (reply.suppression == DuplicateMessage <==> IsDuplicate(s, r.message))
                  && (reply.suppression == UnchangedMaterial <==>
                      !IsDuplicate(s, r.message) && IsUnchanged(p, s, r.message, f)))
            && (reply.Refused? ==>
                  reply.stage == if r.Bad? then r.stage
                                 else if IsHandedOver(p, s, r, f) && f.write.Reported() then Persistence else Dedupe)
            && t.failures == s.failures + if reply.Refused? && p.sink && !f.sink then [reply.stage] else []
  {
    if r.Valid? { SameTests(p, s, r.message, f); }
    hide HashOf, Unchanged, IsUnchanged;
  }

  /** And what it leaves behind: the write, the hash, the key, each exactly when it is attempted and
      takes effect. */
  lemma RequestLeaves(p: Setup, s: State, r: Request, f: Faults)
    ensures var t := Step(p, s, r, f).0;
            var handed := IsHandedOver(p, s, r, f);
            && t.written == (if handed && f.write.Applied() then s.written + [r.message] else s.written)
            && t.hashes == (if handed && f.write.Works? && r.message.telemetry && f.recordHash.Applied()
                            then s.hashes[StateKey(r.message.deviceID, r.message.schemaType, r.message.schemaVersion) :=
                                          p.sha256(MaterialHash.Canonical(r.message.material))]
                            else s.hashes)
            && t.seen == if IsRecorded(p, s, r, f) && f.recordMessage.Applied()
                         then s.seen + {MessageKey(r.message.deviceID, r.message.messageID)} else s.seen
  {
    if r.Valid? { SameTests(p, s, r.message, f); }
    hide HashOf, Unchanged, IsUnchanged;
  }

  // ---------------------------------------------------------------- no faults: equal to writing everything

  ghost predicate FaultFree(calls: seq<Call>) {
    forall i :: 0 <= i < |calls| ==> calls[i].faults == NO_FAULTS
  }

  /** The messages that arrive for the first time: what a system without material hashes would write. */
  function FirstSightings(calls: seq<Call>): seq<Message> {
    if calls == [] then [] else
    var before, last := FirstSightings(calls[..|calls| - 1]), calls[|calls| - 1].request;
    if last.Valid? && forall m :: m in before ==> KeyOf(m) != KeyOf(last.message) then before + [last.message]
    else before
  }

  /** The hash of the last telemetry written for a state key. */
  ghost function LastHash(p: Setup, written: seq<Message>, k: StateKey): Option<string> {
    if written == [] then None else
    var last := written[|written| - 1];
    if last.telemetry && StateOf(last) == k then Some(HashOf(p, last)) else LastHash(p, written[..|written| - 1], k)
  }

  /** Leaves out every telemetry message that repeats the hash written last for its state key. */
  ghost function Collapse(p: Setup, written: seq<Message>): seq<Message> {
    if written == [] then [] else
    var before, last := Collapse(p, written[..|written| - 1]), written[|written| - 1];
    if last.telemetry && LastHash(p, before, StateOf(last)) == Some(HashOf(p, last)) then before else before + [last]
  }

  lemma {:induction false} CollapseKeepsLastHash(p: Setup, written: seq<Message>, k: StateKey)
    ensures LastHash(p, Collapse(p, written), k) == LastHash(p, written, k)
  {
    if written != [] {
      var rest, last := written[..|written| - 1], written[|written| - 1];
      CollapseKeepsLastHash(p, rest, k);
      var before := Collapse(p, rest);
      assert (before + [last])[..|before|] == before;
    }
  }

  lemma {:induction false} CollapseKeepsMembers(p: Setup, written: seq<Message>)
    ensures forall m :: m in Collapse(p, written) ==> m in written
    ensures forall m :: m in written && !m.telemetry ==> m in Collapse(p, written)
  {
    if written != [] {
      CollapseKeepsMembers(p, written[..|written| - 1]);
      assert written == written[..|written| - 1] + [written[|written| - 1]];
    }
  }

  ghost predicate Sighted(sightings: seq<Message>, k: MessageKey) {
    exists m :: m in sightings && KeyOf(m) == k
  }

  ghost predicate Agrees(p: Setup, s: State, sightings: seq<Message>) {
    && s.written == Collapse(p, sightings)
    && (forall k :: k in s.seen <==> Sighted(sightings, k))
    && (forall k :: (if k in s.hashes then Some(s.hashes[k]) else None) == LastHash(p, s.written, k))
  }

  lemma {:induction false} FaultFreeRun(p: Setup, calls: seq<Call>)
    requires p.writer && FaultFree(calls)
    ensures Agrees(p, Run(p, calls), FirstSightings(calls))
  {
    if calls != [] {
      var rest, last := calls[..|calls| - 1], calls[|calls| - 1];
      FaultFreeRun(p, rest);
      FaultFreeStep(p, Run(p, rest), FirstSightings(rest), last.request);
    }
  }

  /** A first sighting is recorded; it is written and its hash stored unless it is telemetry
      that repeats the stored hash. */
  lemma FreshStep(p: Setup, s: State, m: Message)
    requires p.writer && KeyOf(m) !in s.seen
    ensures var t := Step(p, s, Valid(m), NO_FAULTS).0;
            && t.seen == s.seen + {KeyOf(m)}
            && if Unchanged(p, s, m, NO_FAULTS) then t.written == s.written && t.hashes == s.hashes
               else t.written == s.written + [m]
                    && t.hashes == if m.telemetry then s.hashes[StateOf(m) := HashOf(p, m)] else s.hashes
  {
    hide HashOf;
  }

  lemma LastHashExtends(p: Setup, written: seq<Message>, m: Message, k: StateKey)
    ensures LastHash(p, written + [m], k) ==
            if m.telemetry && StateOf(m) == k then Some(HashOf(p, m)) else LastHash(p, written, k)
    ensures Collapse(p, written + [m]) ==
            var before := Collapse(p, written);
            if m.telemetry && LastHash(p, before, StateOf(m)) == Some(HashOf(p, m)) then before else before + [m]
  {
    assert (written + [m])[..|written|] == written;
  }

  lemma SightedExtends(sightings: seq<Message>, m: Message, k: MessageKey)
    ensures Sighted(sightings + [m], k) <==> Sighted(sightings, k) || k == KeyOf(m)
  {
    var more := sightings + [m];
    assert m in more && forall x :: x in more <==> x in sightings || x == m;
  }

  lemma FirstSightingAgrees(p: Setup, s: State, sightings: seq<Message>, m: Message)
    requires p.writer && Agrees(p, s, sightings) && !Sighted(sightings, KeyOf(m))
    ensures Agrees(p, Step(p, s, Valid(m), NO_FAULTS).0, sightings + [m])
  {
    hide Step, HashOf, LastHash, Collapse, Sighted;
    var t := Step(p, s, Valid(m), NO_FAULTS).0;
    FreshStep(p, s, m);
    var more := sightings + [m];
    forall k ensures k in t.seen <==> Sighted(more, k) { SightedExtends(sightings, m, k); }
    LastHashExtends(p, sightings, m, StateOf(m));
    assert t.written == Collapse(p, more);
    forall k ensures (if k in t.hashes then Some(t.hashes[k]) else None) == LastHash(p, t.written, k) {
      LastHashExtends(p, s.written, m, k);
    }
  }

  lemma OtherRequestChangesNothing(p: Setup, s: State, r: Request)
    requires r.Valid? ==> KeyOf(r.message) in s.seen
    ensures Step(p, s, r, NO_FAULTS).0.(failures := s.failures) == s
  {
    hide HashOf;
  }

  lemma FaultFreeStep(p: Setup, s: State, sightings: seq<Message>, r: Request)
    requires p.writer && Agrees(p, s, sightings)
    ensures var first := r.Valid? && forall m :: m in sightings ==> KeyOf(m) != KeyOf(r.message);
            Agrees(p, Step(p, s, r, NO_FAULTS).0, if first then sightings + [r.message] else sightings)
  {
    hide Step, HashOf, LastHash, Collapse;
    if r.Valid? && !Sighted(sightings, KeyOf(r.message)) {
      FirstSightingAgrees(p, s, sightings, r.message);
    } else {
      OtherRequestChangesNothing(p, s, r);
    }
  }

  /** With a reliable store and a writer the pipeline writes exactly what writing everything
      writes, less the telemetry that would have repeated the hash before it. The stored hash of
      every state key is the hash of the last telemetry written for it and of the last one
      accepted for the first time. */
  lemma DedupeRefinesWriteEverything(p: Setup, calls: seq<Call>, k: StateKey)
    requires p.writer && FaultFree(calls)
    ensures var s := Run(p, calls);
            && s.written == Collapse(p, FirstSightings(calls))
            && (if k in s.hashes then Some(s.hashes[k]) else None) == LastHash(p, s.written, k)
            && LastHash(p, s.written, k) == LastHash(p, FirstSightings(calls), k)
  {
    FaultFreeRun(p, calls);
    CollapseKeepsLastHash(p, FirstSightings(calls), k);
  }

  ghost predicate DistinctKeys(written: seq<Message>) {
    forall i, j :: 0 <= i < j < |written| ==> KeyOf(written[i]) != KeyOf(written[j])
  }

  lemma {:induction false} SightingsAreDistinct(p: Setup, calls: seq<Call>)
    ensures DistinctKeys(FirstSightings(calls))
  {
    if calls != [] {
      SightingsAreDistinct(p, calls[..|calls| - 1]);
    }
  }

  lemma {:induction false} CollapseKeepsDistinct(p: Setup, written: seq<Message>)
    requires DistinctKeys(written)
    ensures DistinctKeys(Collapse(p, written))
  {
    if written != [] {
      var rest := written[..|written| - 1];
      CollapseKeepsDistinct(p, rest);
      CollapseKeepsMembers(p, rest);
      forall m | m in Collapse(p, rest) ensures KeyOf(m) != KeyOf(written[|written| - 1]) {
        var i :| 0 <= i < |rest| && rest[i] == m;
        assert KeyOf(written[i]) != KeyOf(written[|written| - 1]);
      }
    }
  }

  /** Each device and message id is written at most once. */
  lemma WrittenAtMostOnce(p: Setup, calls: seq<Call>)
    requires p.writer && FaultFree(calls)
    ensures DistinctKeys(Run(p, calls).written)
  {
    FaultFreeRun(p, calls);
    SightingsAreDistinct(p, calls);
    CollapseKeepsDistinct(p, FirstSightings(calls));
  }

  // ---------------------------------------------------------------- arbitrary faults: nothing accepted is lost

  /** A write stands for m: of the same message, or of the same state with the same hash. */
  ghost predicate StandsFor(p: Setup, w: Message, m: Message) {
    || KeyOf(w) == KeyOf(m)
    || (w.telemetry && m.telemetry && StateOf(w) == StateOf(m) && HashOf(p, w) == HashOf(p, m))
  }

  ghost predicate Backed(p: Setup, s: State, m: Message) {
    exists w :: w in s.written && StandsFor(p, w, m)
  }

  /** Call j is the one that made message key k known. */
  ghost predicate Introduces(p: Setup, calls: seq<Call>, j: nat, k: MessageKey) {
    && j < |calls| && calls[j].request.Valid? && KeyOf(calls[j].request.message) == k
    && k !in Run(p, calls[..j]).seen && k in Run(p, calls[..j + 1]).seen
  }

  ghost predicate HashesAreWritten(p: Setup, s: State) {
    forall k :: k in s.hashes ==>
      exists w :: w in s.written && w.telemetry && StateOf(w) == k && HashOf(p, w) == s.hashes[k]
  }

  /** What one request does to the log of writes and to the stored hashes: nothing; one write;
      or one telemetry write whose hash is stored. */
  lemma StepShape(p: Setup, s: State, r: Request, f: Faults)
    ensures var t := Step(p, s, r, f).0;
            || (t.written == s.written && t.hashes == s.hashes)
            || (r.Valid? && t.written == s.written + [r.message] && t.hashes == s.hashes)
            || (r.Valid? && r.message.telemetry && t.written == s.written + [r.message]
                && t.hashes == s.hashes[StateOf(r.message) := HashOf(p, r.message)])
  {
    hide HashOf;
  }

  lemma StepGrows(p: Setup, s: State, r: Request, f: Faults)
    ensures var (t, reply) := Step(p, s, r, f);
            && s.written <= t.written && s.seen <= t.seen
            && (forall k :: k in t.seen && k !in s.seen ==> r.Valid? && k == KeyOf(r.message))
            && (forall w :: w in s.written ==> w in t.written)
            && (reply.Accepted? ==> r.Valid? && KeyOf(r.message) in t.seen)
  {
    hide HashOf;
  }

  lemma StepKeepsHashesWritten(p: Setup, s: State, r: Request, f: Faults)
    requires p.writer && HashesAreWritten(p, s)
    ensures HashesAreWritten(p, Step(p, s, r, f).0)
  {
    hide HashOf, Step;
    StepShape(p, s, r, f);
    var t := Step(p, s, r, f).0;
    forall k | k in t.hashes
      ensures exists w :: w in t.written && w.telemetry && StateOf(w) == k && HashOf(p, w) == t.hashes[k]
    {
      if k in s.hashes && t.hashes[k] == s.hashes[k] {
        var w :| w in s.written && w.telemetry && StateOf(w) == k && HashOf(p, w) == s.hashes[k];
        assert w in t.written;
      } else {
        assert r.message in t.written;
      }
    }
  }

  lemma StepBacks(p: Setup, s: State, r: Request, f: Faults)
    requires p.writer && HashesAreWritten(p, s) && r.Valid?
    requires KeyOf(r.message) !in s.seen && KeyOf(r.message) in Step(p, s, r, f).0.seen
    ensures Backed(p, Step(p, s, r, f).0, r.message)
  {
    hide HashOf;
    var t := Step(p, s, r, f).0;
    if Unchanged(p, s, r.message, f) {
      var w :| w in s.written && w.telemetry && StateOf(w) == StateOf(r.message)
               && HashOf(p, w) == HashOf(p, r.message);
      assert w in t.written && StandsFor(p, w, r.message);
    } else {
      assert t.written == s.written + [r.message];
      assert r.message in t.written && StandsFor(p, r.message, r.message);
    }
  }

  lemma {:induction false} SeenIsBacked(p: Setup, calls: seq<Call>, k: MessageKey)
    requires p.writer
    ensures HashesAreWritten(p, Run(p, calls))
    ensures k in Run(p, calls).seen ==>
              exists j :: 0 <= j < |calls| && Introduces(p, calls, j, k)
                          && Backed(p, Run(p, calls), calls[j].request.message)
  {
    hide Step, HashOf, StandsFor;
    if calls != [] {
      var n := |calls| - 1;
      var rest, last := calls[..n], calls[n];
      SeenIsBacked(p, rest, k);
      StepGrows(p, Run(p, rest), last.request, last.faults);
      StepKeepsHashesWritten(p, Run(p, rest), last.request, last.faults);
      assert calls[..n + 1] == calls;
      hide Run, HashesAreWritten;
      if k in Run(p, rest).seen {
        var j :| 0 <= j < n && Introduces(p, rest, j, k) && Backed(p, Run(p, rest), rest[j].request.message);
        assert rest[..j] == calls[..j] && rest[..j + 1] == calls[..j + 1];
        assert Introduces(p, calls, j, k);
        var w :| w in Run(p, rest).written && StandsFor(p, w, rest[j].request.message);
        assert w in Run(p, calls).written;
      } else if k in Run(p, calls).seen {
        StepBacks(p, Run(p, rest), last.request, last.faults);
        assert Introduces(p, calls, n, k);
      }
    }
  }

  /** Whatever calls fail, before or after taking effect: an accepted reply is backed by a write
      that stands for the very message that made its id known. A later write for the same state
      may have replaced that write since. */
  lemma AcceptedIsBackedByAWrite(p: Setup, calls: seq<Call>, i: nat)
    requires p.writer && i < |calls| && ReplyTo(p, calls, i).Accepted?
    ensures calls[i].request.Valid?
    ensures var k := KeyOf(calls[i].request.message);
            exists j :: 0 <= j <= i && Introduces(p, calls, j, k)
                && Backed(p, Run(p, calls[..i + 1]), calls[j].request.message)
  {
    hide Step, HashOf, StandsFor, Run, Backed;
    var early := calls[..i + 1];
    StepGrows(p, Run(p, calls[..i]), calls[i].request, calls[i].faults);
    var k := KeyOf(calls[i].request.message);
    RunPrefix(p, calls, i);
    SeenIsBacked(p, early, k);
    var j :| 0 <= j <= i && Introduces(p, early, j, k) && Backed(p, Run(p, early), early[j].request.message);
    assert early[..j] == calls[..j] && early[..j + 1] == calls[..j + 1];
  }

  // ---------------------------------------------------------------- arbitrary faults: is the latest state current?

  /** Call i writes telemetry for a state key. */
  ghost predicate WritesState(p: Setup, calls: seq<Call>, i: nat, k: StateKey) {
    && i < |calls| && calls[i].request.Valid? && calls[i].request.message.telemetry
    && StateOf(calls[i].request.message) == k
    && Run(p, calls[..i + 1]).written != Run(p, calls[..i]).written
  }

  /** If it writes, its hash is not recorded. */
  predicate LeavesHashUnrecorded(f: Faults) {
    f.write.FailsAfter? || f.recordHash.FailsBefore?
  }

  /** The last telemetry written for a state key left its hash unrecorded, while a different hash
      was stored. */
  ghost predicate Stale(p: Setup, calls: seq<Call>, k: StateKey) {
    exists j :: 0 <= j < |calls| && StaleSince(p, calls, k, j)
  }

  ghost predicate StaleSince(p: Setup, calls: seq<Call>, k: StateKey, j: nat) {
    && WritesState(p, calls, j, k) && (forall i :: j < i < |calls| ==> !WritesState(p, calls, i, k))
    && LeavesHashUnrecorded(calls[j].faults)
    && k in Run(p, calls[..j]).hashes && Run(p, calls[..j]).hashes[k] != HashOf(p, calls[j].request.message)
  }

  ghost predicate InSync(p: Setup, s: State, k: StateKey) {
    k in s.hashes ==> LastHash(p, s.written, k) == Some(s.hashes[k])
  }

  lemma StepWrites(p: Setup, s: State, r: Request, f: Faults)
    ensures var t := Step(p, s, r, f).0;
            && (t.written != s.written ==> r.Valid? && t.written == s.written + [r.message])
            && t.hashes == if t.written != s.written && r.message.telemetry && !LeavesHashUnrecorded(f)
                           then s.hashes[StateOf(r.message) := HashOf(p, r.message)] else s.hashes
  {
    hide HashOf, Unchanged;
  }

  /** What one call does to the writes and the stored hash of one state key. */
  lemma StepOnKey(p: Setup, s: State, r: Request, f: Faults, k: StateKey)
    ensures var t := Step(p, s, r, f).0;
            var writes := r.Valid? && r.message.telemetry && StateOf(r.message) == k && t.written != s.written;
            && LastHash(p, t.written, k) == (if writes then Some(HashOf(p, r.message)) else LastHash(p, s.written, k))
            && (if k in t.hashes then Some(t.hashes[k]) else None) ==
               (if writes && !LeavesHashUnrecorded(f) then Some(HashOf(p, r.message))
                else if k in s.hashes then Some(s.hashes[k]) else None)
  {
    hide HashOf, LastHash, Step, LeavesHashUnrecorded, Collapse;
    StepWrites(p, s, r, f);
    if r.Valid? {
      LastHashExtends(p, s.written, r.message, k);
    }
  }

  lemma WritesStateBefore(p: Setup, calls: seq<Call>, i: nat, k: StateKey)
    requires i < |calls| - 1
    ensures WritesState(p, calls[..|calls| - 1], i, k) <==> WritesState(p, calls, i, k)
  {
    var rest := calls[..|calls| - 1];
    assert rest[..i] == calls[..i] && rest[..i + 1] == calls[..i + 1];
  }

  lemma StaleBefore(p: Setup, calls: seq<Call>, k: StateKey)
    requires calls != [] && !WritesState(p, calls, |calls| - 1, k)
    ensures Stale(p, calls, k) <==> Stale(p, calls[..|calls| - 1], k)
  {
    hide WritesState, Run, HashOf;
    var n := |calls| - 1;
    var rest := calls[..n];
    forall i | 0 <= i < n ensures WritesState(p, rest, i, k) <==> WritesState(p, calls, i, k) {
      WritesStateBefore(p, calls, i, k);
    }
    forall j | 0 <= j < n ensures StaleSince(p, rest, k, j) <==> StaleSince(p, calls, k, j) {
      assert rest[..j] == calls[..j];
    }
  }

  lemma RunExtends(p: Setup, calls: seq<Call>)
    requires calls != []
    ensures var n := |calls| - 1;
            && Run(p, calls) == Step(p, Run(p, calls[..n]), calls[n].request, calls[n].faults).0
            && calls[..n + 1] == calls
  {
    hide Step;
  }

  lemma WrittenLast(p: Setup, calls: seq<Call>, k: StateKey)
    requires calls != [] && WritesState(p, calls, |calls| - 1, k)
    ensures InSync(p, Run(p, calls), k) <==> !Stale(p, calls, k)
  {
    var n := |calls| - 1;
    var s, last := Run(p, calls[..n]), calls[n];
    RunExtends(p, calls);
    StepOnKey(p, s, last.request, last.faults, k);
    hide Step, HashOf, LastHash, LeavesHashUnrecorded, Run;
    assert Stale(p, calls, k) <==> StaleSince(p, calls, k, n);
  }

  lemma NotWrittenLast(p: Setup, calls: seq<Call>, k: StateKey)
    requires calls != [] && !WritesState(p, calls, |calls| - 1, k)
    ensures InSync(p, Run(p, calls), k) <==> InSync(p, Run(p, calls[..|calls| - 1]), k)
  {
    var n := |calls| - 1;
    RunExtends(p, calls);
    StepOnKey(p, Run(p, calls[..n]), calls[n].request, calls[n].faults, k);
    hide Step, HashOf, LastHash, LeavesHashUnrecorded, Run;
  }

  lemma {:induction false} InSyncUnlessStale(p: Setup, calls: seq<Call>, k: StateKey)
    ensures InSync(p, Run(p, calls), k) <==> !Stale(p, calls, k)
  {
    if calls == [] {
      assert Run(p, calls) == EMPTY;
    } else {
      hide WritesState, InSync, Run, Stale;
      if WritesState(p, calls, |calls| - 1, k) {
        WrittenLast(p, calls, k);
      } else {
        InSyncUnlessStale(p, calls[..|calls| - 1], k);
        NotWrittenLast(p, calls, k);
        StaleBefore(p, calls, k);
      }
    }
  }

  lemma {:induction false} LongerThanAll(keys: set<MessageKey>) returns (n: nat)
    ensures forall x :: x in keys ==> |x.messageID| < n
  {
    n := 0;
    if keys != {} {
      var x :| x in keys;
      var m := LongerThanAll(keys - {x});
      n := m + |x.messageID| + 1;
    }
  }

  /** A message with a new id that repeats the hash stored for its state key. */
  lemma RepeatsStoredHash(p: Setup, s: State, k: StateKey) returns (m: Message)
    requires HashesAreWritten(p, s) && k in s.hashes
    ensures m.telemetry && StateOf(m) == k && HashOf(p, m) == s.hashes[k] && KeyOf(m) !in s.seen
  {
    var w :| w in s.written && w.telemetry && StateOf(w) == k && HashOf(p, w) == s.hashes[k];
    var n := LongerThanAll(s.seen);
    m := w.(messageID := seq(n, _ => 'm'));
    assert |KeyOf(m).messageID| == n;
  }

  /** The next message is accepted, not as a duplicate, and the last telemetry written for its
      state key does not carry its hash. */
  ghost predicate AcceptedInVain(p: Setup, s: State, m: Message, f: Faults) {
    var (t, reply) := Step(p, s, Valid(m), f);
    && reply.Accepted? && reply.suppression != DuplicateMessage
    && LastHash(p, t.written, StateOf(m)) != Some(HashOf(p, m))
  }

  /** Whatever calls failed before: the hash of the next telemetry that is accepted for a state
      key, and is not a duplicate, is the hash of the last telemetry written for the key, unless
      and only unless that one left its hash unrecorded beside a different one. */
  lemma LatestStateIsCurrentUnlessStale(p: Setup, calls: seq<Call>, k: StateKey)
    requires p.writer
    ensures (forall m: Message, f: Faults :: m.telemetry && StateOf(m) == k ==>
               !AcceptedInVain(p, Run(p, calls), m, f)) <==> !Stale(p, calls, k)
  {
    InSyncUnlessStale(p, calls, k);
    var s := Run(p, calls);
    if Stale(p, calls, k) {
      SeenIsBacked(p, calls, MessageKey("", ""));
      var m := RepeatsStoredHash(p, s, k);
      hide Run, HashOf, Stale, LastHash;
      assert AcceptedInVain(p, s, m, NO_FAULTS);
    } else {
      forall m: Message, f: Faults | m.telemetry && StateOf(m) == k ensures !AcceptedInVain(p, s, m, f) {
        AcceptedIsCurrent(p, s, m, f);
      }
    }
  }

  lemma AcceptedIsCurrent(p: Setup, s: State, m: Message, f: Faults)
    requires p.writer && m.telemetry && InSync(p, s, StateOf(m))
    ensures !AcceptedInVain(p, s, m, f)
  {
    hide HashOf, LastHash;
    LastHashExtends(p, s.written, m, StateOf(m));
  }

  // ---------------------------------------------------------------- from hashes to materials

  /** The last telemetry written for a state key. */
  function LastWritten(written: seq<Message>, k: StateKey): Option<Message> {
    if written == [] then None else
    var last := written[|written| - 1];
    if last.telemetry && StateOf(last) == k then Some(last) else LastWritten(written[..|written| - 1], k)
  }

  lemma {:induction false} LastWrittenMeans(p: Setup, written: seq<Message>, k: StateKey)
    ensures var w := LastWritten(written, k);
            && LastHash(p, written, k) == (if w.Some? then Some(HashOf(p, w.value)) else None)
            && (w.Some? ==> w.value in written && w.value.telemetry && StateOf(w.value) == k)
  {
    hide HashOf;
    if written != [] {
      LastWrittenMeans(p, written[..|written| - 1], k);
      assert written == written[..|written| - 1] + [written[|written| - 1]];
    }
  }

  /** The next message is accepted, not as a duplicate, and the last telemetry written for its
      state key has another material. */
  ghost predicate AcceptedOverOther(p: Setup, s: State, m: Message, f: Faults) {
    var (t, reply) := Step(p, s, Valid(m), f);
    var w := LastWritten(t.written, StateOf(m));
    && reply.Accepted? && reply.suppression != DuplicateMessage
    && (w.None? || w.value.material != m.material)
  }

  /** As the schema wants it: the materials for one state key have the same keys; with `strict`,
      no blank values. */
  ghost predicate Conforms(m: Message, k: StateKey, keys: set<string>, strict: bool) {
    m.telemetry && StateOf(m) == k ==> m.material.Keys == keys && (strict ==> AllNonBlank(m.material))
  }

  ghost predicate AllConform(calls: seq<Call>, k: StateKey, keys: set<string>, strict: bool) {
    forall i :: 0 <= i < |calls| && calls[i].request.Valid? ==> Conforms(calls[i].request.message, k, keys, strict)
  }

  lemma {:induction false} WrittenConforms(p: Setup, calls: seq<Call>, k: StateKey, keys: set<string>, strict: bool)
    requires AllConform(calls, k, keys, strict)
    ensures forall w :: w in Run(p, calls).written ==> Conforms(w, k, keys, strict)
  {
    if calls != [] {
      var n := |calls| - 1;
      var rest := calls[..n];
      assert AllConform(rest, k, keys, strict);
      WrittenConforms(p, rest, k, keys, strict);
      StepWrites(p, Run(p, rest), calls[n].request, calls[n].faults);
      hide Step, HashOf, Conforms, LeavesHashUnrecorded;
    }
  }

  ghost predicate Injective(f: string -> string) {
    forall x, y :: f(x) == f(y) ==> x == y
  }

  lemma SameHashIsTwin(p: Setup, m: Message, w: Message, strict: bool)
    requires Injective(p.sha256) && HashOf(p, m) == HashOf(p, w)
    requires w.material.Keys == m.material.Keys && (strict ==> AllNonBlank(w.material))
    requires !SharesText(m.material, strict)
    ensures w.material == m.material
  {
    hide AllNonBlank, MaterialHash.Canonical;
    assert MaterialHash.Canonical(m.material) == MaterialHash.Canonical(w.material);
    assert w.material != m.material ==> IsTwin(m.material, w.material, strict);
  }

  lemma CurrentMaterial(p: Setup, calls: seq<Call>, m: Message, f: Faults, strict: bool)
    requires p.writer && Injective(p.sha256) && m.telemetry && !SharesText(m.material, strict)
    requires Conforms(m, StateOf(m), m.material.Keys, strict)
    requires AllConform(calls, StateOf(m), m.material.Keys, strict) && !Stale(p, calls, StateOf(m))
    ensures !AcceptedOverOther(p, Run(p, calls), m, f)
  {
    var s, k := Run(p, calls), StateOf(m);
    InSyncUnlessStale(p, calls, k);
    AcceptedIsCurrent(p, s, m, f);
    WrittenConforms(p, calls, k, m.material.Keys, strict);
    StepWrites(p, s, Valid(m), f);
    var t := Step(p, s, Valid(m), f).0;
    LastWrittenMeans(p, t.written, k);
    hide Step, HashOf, Run, Stale, LastHash, LastWritten, SharesText;
    var w := LastWritten(t.written, k);
    if w.Some? && HashOf(p, w.value) == HashOf(p, m) {
      assert Conforms(w.value, k, m.material.Keys, strict);
      SameHashIsTwin(p, m, w.value, strict);
    }
  }

  lemma OneCall(p: Setup, call: Call)
    ensures Run(p, [call]) == Step(p, EMPTY, call.request, call.faults).0
    ensures Run(p, [call][..0]) == EMPTY
  {
    hide Step;
    assert [call][..0] == [];
  }

  lemma OneCallIsCurrent(p: Setup, other: Message, k: StateKey)
    requires p.writer && other.telemetry && StateOf(other) == k
    ensures var s := Run(p, [Call(Valid(other), NO_FAULTS)]);
            s.seen == {KeyOf(other)} && s.hashes == map[k := HashOf(p, other)] && s.written == [other]
    ensures !Stale(p, [Call(Valid(other), NO_FAULTS)], k)
  {
    hide HashOf, Step;
    OneCall(p, Call(Valid(other), NO_FAULTS));
    FreshStep(p, EMPTY, other);
  }

  lemma TwinIsAcceptedOver(p: Setup, m: Message, other: Message, strict: bool)
    requires p.writer && m.telemetry && other == m.(material := other.material, messageID := other.messageID)
    requires other.messageID != m.messageID && IsTwin(m.material, other.material, strict)
    ensures var calls := [Call(Valid(other), NO_FAULTS)];
            && AllConform(calls, StateOf(m), m.material.Keys, strict) && !Stale(p, calls, StateOf(m))
            && AcceptedOverOther(p, Run(p, calls), m, NO_FAULTS)
  {
    var k, n := StateOf(m), other.material;
    OneCallIsCurrent(p, other, k);
    MaterialHash.CanonicalTextIsUnique(n, MaterialHash.Canonical(n), MaterialHash.Canonical(m.material));
    assert HashOf(p, other) == HashOf(p, m);
    hide HashOf, AllNonBlank, Stale, Run;
    UnchangedStep(p, Run(p, [Call(Valid(other), NO_FAULTS)]), m);
  }

  lemma UnchangedStep(p: Setup, s: State, m: Message)
    requires m.telemetry && KeyOf(m) !in s.seen && StateOf(m) in s.hashes && s.hashes[StateOf(m)] == HashOf(p, m)
    ensures var (t, reply) := Step(p, s, Valid(m), NO_FAULTS);
            reply == Accepted(false, UnchangedMaterial) && t.written == s.written
  {
    hide HashOf;
  }

  /** With a hash that never collides: however calls failed before, if no unrecorded hash is in the
      way and the messages keep to the schema, telemetry accepted with this material finds it in
      the latest state, exactly when no other material of the schema shares its text. */
  lemma LatestMaterialIsCurrentExactlyWhen(p: Setup, m: Message, strict: bool)
    requires p.writer && Injective(p.sha256) && m.telemetry && Conforms(m, StateOf(m), m.material.Keys, strict)
    ensures (forall calls: seq<Call>, f: Faults ::
               AllConform(calls, StateOf(m), m.material.Keys, strict) && !Stale(p, calls, StateOf(m)) ==>
                 !AcceptedOverOther(p, Run(p, calls), m, f)) <==>
            !SharesText(m.material, strict)
  {
    hide Run, Step, HashOf, Stale, AllNonBlank, AcceptedOverOther, AllConform;
    if SharesText(m.material, strict) {
      var n :| IsTwin(m.material, n, strict);
      var other := m.(material := n, messageID := m.messageID + "'");
      assert |other.messageID| != |m.messageID|;
      TwinIsAcceptedOver(p, m, other, strict);
      assert AcceptedOverOther(p, Run(p, [Call(Valid(other), NO_FAULTS)]), m, NO_FAULTS);
    } else {
      forall calls: seq<Call>, f: Faults
        | AllConform(calls, StateOf(m), m.material.Keys, strict) && !Stale(p, calls, StateOf(m))
        ensures !AcceptedOverOther(p, Run(p, calls), m, f)
      {
        CurrentMaterial(p, calls, m, f, strict);
      }
    }
  }

  /** The input behind it, whatever the hash: a health snapshot that differs from the one just
      accepted is answered as unchanged, and never written. */
  lemma ChangedSnapshotIsSuppressed(p: Setup, s: State, first: Message, second: Message, agent: string, x: string,
                                    backup: string, core: string)
    requires p.writer && first.telemetry && second.telemetry && StateOf(first) == StateOf(second)
    requires KeyOf(first) !in s.seen && KeyOf(second) !in s.seen && KeyOf(first) != KeyOf(second)
    requires first.material == Snapshot(agent, x + Sep(BACKUP_STATUS) + backup, core)
    requires second.material == Snapshot(agent + Sep(BACKUP_STATUS) + x, backup, core)
    ensures second.material != first.material
    ensures var t := Step(p, s, Valid(first), NO_FAULTS).0;
            var (u, reply) := Step(p, t, Valid(second), NO_FAULTS);
            reply == Accepted(false, UnchangedMaterial) && u.written == t.written
  {
    SnapshotsShareText(agent, x, backup, core);
    assert HashOf(p, first) == HashOf(p, second);
    hide HashOf, Snapshot, Sep;
    FreshStep(p, s, first);
  }

  /** Without a writer nothing is ever written, and a first message is accepted all the same. */
  lemma {:induction false} NoWriterLosesEverything(p: Setup, calls: seq<Call>, m: Message)
    requires !p.writer
    ensures Run(p, calls).written == []
    ensures Step(p, Run(p, calls), Valid(m), NO_FAULTS).1.Accepted?
  {
    if calls != [] {
      NoWriterLosesEverything(p, calls[..|calls| - 1], m);
    }
  }

  // ---------------------------------------------------------------- every request is accounted for

  ghost function AcceptedCount(p: Setup, calls: seq<Call>): nat {
    if calls == [] then 0 else
    AcceptedCount(p, calls[..|calls| - 1]) + (if ReplyTo(p, calls, |calls| - 1).Accepted? then 1 else 0)
  }

  lemma EachRequestIsAccountedFor(p: Setup, s: State, r: Request, f: Faults)
    requires p.sink && !f.sink
    ensures var (t, reply) := Step(p, s, r, f); |t.failures| == |s.failures| + if reply.Accepted? then 0 else 1
  {
    hide HashOf, Unchanged;
  }

  /** With a working sink every request is either accepted or recorded as one failure. */
  lemma {:induction false} EveryRequestIsAccountedFor(p: Setup, calls: seq<Call>)
    requires p.sink && forall i :: 0 <= i < |calls| ==> !calls[i].faults.sink
    ensures AcceptedCount(p, calls) + |Run(p, calls).failures| == |calls|
  {
    if calls != [] {
      var rest, last := calls[..|calls| - 1], calls[|calls| - 1];
      EveryRequestIsAccountedFor(p, rest);
      EachRequestIsAccountedFor(p, Run(p, rest), last.request, last.faults);
      hide Step;
    }
  }
}
