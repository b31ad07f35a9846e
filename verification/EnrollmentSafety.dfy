/**
 What every run of the agent keeps, with crashes between any two effects, failing file
 operations, files deleted by others, and arbitrary answers.
 */
module EnrollmentSafety {
  import opened Common
  import opened Enrollment

  // ---------------------------------------------------------------- properties of a log

  ghost predicate Clean(log: seq<Effect>) {
    forall s :: Fail(s) !in log
  }

  ghost predicate ClockForward(log: seq<Effect>) {
    forall i, j :: 0 <= i < j < |log| && log[i].Woke? && log[j].Woke? ==> log[i].at <= log[j].at
  }

  /** Somebody else deleted the device key or certificate. */
  predicate Tampered(log: seq<Effect>) {
    Vanish(DeviceKey) in log || Vanish(DeviceCert) in log
  }

  /** A provisioning has been persisted and no confirmed claim has followed. */
  predicate Bound(log: seq<Effect>) {
    if log == [] then false else
    var rest, last := log[..|log| - 1], log[|log| - 1];
    match last
    case Save(r) => r.pendingCertificateID != "" || Bound(rest)
    case AskFinalize(_, _, _, _, _, _, Confirmed, _) => false
    case _ => Bound(rest)
  }

  predicate AsksForNewCredential(e: Effect) {
    e.AskCreate? || e.AskPoll? || e.AskProvision?
  }

  predicate HasCredential(files: map<File, string>) {
    DeviceKey in files && DeviceCert in files
  }

  predicate NothingPending(r: Record) {
    && r.pairingSessionID == "" && r.pairingCodeExpiry.None? && r.pollTokenExpiry.None? && r.pollIntervalSeconds == 0
    && r.pendingDeviceID == "" && r.pendingIoTThingName == ""
    && r.pendingCertificateID == "" && r.pendingCertificateARN == ""
  }

  predicate RecordOK(r: Record, files: map<File, string>, tampered: bool) {
    && r.schemaVersion == SCHEMA_VERSION
    && r.installationID != ""
    && !r.claimState.Unrecognized?
    && (r.pendingCertificateID != "" ==>
          r.claimState == PairingPending && r.pendingDeviceID != "" && (tampered || HasCredential(files)))
    && (r.claimState == Claimed ==>
          r.deviceID != "" && r.claimedAt.Some? && NothingPending(r) && (tampered || HasCredential(files)))
    && (r.claimState == Revoked ==> r.revokedAt.Some? && r.pendingCertificateID == "")
  }

  /** The claim-state graph between two consecutive saved records. */
  predicate Edge(before: Disk, r: Record) {
    if before.saved.None? then r.claimState == Unclaimed else
    match before.saved.value.claimState
    case Unclaimed => r.claimState == Unclaimed || r.claimState == PairingPending
    case PairingPending => !r.claimState.Unrecognized?
    case Claimed =>
      || r.claimState == Claimed
      || r.claimState == Revoked
      || (r.claimState == Unclaimed && !HasCredential(before.files))
    case Revoked => r.claimState == Revoked
    case Unrecognized(_) => false
  }

  /** A session that is still being polled. */
  predicate IsOpenSession(r: Record) {
    r.claimState == PairingPending && r.pendingCertificateID == ""
  }

  predicate SavedAs(d: Disk, s: ClaimState) {
    d.saved.Some? && d.saved.value.claimState == s
  }

  predicate EndsWithConfirmedClaim(log: seq<Effect>) {
    && |log| >= 2
    && log[|log| - 1] == Remove(PollToken)
    && log[|log| - 2].AskFinalize?
    && log[|log| - 2].verdict == Confirmed
  }

  /** What may still happen once REVOKED is saved: the removals that end the pass at hand, and
      nothing that the agent does of its own later. */
  predicate FollowsRevocation(e: Effect) {
    e.Woke? || e.Vanish? || e.Fail? || e == Remove(ClaimCert) || e == Remove(ClaimKey)
  }

  /** The rule that each effect obeys, given the log before it. */
  ghost predicate Rule(before: seq<Effect>, e: Effect) {
    var d := DiskOf(before);
    && (SavedAs(d, Revoked) ==> FollowsRevocation(e))
    && match e
    case Save(r) =>
      && RecordOK(r, d.files, Tampered(before))
      && (Bound(before) ==> r.pendingCertificateID != "" || r.claimState == Revoked)
      && (r.claimState == Claimed ==> EndsWithConfirmedClaim(before))
      && (Clean(before) && IsOpenSession(r) ==> PollToken in d.files)
      && (r.pendingCertificateID != "" ==> PollToken in d.files)
      && (Clean(before) ==> Edge(d, r) || BackwardRevocation(before, r))
    case AskCreate(_, _) => !Bound(before)
    case AskPoll(_, _, _) => !Bound(before)
    case AskProvision(_, _, deviceID, _, _, _) => !Bound(before) && deviceID != ""
    case AskFinalize(_, _, deviceID, _, certificateID, _, _, _) =>
      && certificateID != "" && deviceID != ""
      && (Clean(before) ==> d.saved.Some? && d.saved.value.pendingCertificateID == certificateID)
    case Write(f, _) =>
      f == PollToken && Clean(before) ==>
        d.saved.Some? ==> SavedAs(d, Unclaimed) && d.saved.value.pendingCertificateID == ""
    case Remove(f) =>
      && f != DeviceKey && f != DeviceCert
      && (f == PollToken && Clean(before) ==> d.saved.Some? && d.saved.value.pendingCertificateID != "")
    case _ => true
  }

  /** The one way off the graph: the clock went backwards and a poll then reported revocation. */
  ghost predicate BackwardRevocation(before: seq<Effect>, r: Record) {
    && !ClockForward(before)
    && before != [] && before[|before| - 1].AskPoll?
    && SavedAs(DiskOf(before), Unclaimed) && r.claimState == Revoked
  }

  ghost predicate Lawful(log: seq<Effect>) {
    forall i :: 0 <= i < |log| ==> Rule(log[..i], log[i])
  }

  lemma LawfulPrefix(log: seq<Effect>, n: nat)
    requires Lawful(log) && n <= |log|
    ensures Lawful(log[..n])
  {
    forall i | 0 <= i < n ensures Rule(log[..n][..i], log[..n][i]) {
      assert log[..n][..i] == log[..i];
    }
  }

  lemma ExtendFold(log: seq<Effect>, e: Effect)
    ensures DiskOf(log + [e]) == Apply(DiskOf(log), e)
    ensures Bound(log + [e]) ==
            if e.Save? then e.record.pendingCertificateID != "" || Bound(log)
            else if e.AskFinalize? && e.verdict == Confirmed then false
            else Bound(log)
  {
    assert (log + [e])[..|log|] == log;
  }

  lemma ExtendLaw(log: seq<Effect>, e: Effect)
    requires Lawful(log) && Rule(log, e)
    ensures Lawful(log + [e])
  {
    hide DiskOf, Bound, Clean, ClockForward, Tampered, Rule;
    var l := log + [e];
    forall i | 0 <= i < |l| ensures Rule(l[..i], l[i]) {
      if i < |log| { assert l[..i] == log[..i]; } else { assert l[..i] == log; }
    }
  }

  lemma ExtendClock(log: seq<Effect>, e: Effect)
    ensures ClockForward(log + [e]) ==> ClockForward(log)
    ensures ClockForward(log) && !e.Woke? ==> ClockForward(log + [e])
    ensures ClockForward(log + [e]) && e.Woke? ==> forall at :: Woke(at) in log ==> at <= e.at
  {
    var l := log + [e];
    if ClockForward(l) {
      forall i, j | 0 <= i < j < |log| && log[i].Woke? && log[j].Woke? ensures log[i].at <= log[j].at {
        assert l[i] == log[i] && l[j] == log[j];
      }
      if e.Woke? {
        forall at | Woke(at) in log ensures at <= e.at {
          var i :| 0 <= i < |log| && log[i] == Woke(at);
          assert l[i] == Woke(at) && l[|log|] == e;
        }
      }
    }
  }

  lemma ExtendClean(log: seq<Effect>, e: Effect)
    ensures Clean(log + [e]) <==> Clean(log) && !e.Fail?
    ensures Tampered(log + [e]) <==> Tampered(log) || e == Vanish(DeviceKey) || e == Vanish(DeviceCert)
  {
    var l := log + [e];
    assert e in l;
    if Clean(l) {
      forall s ensures Fail(s) !in log { assert Fail(s) !in l; }
    }
  }

  /** One more effect: how the law, the disk and the properties of the log move on. */
  lemma Extend(log: seq<Effect>, e: Effect)
    ensures DiskOf(log + [e]) == Apply(DiskOf(log), e)
    ensures Lawful(log) && Rule(log, e) ==> Lawful(log + [e])
    ensures Clean(log + [e]) <==> Clean(log) && !e.Fail?
    ensures ClockForward(log + [e]) ==> ClockForward(log)
    ensures ClockForward(log) && !e.Woke? ==> ClockForward(log + [e])
    ensures ClockForward(log + [e]) && e.Woke? ==> forall at :: Woke(at) in log ==> at <= e.at
    ensures Tampered(log + [e]) <==> Tampered(log) || e == Vanish(DeviceKey) || e == Vanish(DeviceCert)
    ensures Bound(log + [e]) ==
            if e.Save? then e.record.pendingCertificateID != "" || Bound(log)
            else if e.AskFinalize? && e.verdict == Confirmed then false
            else Bound(log)
  {
    hide DiskOf, Bound, Clean, ClockForward, Tampered, Rule, Lawful;
    ExtendFold(log, e);
    ExtendClock(log, e);
    ExtendClean(log, e);
    if Lawful(log) && Rule(log, e) { ExtendLaw(log, e); }
  }

  // ---------------------------------------------------------------- what a lawful log says of the disk

  /** The meaning of the saved record at the end of any lawful log. */
  ghost predicate DiskOK(log: seq<Effect>) {
    var d := DiskOf(log);
    && (d.saved.Some? ==> RecordOK(d.saved.value, d.files, Tampered(log)))
    && (Bound(log) ==> d.saved.Some? && (d.saved.value.pendingCertificateID != "" || SavedAs(d, Revoked)))
    && (Clean(log) && SavedAs(d, Claimed) ==> PollToken !in d.files)
    && (Clean(log) && d.saved.Some? && IsOpenSession(d.saved.value) ==>
          PollToken in d.files || Vanish(PollToken) in log)
  }

  lemma TokenIsGone(log: seq<Effect>)
    requires EndsWithConfirmedClaim(log)
    ensures PollToken !in DiskOf(log).files
  {
    assert log == log[..|log| - 1] + [Remove(PollToken)];
    ExtendFold(log[..|log| - 1], Remove(PollToken));
  }

  lemma SavingStaysOK(log: seq<Effect>, e: Effect)
    requires DiskOK(log) && Rule(log, e) && e.Save?
    ensures DiskOK(log + [e])
  {
    Extend(log, e);
    if e.record.claimState == Claimed {
      TokenIsGone(log);
    }
    hide DiskOf, Bound, Clean, ClockForward, Tampered, Lawful, Edge, BackwardRevocation, FollowsRevocation;
  }

  lemma OtherStaysOK(log: seq<Effect>, e: Effect)
    requires DiskOK(log) && Rule(log, e) && !e.Save?
    ensures DiskOK(log + [e])
  {
    Extend(log, e);
    hide DiskOf, Bound, Clean, ClockForward, Tampered, Lawful, NothingPending, FollowsRevocation;
  }

  lemma DiskStaysOK(log: seq<Effect>, e: Effect)
    requires DiskOK(log) && Rule(log, e)
    ensures DiskOK(log + [e])
  {
    hide DiskOK, Rule;
    if e.Save? {
      SavingStaysOK(log, e);
    } else {
      OtherStaysOK(log, e);
    }
  }

  lemma {:induction false} LawfulDisk(log: seq<Effect>)
    requires Lawful(log)
    ensures DiskOK(log)
  {
    hide Rule;
    if log != [] {
      hide DiskOf, Bound, Clean, ClockForward, Tampered, DiskOK;
      var rest, e := log[..|log| - 1], log[|log| - 1];
      LawfulPrefix(log, |log| - 1);
      LawfulDisk(rest);
      assert Rule(rest, e);
      DiskStaysOK(rest, e);
      assert log == rest + [e];
    } else {
      assert DiskOK([]);
    }
  }

  // ---------------------------------------------------------------- the invariant

  predicate SameStage(w: World) {
    && SavedAs(w.disk, w.record.claimState)
    && w.disk.saved.value.pendingCertificateID == w.record.pendingCertificateID
  }

  /** A session that was already over when it was opened is held in memory but not saved. */
  predicate Phantom(w: World) {
    && SavedAs(w.disk, Unclaimed)
    && w.record.claimState == PairingPending && w.record.pendingCertificateID == ""
  }

  ghost predicate LapsedBefore(w: World, log: seq<Effect>) {
    w.record.pairingCodeExpiry.Some? && exists at :: Woke(at) in log && w.record.pairingCodeExpiry.value < at
  }

  /** Holds of a world between any two effects. */
  ghost predicate Base(w: World) {
    && w.up
    && Lawful(w.log)
    && w.disk == DiskOf(w.log)
    && w.disk.saved.Some?
    && RecordOK(w.record, w.disk.files, Tampered(w.log))
    && (SavedAs(w.disk, Revoked) ==> w.record.claimState == Revoked)
    && (Bound(w.log) ==> w.record.pendingCertificateID != "" || w.record.claimState == Revoked)
  }

  /** Holds of a world between two passes. */
  ghost predicate Inv(w: World) {
    && Base(w)
    && (Clean(w.log) ==> SameStage(w) || (Phantom(w) && (ClockForward(w.log) ==> LapsedBefore(w, w.log))))
  }

  ghost predicate Grows(w: World, v: World) {
    w.log <= v.log
  }

  lemma DoKeeps(w: World, e: Effect)
    requires Base(w) && Rule(w.log, e) && !e.Woke?
    requires e.Save? ==> e.record == w.record
    ensures Base(Do(w, e)) && Grows(w, Do(w, e))
    ensures Clean(Do(w, e).log) ==> Clean(w.log) && !e.Fail?
    ensures ClockForward(Do(w, e).log) <==> ClockForward(w.log)
    ensures Bound(Do(w, e).log) ==> Bound(w.log) || (e.Save? && w.record.pendingCertificateID != "")
    ensures e.AskFinalize? && e.verdict == Confirmed ==> !Bound(Do(w, e).log)
    ensures e == Save(w.record) ==> SameStage(Do(w, e))
  {
    hide DiskOf, Bound, Clean, ClockForward, Tampered, Lawful;
    Extend(w.log, e);
  }

  lemma SaveKeeps(w: World, site: Site, a: Answers)
    requires Base(w) && Rule(w.log, Save(w.record))
    ensures var v := Attempt(w, Save(w.record), site, a);
            && Inv(v) && Grows(w, v) && Inv(Commit(w, site, a))
            && (Clean(v.log) ==> Clean(w.log) && SameStage(v) && !Fails(a, site))
            && (ClockForward(v.log) <==> ClockForward(w.log))
            && (Bound(v.log) ==> Bound(w.log) || w.record.pendingCertificateID != "")
  {
    hide DiskOf, Bound, Clean, ClockForward, Tampered, Lawful;
    DoKeeps(w, Save(w.record));
    DoKeeps(w, Fail(site));
    DoKeeps(Do(w, Save(w.record)), Fail(site));
  }

  /** The part of Inv that a pass needs while it polls or opens a session. */
  ghost predicate Ready(w: World) {
    && Base(w)
    && !Bound(w.log) && w.record.pendingCertificateID == ""
    && w.record.claimState != Revoked
    && (Clean(w.log) ==> SameStage(w) || (Phantom(w) && !ClockForward(w.log)))
  }

  /** What may be done while there is no provisioning to confirm. */
  predicate Permitted(w: World, e: Effect) {
    match e
    case AskCreate(_, _) => true
    case AskPoll(_, _, _) => true
    case AskProvision(_, _, deviceID, _, _, _) => deviceID != ""
    case Write(f, _) => f == PollToken ==> w.record.claimState == Unclaimed
    case Fail(_) => true
    case _ => false
  }

  lemma AttemptKeeps(w: World, e: Effect, site: Site, a: Answers)
    requires Ready(w) && Permitted(w, e)
    ensures Ready(Do(w, e)) && Inv(Do(w, e)) && Grows(w, Do(w, e))
    ensures Ready(Attempt(w, e, site, a)) && Inv(Attempt(w, e, site, a)) && Grows(w, Attempt(w, e, site, a))
    ensures e.AskPoll? ==> Do(w, e).log[|Do(w, e).log| - 1] == e
  {
    hide DiskOf, Bound, Clean, ClockForward, Tampered, Lawful;
    DoKeeps(w, e);
    DoKeeps(w, Fail(site));
    DoKeeps(Do(w, e), Fail(site));
  }

  lemma GrowsOn(u: World, v: World, w: World)
    requires Grows(u, v) && Grows(v, w)
    ensures Grows(u, w)
  {}

  lemma GrowsSelf(w: World)
    ensures Grows(w, w)
  {}

  lemma GrowsLog(w: World, v: World)
    requires Grows(w, v)
    ensures forall e :: e in w.log ==> e in v.log
  {}

  lemma ReadyIsInv(w: World)
    requires Ready(w)
    ensures Inv(w) && Base(w)
  {
    hide DiskOf, Bound, Clean, ClockForward, Tampered, Lawful;
  }

  lemma DegradeKeeps(w: World, v: World, reason: Reason)
    requires Inv(v) && Grows(w, v)
    ensures Inv(Degrade(v, reason)) && Grows(w, Degrade(v, reason))
  {
    hide DiskOf, Bound, Clean, ClockForward, Tampered, Lawful;
  }

  // ---------------------------------------------------------------- each operation keeps it

  lemma AcceptSessionKeeps(w: World, r: CreateResponse, a: Answers)
    requires Ready(w) && w.record.claimState == Unclaimed && Woke(a.now) in w.log
    ensures Inv(AcceptSession(w, r, a)) && Grows(w, AcceptSession(w, r, a))
  {
    hide DiskOf, Bound, Clean, ClockForward, Tampered, Lawful;
    AttemptKeeps(w, Write(PollToken, r.pollToken), WriteToken, a);
    var w1 := Attempt(w, Write(PollToken, r.pollToken), WriteToken, a);
    if !Fails(a, WriteToken) {
      var w2 := OpenSession(w1, r);
      if r.expiresAt < a.now {
        assert Woke(a.now) in w2.log;
      } else {
        SaveKeeps(w2, SaveSession, a);
      }
    }
  }

  lemma CreateKeeps(w: World, a: Answers)
    requires Ready(w) && w.record.claimState == Unclaimed && Woke(a.now) in w.log
    ensures Inv(CreatePairingSession(w, a)) && Grows(w, CreatePairingSession(w, a))
  {
    hide DiskOf, Bound, Clean, ClockForward, Tampered, Lawful, Rule, Ready, Inv, Base, Grows, RecordOK;
    ReadyIsInv(w);
    var (w1, keyed) := EnsureKey(w, a);
    AttemptKeeps(w, Write(DeviceKey, a.newKey), WriteKey, a);
    assert Ready(w1) && Inv(w1) && Grows(w, w1) by { if w1 == w { GrowsSelf(w); } }
    var w2 := Do(w1, AskCreate(w.record.installationID, a.create));
    AttemptKeeps(w1, AskCreate(w.record.installationID, a.create), WriteKey, a);
    GrowsOn(w, w1, w2);
    if !w.config.homeSignal {
      GrowsSelf(w);
      DegradeKeeps(w, w, HomesignalEnrollmentUnconfigured);
    } else if !keyed {
      DegradeKeeps(w, w1, DevicePrivateKeyUnavailable);
    } else if !a.csrWorks {
      DegradeKeeps(w, w1, DeviceCsrUnavailable);
    } else if a.create.None? {
      DegradeKeeps(w, w2, HomesignalEnrollmentUnavailable);
    } else if a.create.value.sessionID == "" || a.create.value.pairingCode == "" || a.create.value.pollToken == "" {
      DegradeKeeps(w, w2, HomesignalPairingSessionInvalid);
    } else {
      GrowsLog(w, w2);
      AcceptSessionKeeps(w2, a.create.value, a);
      GrowsOn(w, w2, AcceptSession(w2, a.create.value, a));
    }
  }

  lemma FinalizeKeeps(w: World, token: string, a: Answers)
    requires Base(w) && w.record.pendingCertificateID != "" && (Clean(w.log) ==> SameStage(w))
    requires PollToken in w.disk.files
    ensures Inv(FinalizeWithToken(w, token, a)) && Grows(w, FinalizeWithToken(w, token, a))
  {
    hide DiskOf, Bound, Clean, ClockForward, Tampered, Lawful;
    if w.config.homeSignal {
      var verdict := VerdictOf(a.finalize);
      var e := FinalizeRequest(w.record, token, a.finalize);
      var w1 := Do(w, e);
      DoKeeps(w, e);
      match verdict
      case NoReply => SaveKeeps(w1, SaveAwaiting, a);
      case Undecided =>
      case Denied =>
        var r := ClearPending(w1.record.(claimState := Revoked, revokedAt := Some(a.now)));
        SaveKeeps(w1.(record := r, pairingCode := ""), SaveSettled, a);
      case Confirmed => ConfirmedKeeps(w1, a);
    }
  }

  lemma ConfirmedKeeps(w: World, a: Answers)
    requires Base(w) && w.record.pendingCertificateID != "" && (Clean(w.log) ==> SameStage(w))
    requires !Bound(w.log) && a.finalize.Some?
    requires w.log != [] && w.log[|w.log| - 1].AskFinalize? && w.log[|w.log| - 1].verdict == Confirmed
    ensures var w2 := w.(record := ClaimedRecord(w.record, a.finalize.value, a.now), pairingCode := "");
            var w3 := Attempt(w2, Remove(PollToken), RemoveToken, a);
            var v := if Fails(a, RemoveToken) then Degrade(w3, PollTokenCleanupFailed) else Commit(w3, SaveSettled, a);
            Inv(v) && Grows(w, v)
  {
    hide DiskOf, Bound, Clean, ClockForward, Tampered, Lawful;
    var w2 := w.(record := ClaimedRecord(w.record, a.finalize.value, a.now), pairingCode := "");
    DoKeeps(w2, Remove(PollToken));
    DoKeeps(w2, Fail(RemoveToken));
    DoKeeps(Do(w2, Remove(PollToken)), Fail(RemoveToken));
    if !Fails(a, RemoveToken) {
      var w3 := Do(w2, Remove(PollToken));
      assert w3.log[|w3.log| - 2] == w.log[|w.log| - 1];
      SaveKeeps(w3, SaveSettled, a);
    }
  }

  lemma AcceptCertificateKeeps(w: World, r: PollResponse, p: ProvisionResponse, token: string, a: Answers)
    requires Ready(w) && w.record.claimState == PairingPending && r.deviceID != "" && p.certificateID != ""
    requires DeviceKey in w.disk.files && PollToken in w.disk.files
    ensures Inv(AcceptCertificate(w, r, p, token, a)) && Grows(w, AcceptCertificate(w, r, p, token, a))
  {
    hide DiskOf, Bound, Clean, ClockForward, Tampered, Lawful;
    AttemptKeeps(w, Write(DeviceCert, p.certificate), WriteCert, a);
    if !Fails(a, WriteCert) {
      var w1 := RecordProvisioning(Do(w, Write(DeviceCert, p.certificate)), r, p);
      SaveKeeps(w1, SaveProvisioned, a);
      if !Fails(a, SaveProvisioned) {
        FinalizeKeeps(Commit(w1, SaveProvisioned, a), token, a);
      }
    }
  }

  lemma ProvisionKeeps(w: World, r: PollResponse, token: string, a: Answers)
    requires Ready(w) && w.record.claimState == PairingPending && r.deviceID != "" && PollToken in w.disk.files
    ensures Inv(Provision(w, r, token, a)) && Grows(w, Provision(w, r, token, a))
  {
    hide DiskOf, Bound, Clean, ClockForward, Tampered, Lawful, Rule, Ready, Inv, Base, Grows, RecordOK;
    ReadyIsInv(w);
    var (w1, keyed) := EnsureKey(w, a);
    AttemptKeeps(w, Write(DeviceKey, a.newKey), WriteKey, a);
    assert Ready(w1) && Inv(w1) && Grows(w, w1) by { if w1 == w { GrowsSelf(w); } }
    if !keyed {
      DegradeKeeps(w, w1, DevicePrivateKeyUnavailable);
    } else if !a.csrWorks {
      DegradeKeeps(w, w1, DeviceCsrUnavailable);
    } else {
      RequestKeeps(w1, r, token, a);
      GrowsOn(w, w1, RequestCertificate(w1, r, token, a));
    }
  }

  lemma RequestKeeps(w: World, r: PollResponse, token: string, a: Answers)
    requires Ready(w) && w.record.claimState == PairingPending && r.deviceID != ""
    requires PollToken in w.disk.files && DeviceKey in w.disk.files
    ensures Inv(RequestCertificate(w, r, token, a)) && Grows(w, RequestCertificate(w, r, token, a))
  {
    hide DiskOf, Bound, Clean, ClockForward, Tampered, Lawful, Rule, Ready, Inv, Base, Grows, RecordOK;
    var ask := ProvisionRequest(w, r, a);
    var w1 := Do(w, ask);
    AttemptKeeps(w, ask, WriteKey, a);
    if a.provision.None? {
      DegradeKeeps(w, w1, AwsFleetProvisioningFailed);
    } else if a.provision.value.certificate == "" || a.provision.value.certificateID == "" {
      DegradeKeeps(w, w1, AwsFleetProvisioningResponseInvalid);
    } else {
      AcceptCertificateKeeps(w1, r, a.provision.value, token, a);
      GrowsOn(w, w1, AcceptCertificate(w1, r, a.provision.value, token, a));
    }
  }

  lemma AddedKeeps(w: World, e: Effect)
    requires Inv(w) && (e.Fail? || e == Remove(ClaimCert) || e == Remove(ClaimKey) || e.Vanish?)
    ensures Inv(Do(w, e)) && Grows(w, Do(w, e))
  {
    hide DiskOf, Bound, Clean, ClockForward, Tampered, Lawful;
    DoKeeps(w, e);
    assert forall at :: Woke(at) in w.log ==> Woke(at) in Do(w, e).log;
  }

  lemma RemovalKeeps(w: World, f: File, site: Site, a: Answers)
    requires Inv(w) && (f == ClaimCert || f == ClaimKey)
    ensures Inv(Attempt(w, Remove(f), site, a)) && Grows(w, Attempt(w, Remove(f), site, a))
  {
    hide Inv;
    AddedKeeps(w, Remove(f));
    AddedKeeps(w, Fail(site));
    AddedKeeps(Do(w, Remove(f)), Fail(site));
  }

  lemma DropKeeps(w: World, a: Answers)
    requires Inv(w)
    ensures Inv(DropClaimMaterial(w, a)) && Grows(w, DropClaimMaterial(w, a))
  {
    hide DiskOf, Bound, Clean, ClockForward, Tampered, Lawful;
    RemovalKeeps(w, ClaimCert, RemoveClaimCert, a);
    RemovalKeeps(Attempt(w, Remove(ClaimCert), RemoveClaimCert, a), ClaimKey, RemoveClaimKey, a);
  }

  lemma ApprovedKeeps(w: World, r: PollResponse, token: string, a: Answers)
    requires Ready(w) && w.record.claimState == PairingPending && PollToken in w.disk.files
    ensures Inv(HandleApprovedClaim(w, r, token, a)) && Grows(w, HandleApprovedClaim(w, r, token, a))
  {
    hide DiskOf, Bound, Clean, ClockForward, Tampered, Lawful, Rule, Ready, Inv, Base, Grows, RecordOK;
    ReadyIsInv(w);
    GrowsSelf(w);
    var w1 := Attempt(w, Write(ClaimCert, r.claimCertificate), WriteClaimCert, a);
    AttemptKeeps(w, Write(ClaimCert, r.claimCertificate), WriteClaimCert, a);
    var w2 := Attempt(w1, Write(ClaimKey, r.claimKey), WriteClaimKey, a);
    AttemptKeeps(w1, Write(ClaimKey, r.claimKey), WriteClaimKey, a);
    GrowsOn(w, w1, w2);
    if r.deviceID == "" {
      DegradeKeeps(w, w, HomesignalClaimMissingDeviceId);
    } else if r.claimCertificate == "" || r.claimKey == "" {
      DegradeKeeps(w, w, HomesignalClaimMissingAwsMaterial);
    } else if r.claimExpiresAt != ZERO_TIME && r.claimExpiresAt <= a.now {
      DegradeKeeps(w, w, AwsClaimMaterialExpired);
    } else if !w.config.awsIoT {
      DegradeKeeps(w, w, AwsIotEndpointUnconfigured);
    } else if Fails(a, WriteClaimCert) {
      DegradeKeeps(w, w1, AwsClaimCertificateStorageFailed);
    } else if Fails(a, WriteClaimKey) {
      DegradeKeeps(w, w2, AwsClaimKeyStorageFailed);
    } else {
      ProvisionKeeps(w2, r, token, a);
      var w3 := Provision(w2, r, token, a);
      DropKeeps(w3, a);
      GrowsOn(w, w2, w3);
      GrowsOn(w, w3, DropClaimMaterial(w3, a));
    }
  }

  lemma PollAnswerKeeps(w: World, r: PollResponse, token: string, a: Answers)
    requires Ready(w) && w.record.claimState == PairingPending
    requires w.log != [] && w.log[|w.log| - 1].AskPoll? && PollToken in w.disk.files
    ensures Inv(HandlePollAnswer(w, r, token, a)) && Grows(w, HandlePollAnswer(w, r, token, a))
  {
    hide DiskOf, Bound, Clean, ClockForward, Tampered, Lawful, HandleApprovedClaim;
    if Pending(r.status) {
      SaveKeeps(if PendingExpired(w.record, a.now) then Abandon(w) else w, SavePoll, a);
    } else if Approved(r.status) {
      ApprovedKeeps(w, r, token, a);
    } else if SaysRevoked(r.status) {
      SaveKeeps(w.(record := w.record.(claimState := Revoked, revokedAt := Some(a.now))), SavePoll, a);
    } else if Expired(r.status) {
      SaveKeeps(Abandon(w), SavePoll, a);
    }
  }

  lemma PollKeeps(w: World, a: Answers)
    requires Ready(w) && w.record.claimState == PairingPending
    ensures Inv(PollPairingSession(w, a)) && Grows(w, PollPairingSession(w, a))
  {
    hide DiskOf, Bound, Clean, ClockForward, Tampered, Lawful, Rule, HandlePollAnswer;
    if w.config.homeSignal && TokenReadable(w, a) {
      var token := w.disk.files[PollToken];
      var ask := AskPoll(w.record.pairingSessionID, token, a.poll);
      AttemptKeeps(w, ask, ReadToken, a);
      if a.poll.Some? {
        PollAnswerKeeps(Refresh(Do(w, ask), a.poll.value), a.poll.value, token, a);
      }
    }
  }

  lemma StatusKeeps(w: World, a: Answers)
    requires Inv(w) && w.record.claimState == Claimed
    ensures Inv(CheckClaimedStatus(w, a)) && Grows(w, CheckClaimedStatus(w, a))
  {
    hide DiskOf, Bound, Clean, ClockForward, Tampered, Lawful;
    if w.config.homeSignal {
      DoKeeps(w, AskStatus(w.record.deviceID));
      var w1 := Do(w, AskStatus(w.record.deviceID));
      if a.status.Some? && !Healthy(a.status.value) && SaysRevoked(a.status.value) {
        SaveKeeps(w1.(record := w1.record.(claimState := Revoked, revokedAt := Some(a.now))), SaveStatus, a);
      }
    }
  }

  lemma WakeKeeps(w: World, a: Answers)
    requires Inv(w)
    ensures var v := Wake(w, a);
            && Base(v) && Grows(w, v) && Woke(a.now) in v.log
            && (Clean(v.log) ==>
                  SameStage(v) || (Phantom(v) && (ClockForward(v.log) ==> PendingExpired(v.record, a.now))))
  {
    hide DiskOf, Bound, Clean, ClockForward, Tampered, Lawful;
    Extend(w.log, Woke(a.now));
    var v := Wake(w, a);
    if Clean(v.log) && !SameStage(v) && ClockForward(v.log) {
      var at :| Woke(at) in w.log && w.record.pairingCodeExpiry.value < at;
    }
  }

  lemma RunOnceKeeps(w: World, a: Answers)
    requires Inv(w)
    ensures Inv(RunOnce(w, a)) && Grows(w, RunOnce(w, a))
  {
    hide DiskOf, Bound, Clean, ClockForward, Tampered, Lawful, CreatePairingSession, PollPairingSession,
         FinalizeWithToken, CheckClaimedStatus, AddReason;
    WakeKeeps(w, a);
    var v := Wake(w, a);
    if v.record.claimState == Claimed {
      if HasCredential(v.disk.files) {
        StatusKeeps(v, a);
      } else {
        var v1 := v.(record := v.record.(claimState := Unclaimed, claimedAt := None));
        SaveKeeps(Degrade(v1, ClaimedCredentialFilesMissing), SaveMissing, a);
      }
    } else if v.record.claimState == PairingPending && v.record.pendingCertificateID == "" {
      if PendingExpired(v.record, a.now) {
        var v1 := Abandon(v);
        SaveKeeps(v1, SaveExpired, a);
        CreateKeeps(Attempt(v1, Save(v1.record), SaveExpired, a), a);
      } else {
        PollKeeps(v, a);
      }
    } else if v.record.claimState == Unclaimed {
      CreateKeeps(v, a);
    } else if v.record.claimState == PairingPending && TokenReadable(v, a) {
      FinalizeKeeps(v, v.disk.files[PollToken], a);
    }
  }

  // ---------------------------------------------------------------- starts and runs

  /** Whatever a lawful log leaves on the disk, an agent starts on it and is in step with it. */
  lemma StartKeeps(log: seq<Effect>, boot: Boot)
    requires Lawful(log)
    ensures Inv(Start(log, boot)) && log <= Start(log, boot).log
  {
    hide DiskOf, Bound, Clean, ClockForward, Tampered, Lawful;
    LawfulDisk(log);
    Extend(log, Save(FreshRecord(boot)));
  }

  lemma StepKeeps(w: World, m: Move)
    requires Inv(w)
    ensures Inv(Step(w, m))
  {
    hide DiskOf, Bound, Clean, ClockForward, Tampered, Lawful, Rule, RunOnce;
    match m
    case Tick(a) => RunOnceKeeps(w, a);
    case Lose(f) => AddedKeeps(w, Vanish(f));
    case Crash(a, keep, boot) =>
      RunOnceKeeps(w, a);
      var log := RunOnce(w, a).log;
      if |w.log| + keep < |log| {
        LawfulPrefix(log, |w.log| + keep);
        StartKeeps(log[..|w.log| + keep], boot);
      } else {
        StartKeeps(log, boot);
      }
  }

  lemma {:induction false} RunKeeps(boot: Boot, moves: seq<Move>)
    ensures Inv(Run(boot, moves))
  {
    if moves == [] {
      StartKeeps([], boot);
    } else {
      RunKeeps(boot, moves[..|moves| - 1]);
      StepKeeps(Run(boot, moves[..|moves| - 1]), moves[|moves| - 1]);
    }
  }
}
