/**
 Whose secrets a device works with: the certificate and the key of a claimed device belong to the
 provisioning that the cloud confirmed, and the poll token that is presented belongs to the session
 it is presented for, however often the agent was provisioned, stopped and started before.
 */
module EnrollmentSecrets {
  import opened Common
  import opened Enrollment
  import opened EnrollmentSafety
  import opened EnrollmentEffects
  import opened EnrollmentNames
  import opened EnrollmentRuns
  import opened EnrollmentGaps

  // ---------------------------------------------------------------- what was issued

  predicate IssuedAt(log: seq<Effect>, i: nat, id: string, certificate: string, key: string) {
    && i < |log| && log[i].AskProvision? && log[i].provisioned.Some? && log[i].key == key
    && log[i].provisioned.value.certificateID == id && log[i].provisioned.value.certificate == certificate
  }

  /** A provisioning requested with this key was answered with this certificate under this id. */
  ghost predicate Issued(log: seq<Effect>, id: string, certificate: string, key: string) {
    exists i :: 0 <= i < |log| && IssuedAt(log, i, id, certificate, key)
  }

  /** The credential files hold what was issued under the id, unless others deleted them. */
  ghost predicate Certified(log: seq<Effect>, id: string) {
    var files := DiskOf(log).files;
    Tampered(log) || (HasCredential(files) && Issued(log, id, files[DeviceCert], files[DeviceKey]))
  }

  predicate GrantedAt(log: seq<Effect>, i: nat, session: string, token: string) {
    && i < |log| && log[i].AskCreate? && log[i].answer.Some?
    && log[i].answer.value.sessionID == session && log[i].answer.value.pollToken == token
  }

  /** The cloud opened this session with this token. */
  ghost predicate Granted(log: seq<Effect>, session: string, token: string) {
    exists i :: 0 <= i < |log| && GrantedAt(log, i, session, token)
  }

  predicate CrossedAt(log: seq<Effect>, i: nat) {
    i < |log| && WritesToken(log[i]) && SavedAs(DiskOf(log[..i]), PairingPending)
  }

  /** The token of a session was stored while another session was still the saved one. */
  ghost predicate Crossed(log: seq<Effect>) {
    exists i :: 0 <= i < |log| && CrossedAt(log, i)
  }

  ghost predicate Presentable(log: seq<Effect>, session: string, token: string) {
    Crossed(log) || Granted(log, session, token)
  }

  /** The token file, if it is there, holds the session's own token. */
  ghost predicate Fits(log: seq<Effect>, session: string) {
    var files := DiskOf(log).files;
    PollToken in files ==> Presentable(log, session, files[PollToken])
  }

  /** Nothing that is saved refers to the certificate file. */
  predicate Free(d: Disk) {
    d.saved.Some? ==> d.saved.value.claimState != Claimed && d.saved.value.pendingCertificateID == ""
  }

  /** What each effect may be, given the log before it, as far as secrets and names go. */
  ghost predicate SecretRule(before: seq<Effect>, e: Effect) {
    NameRule(before, e) &&
    match e
    case Save(r) =>
      && (r.pendingCertificateID != "" ==> Certified(before, r.pendingCertificateID))
      && (r.claimState == PairingPending ==> Fits(before, r.pairingSessionID))
    case AskPoll(session, token, _) => Presentable(before, session, token)
    case AskFinalize(session, token, _, _, certificateID, _, _, _) =>
      Certified(before, certificateID) && Presentable(before, session, token)
    case Write(f, _) =>
      && (f == DeviceCert ==> Tampered(before) || Free(DiskOf(before)))
      && (f == DeviceKey ==> DeviceKey !in DiskOf(before).files)
    case Remove(f) => f != DeviceCert && f != DeviceKey
    case _ => true
  }

  ghost predicate SecretLawful(log: seq<Effect>) {
    forall i :: 0 <= i < |log| ==> SecretRule(log[..i], log[i])
  }

  lemma SecretLawfulPrefix(log: seq<Effect>, n: nat)
    requires SecretLawful(log) && n <= |log|
    ensures SecretLawful(log[..n])
  {
    forall i | 0 <= i < n ensures SecretRule(log[..n][..i], log[..n][i]) {
      assert log[..n][..i] == log[..i];
    }
  }

  lemma SecretLawExtends(log: seq<Effect>, e: Effect)
    requires SecretLawful(log) && SecretRule(log, e)
    ensures SecretLawful(log + [e])
  {
    hide SecretRule;
    var l := log + [e];
    forall i | 0 <= i < |l| ensures SecretRule(l[..i], l[i]) {
      if i < |log| { assert l[..i] == log[..i]; } else { assert l[..i] == log; }
    }
  }

  lemma IssuedStays(log: seq<Effect>, e: Effect, id: string, certificate: string, key: string)
    requires Issued(log, id, certificate, key)
    ensures Issued(log + [e], id, certificate, key)
  {
    var i :| 0 <= i < |log| && IssuedAt(log, i, id, certificate, key);
    assert IssuedAt(log + [e], i, id, certificate, key);
  }

  lemma CertifiedStays(log: seq<Effect>, e: Effect, id: string)
    requires Certified(log, id) && SecretRule(log, e)
    requires e.Write? ==> e.file != DeviceCert
    ensures Certified(log + [e], id)
  {
    hide NameRule, DiskOf, Tampered, Issued, Presentable;
    ExtendFold(log, e);
    ExtendClean(log, e);
    if !Tampered(log) {
      IssuedStays(log, e, id, DiskOf(log).files[DeviceCert], DiskOf(log).files[DeviceKey]);
    }
  }

  lemma CrossedExtends(log: seq<Effect>, e: Effect)
    ensures Crossed(log + [e]) <==> Crossed(log) || (WritesToken(e) && SavedAs(DiskOf(log), PairingPending))
  {
    hide DiskOf;
    var l := log + [e];
    assert forall i :: 0 <= i < |log| ==> l[..i] == log[..i] && l[i] == log[i];
    assert l[..|log|] == log && l[|log|] == e;
    if Crossed(log) {
      var i :| 0 <= i < |log| && CrossedAt(log, i);
      assert CrossedAt(l, i);
    } else if WritesToken(e) && SavedAs(DiskOf(log), PairingPending) {
      assert CrossedAt(l, |log|);
    }
    if Crossed(l) {
      var i :| 0 <= i < |l| && CrossedAt(l, i);
      assert i < |log| ==> CrossedAt(log, i);
    }
  }

  lemma GrantedStays(log: seq<Effect>, e: Effect, session: string, token: string)
    requires Granted(log, session, token)
    ensures Granted(log + [e], session, token)
  {
    var i :| 0 <= i < |log| && GrantedAt(log, i, session, token);
    assert GrantedAt(log + [e], i, session, token);
  }

  lemma PresentableStays(log: seq<Effect>, e: Effect, session: string, token: string)
    requires Presentable(log, session, token)
    ensures Presentable(log + [e], session, token)
  {
    hide Granted, Crossed;
    CrossedExtends(log, e);
    if Granted(log, session, token) { GrantedStays(log, e, session, token); }
  }

  lemma FitsStays(log: seq<Effect>, e: Effect, session: string)
    requires Fits(log, session)
    requires WritesToken(e) ==> SavedAs(DiskOf(log), PairingPending)
    ensures Fits(log + [e], session)
  {
    hide DiskOf, Granted, Crossed;
    ExtendFold(log, e);
    CrossedExtends(log, e);
    if PollToken in DiskOf(log).files { PresentableStays(log, e, session, DiskOf(log).files[PollToken]); }
  }

  // ---------------------------------------------------------------- the invariant

  /** In step with the secret files and the names between any two effects. */
  ghost predicate SecretInv(w: World) {
    && w.disk == DiskOf(w.log) && SecretLawful(w.log) && NameInv(w)
    && (w.record.pendingCertificateID != "" ==> Certified(w.log, w.record.pendingCertificateID))
    && (w.record.pendingCertificateID == ""
        && (w.record.claimState == Unclaimed || w.record.claimState == PairingPending) ==>
          Tampered(w.log) || Free(w.disk))
    && (w.record.claimState == PairingPending ==> Fits(w.log, w.record.pairingSessionID))
  }

  predicate SameToken(w: World, v: World) {
    && (PollToken in v.disk.files <==> PollToken in w.disk.files)
    && (PollToken in w.disk.files ==> v.disk.files[PollToken] == w.disk.files[PollToken])
  }

  lemma FreeStays(w: World, e: Effect)
    requires e.Save? ==> e.record == w.record
    requires w.record.claimState == Unclaimed || w.record.claimState == PairingPending
    requires w.record.pendingCertificateID == "" && (Tampered(w.log) || Free(w.disk))
    ensures Tampered(Do(w, e).log) || Free(Do(w, e).disk)
  {
    ExtendClean(w.log, e);
    hide Tampered;
  }

  lemma SecretDo(w: World, e: Effect)
    requires SecretInv(w) && SecretRule(w.log, e)
    requires e.Save? ==> e.record == w.record
    requires e.Write? && e.file == DeviceCert ==> w.record.pendingCertificateID == ""
    requires WritesToken(e) ==> w.record.claimState != PairingPending
    ensures SecretInv(Do(w, e))
    ensures !WritesToken(e) && !DropsToken(e) ==> SameToken(w, Do(w, e))
  {
    hide DiskOf, Tampered, Certified, SecretLawful, Fits, NameInv, SecretRule;
    NameDo(w, e);
    SameTokenAfter(w, e);
    hide SameToken;
    ExtendFold(w.log, e);
    SecretLawExtends(w.log, e);
    if w.record.pendingCertificateID != "" {
      CertifiedStays(w.log, e, w.record.pendingCertificateID);
    }
    if w.record.claimState == PairingPending {
      FitsStays(w.log, e, w.record.pairingSessionID);
    }
    if w.record.pendingCertificateID == ""
       && (w.record.claimState == Unclaimed || w.record.claimState == PairingPending) {
      FreeStays(w, e);
    }
    hide Free;
  }

  lemma SameTokenAfter(w: World, e: Effect)
    ensures !WritesToken(e) && !DropsToken(e) ==> SameToken(w, Do(w, e))
  {}

  /** Effects that say nothing about secrets, or that only add a key where there is none. */
  predicate Plain(w: World, e: Effect) {
    && !e.Save? && !e.AskFinalize? && !e.AskPoll?
    && (e.Write? ==> e.file != DeviceCert
                     && (e.file == DeviceKey ==> DeviceKey !in w.disk.files)
                     && (e.file == PollToken ==> w.record.claimState != PairingPending))
    && (e.Remove? ==> e.file != DeviceCert && e.file != DeviceKey)
  }

  lemma SecretPlain(w: World, e: Effect)
    requires SecretInv(w) && Plain(w, e)
    ensures SecretInv(Do(w, e))
    ensures !WritesToken(e) && !DropsToken(e) ==> SameToken(w, Do(w, e))
  {
    assert SecretRule(w.log, e);
    hide SecretInv, SecretRule, SameToken;
    SecretDo(w, e);
  }

  lemma SecretAttempt(w: World, e: Effect, site: Site, a: Answers)
    requires SecretInv(w) && Plain(w, e)
    ensures SecretInv(Attempt(w, e, site, a)) && Attempt(w, e, site, a).record == w.record
    ensures !WritesToken(e) && !DropsToken(e) ==> SameToken(w, Attempt(w, e, site, a))
  {
    hide SecretInv;
    SecretPlain(w, e);
    SecretPlain(w, Fail(site));
    SecretPlain(Do(w, e), Fail(site));
  }

  lemma SecretSaved(w: World)
    requires SecretInv(w) && (w.record.claimState == Claimed ==> TakesOver(w.log, w.record))
    ensures SecretInv(Do(w, Save(w.record))) && SameToken(w, Do(w, Save(w.record)))
  {
    NameSave(w);
    hide NameRule, NameInv, TakesOver, Certified, SecretLawful, DiskOf, Tampered, Fits;
    SecretDo(w, Save(w.record));
  }

  lemma SecretSave(w: World, site: Site, a: Answers)
    requires SecretInv(w) && (w.record.claimState == Claimed ==> TakesOver(w.log, w.record))
    ensures SecretInv(Attempt(w, Save(w.record), site, a)) && SecretInv(Commit(w, site, a))
    ensures Attempt(w, Save(w.record), site, a).record == w.record
    ensures SameToken(w, Attempt(w, Save(w.record), site, a)) && SameToken(w, Commit(w, site, a))
  {
    hide SecretInv, Do, TakesOver;
    SecretSaved(w);
    SecretPlain(w, Fail(site));
    SecretPlain(Do(w, Save(w.record)), Fail(site));
    DoChangesNothingElse(w, Save(w.record));
    DoChangesNothingElse(w, Fail(site));
    DoChangesNothingElse(Do(w, Save(w.record)), Fail(site));
    ErrorDoesNotMatter(Attempt(w, Save(w.record), site, a), Commit(w, site, a));
  }

  lemma ErrorDoesNotMatter(w: World, v: World)
    requires SecretInv(w) && v == w.(degraded := v.degraded, error := v.error, pairingCode := v.pairingCode)
    ensures SecretInv(v)
  {
    hide DiskOf, Certified, SecretLawful, Tampered, Fits, Named, SameDevice;
  }

  /** A change of the record that keeps the invariant: nothing becomes pending, no session becomes
      another, and the claim is not put into question. */
  lemma SecretRecord(w: World, v: World)
    requires SecretInv(w) && v.log == w.log && v.disk == w.disk && KeepsNames(w.record, v.record)
    requires || v.record.claimState == Claimed || v.record.claimState == Revoked || Tampered(w.log)
             || w.record.claimState == Unclaimed || w.record.claimState == PairingPending
    requires || v.record.pendingCertificateID == w.record.pendingCertificateID
             || (v.record.pendingCertificateID == ""
                 && (v.record.claimState == Claimed || v.record.claimState == Revoked))
    requires v.record.claimState == PairingPending ==>
               w.record.claimState == PairingPending && v.record.pairingSessionID == w.record.pairingSessionID
    ensures SecretInv(v)
  {
    NameRecord(w, v);
    hide NameInv, KeepsNames, DiskOf, Certified, SecretLawful, Tampered, Fits;
  }

  lemma SecretKey(w: World, a: Answers)
    requires SecretInv(w)
    ensures var (v, keyed) := EnsureKey(w, a);
            SecretInv(v) && v.record == w.record && SameToken(w, v) && (keyed ==> DeviceKey in v.disk.files)
  {
    EnsuredKey(w, a);
    hide SecretInv, Attempt;
    if DeviceKey !in w.disk.files {
      SecretAttempt(w, Write(DeviceKey, a.newKey), WriteKey, a);
    }
  }

  lemma SecretDegrade(w: World, reason: Reason)
    requires SecretInv(w)
    ensures SecretInv(Degrade(w, reason)) && Degrade(w, reason).record == w.record
  {
    ErrorDoesNotMatter(w, Degrade(w, reason));
  }

  // ---------------------------------------------------------------- each operation keeps it

  lemma SecretCreate(w: World, a: Answers)
    requires SecretInv(w) && w.record.claimState == Unclaimed && w.record.pendingCertificateID == ""
    ensures SecretInv(CreatePairingSession(w, a))
  {
    hide SecretInv, Attempt, Do, EnsureKey, Degrade, AcceptSession;
    SecretKey(w, a);
    var w1 := EnsureKey(w, a).0;
    var ask := AskCreate(w.record.installationID, a.create);
    SecretPlain(w1, ask);
    var w2 := Do(w1, ask);
    SecretDegrade(w, HomesignalEnrollmentUnconfigured);
    SecretDegrade(w1, DevicePrivateKeyUnavailable);
    SecretDegrade(w1, DeviceCsrUnavailable);
    SecretDegrade(w2, HomesignalEnrollmentUnavailable);
    SecretDegrade(w2, HomesignalPairingSessionInvalid);
    if a.create.Some? {
      DoChangesNothingElse(w1, ask);
      SecretAccept(w2, a.create.value, a);
    }
  }

  /** The token of a new session is written, and then the session is taken over. */
  lemma SecretAccept(w: World, r: CreateResponse, a: Answers)
    requires SecretInv(w) && w.record.claimState == Unclaimed && w.record.pendingCertificateID == ""
    requires w.log != [] && w.log[|w.log| - 1].AskCreate? && w.log[|w.log| - 1].answer == Some(r)
    ensures SecretInv(AcceptSession(w, r, a))
  {
    hide SecretInv, Degrade, Do, Fits;
    var e := Write(PollToken, r.pollToken);
    SecretAttempt(w, e, WriteToken, a);
    SecretDegrade(Attempt(w, e, WriteToken, a), PollTokenStorageFailed);
    if !Fails(a, WriteToken) {
      var w1 := Do(w, e);
      TokenIsOwn(w, r);
      DoChangesNothingElse(w, e);
      SecretOpen(w1, r);
      var w2 := OpenSession(w1, r);
      SecretDegrade(w2, HomesignalPairingSessionExpired);
      SecretSave(w2, SaveSession, a);
    }
  }

  lemma TokenIsOwn(w: World, r: CreateResponse)
    requires SecretInv(w) && w.log != [] && w.log[|w.log| - 1].AskCreate? && w.log[|w.log| - 1].answer == Some(r)
    ensures Fits(Do(w, Write(PollToken, r.pollToken)).log, r.sessionID)
  {
    var e := Write(PollToken, r.pollToken);
    assert GrantedAt(w.log, |w.log| - 1, r.sessionID, r.pollToken);
    GrantedStays(w.log, e, r.sessionID, r.pollToken);
    ExtendFold(w.log, e);
    hide DiskOf, SecretLawful, Crossed, Tampered, Certified, Granted;
  }

  lemma SecretOpen(w: World, r: CreateResponse)
    requires SecretInv(w) && w.record.claimState == Unclaimed && Fits(w.log, r.sessionID)
    requires w.record.pendingCertificateID == ""
    ensures SecretInv(OpenSession(w, r))
  {
    NameRecord(w, OpenSession(w, r));
    hide NameInv, DiskOf, Certified, SecretLawful, Tampered, Fits;
  }

  predicate Holds(w: World, token: string) {
    PollToken in w.disk.files && w.disk.files[PollToken] == token
  }

  lemma MayBeConfirmed(w: World, token: string, answer: Option<FinalizeResponse>)
    requires SecretInv(w) && w.record.pendingCertificateID != "" && w.record.claimState == PairingPending
    requires Holds(w, token)
    ensures SecretRule(w.log, FinalizeRequest(w.record, token, answer))
  {
    NameFinalize(w, token, answer);
    hide NameInv, NameRule, VerdictOf, Certified, Presentable, Tampered, SecretLawful, DiskOf;
  }

  lemma SecretFinalize(w: World, token: string, a: Answers)
    requires SecretInv(w) && w.record.pendingCertificateID != "" && w.record.claimState == PairingPending
    requires Holds(w, token)
    ensures SecretInv(FinalizeWithToken(w, token, a))
  {
    var verdict := VerdictOf(a.finalize);
    var ask := FinalizeRequest(w.record, token, a.finalize);
    MayBeConfirmed(w, token, a.finalize);
    hide SecretInv, SecretRule, Attempt, Degrade, SaysClaimed, Refused;
    SecretDegrade(w, HomesignalEnrollmentUnconfigured);
    SecretDo(w, ask);
    var w1 := Do(w, ask);
    match verdict
    case NoReply =>
      SecretSave(w1, SaveAwaiting, a);
      SecretDegrade(Attempt(w1, Save(w1.record), SaveAwaiting, a), IotProvisionedAwaitingHomesignalConfirmation);
    case Undecided =>
      SecretDegrade(w1, IotProvisionedAwaitingHomesignalConfirmation);
    case Denied =>
      var r := ClearPending(w1.record.(claimState := Revoked, revokedAt := Some(a.now)));
      SecretRecord(w1, w1.(record := r, pairingCode := ""));
      SecretSave(w1.(record := r, pairingCode := ""), SaveSettled, a);
    case Confirmed => SecretConfirmed(w1, token, a);
  }

  lemma SecretConfirmed(w: World, token: string, a: Answers)
    requires SecretInv(w) && w.record.claimState == PairingPending && a.finalize.Some?
    requires w.log != [] && w.log[|w.log| - 1] == FinalizeRequest(w.record, token, a.finalize)
    ensures var w2 := w.(record := ClaimedRecord(w.record, a.finalize.value, a.now), pairingCode := "");
            var w3 := Attempt(w2, Remove(PollToken), RemoveToken, a);
            SecretInv(if Fails(a, RemoveToken) then Degrade(w3, PollTokenCleanupFailed) else Commit(w3, SaveSettled, a))
  {
    ClaimTakesOver(w, token, a.finalize.value, a.now);
    hide SecretInv, Attempt, Degrade, TakesOver, FinalizeRequest, KeepsNames;
    var w2 := w.(record := ClaimedRecord(w.record, a.finalize.value, a.now), pairingCode := "");
    SecretRecord(w, w2);
    SecretAttempt(w2, Remove(PollToken), RemoveToken, a);
    var w3 := Attempt(w2, Remove(PollToken), RemoveToken, a);
    AttemptAdds(w2, Remove(PollToken), RemoveToken, a);
    SecretDegrade(w3, PollTokenCleanupFailed);
    if !Fails(a, RemoveToken) { SecretSave(w3, SaveSettled, a); }
  }

  /** The step that counts: the certificate is written, and then its id becomes pending. */
  lemma CertificateStored(w: World, p: ProvisionResponse)
    requires SecretInv(w) && w.record.claimState == PairingPending && w.record.pendingCertificateID == ""
    requires w.log != [] && w.log[|w.log| - 1].AskProvision? && w.log[|w.log| - 1].provisioned == Some(p)
    requires DeviceKey in w.disk.files && w.log[|w.log| - 1].key == w.disk.files[DeviceKey]
    ensures var v := Do(w, Write(DeviceCert, p.certificate));
            SecretInv(v) && Certified(v.log, p.certificateID) && SameToken(w, v)
  {
    var e := Write(DeviceCert, p.certificate);
    SecretDo(w, e);
    assert IssuedAt(w.log, |w.log| - 1, p.certificateID, p.certificate, w.disk.files[DeviceKey]);
    IssuedStays(w.log, e, p.certificateID, p.certificate, w.disk.files[DeviceKey]);
    ExtendFold(w.log, e);
    hide DiskOf, SecretLawful, Issued, Tampered, Fits;
  }

  lemma CertificatePending(w: World, v: World)
    requires SecretInv(w) && v.log == w.log && v.disk == w.disk && v.record.pendingCertificateID != ""
    requires Certified(w.log, v.record.pendingCertificateID)
    requires w.record.claimState == PairingPending && v.record.pairingSessionID == w.record.pairingSessionID
    requires Named(w.log, PendingNames(v.record))
    requires v.record.installationID == w.record.installationID && v.record.createdAt == w.record.createdAt
    ensures SecretInv(v)
  {
    NamePending(w, v);
    hide NameInv, PendingNames, DiskOf, Certified, SecretLawful, Tampered, Fits;
  }

  lemma SecretAcceptCertificate(w: World, r: PollResponse, p: ProvisionResponse, token: string, a: Answers)
    requires SecretInv(w) && w.record.claimState == PairingPending && w.record.pendingCertificateID == ""
    requires w.log != [] && w.log[|w.log| - 1].AskProvision? && w.log[|w.log| - 1].provisioned == Some(p)
    requires DeviceKey in w.disk.files && w.log[|w.log| - 1].key == w.disk.files[DeviceKey]
    requires p.certificateID != "" && Holds(w, token)
    requires w.log[|w.log| - 1].session == w.record.pairingSessionID
    requires w.log[|w.log| - 1].deviceID == r.deviceID && w.log[|w.log| - 1].thing == r.iotThingName
    ensures SecretInv(AcceptCertificate(w, r, p, token, a))
  {
    ProvisioningNames(w, r, p, Write(DeviceCert, p.certificate));
    hide Named, PendingNames, SecretInv, Degrade, FinalizeWithToken, Certified, Do;
    var e := Write(DeviceCert, p.certificate);
    CertificateStored(w, p);
    SecretPlain(w, Fail(WriteCert));
    SecretPlain(Do(w, e), Fail(WriteCert));
    DoChangesNothingElse(w, e);
    SecretDegrade(Attempt(w, e, WriteCert, a), DeviceCertificateStorageFailed);
    if !Fails(a, WriteCert) {
      var w1 := RecordProvisioning(Do(w, e), r, p);
      CertificatePending(Do(w, e), w1);
      SecretSave(w1, SaveProvisioned, a);
      SecretFinalize(Commit(w1, SaveProvisioned, a), token, a);
    }
  }

  lemma SecretRequest(w: World, r: PollResponse, token: string, a: Answers)
    requires SecretInv(w) && w.record.claimState == PairingPending && w.record.pendingCertificateID == ""
    requires DeviceKey in w.disk.files && Holds(w, token)
    ensures SecretInv(RequestCertificate(w, r, token, a))
  {
    hide SecretInv, Degrade, AcceptCertificate;
    var ask := ProvisionRequest(w, r, a);
    SecretPlain(w, ask);
    var w1 := Do(w, ask);
    SecretDegrade(w1, AwsFleetProvisioningFailed);
    SecretDegrade(w1, AwsFleetProvisioningResponseInvalid);
    if a.provision.Some? && a.provision.value.certificateID != "" {
      SecretAcceptCertificate(w1, r, a.provision.value, token, a);
    }
  }

  lemma SecretProvision(w: World, r: PollResponse, token: string, a: Answers)
    requires SecretInv(w) && w.record.claimState == PairingPending && w.record.pendingCertificateID == ""
    requires Holds(w, token)
    ensures SecretInv(Provision(w, r, token, a))
  {
    hide SecretInv, EnsureKey, Degrade, RequestCertificate;
    SecretKey(w, a);
    var (w1, keyed) := EnsureKey(w, a);
    SecretDegrade(w1, DevicePrivateKeyUnavailable);
    SecretDegrade(w1, DeviceCsrUnavailable);
    if keyed { SecretRequest(w1, r, token, a); }
  }

  lemma SecretApproved(w: World, r: PollResponse, token: string, a: Answers)
    requires SecretInv(w) && w.record.claimState == PairingPending && w.record.pendingCertificateID == ""
    requires Holds(w, token)
    ensures SecretInv(HandleApprovedClaim(w, r, token, a))
  {
    hide SecretInv, Attempt, Degrade, Provision;
    SecretDegrade(w, HomesignalClaimMissingDeviceId);
    SecretDegrade(w, HomesignalClaimMissingAwsMaterial);
    SecretDegrade(w, AwsClaimMaterialExpired);
    SecretDegrade(w, AwsIotEndpointUnconfigured);
    SecretAttempt(w, Write(ClaimCert, r.claimCertificate), WriteClaimCert, a);
    var w1 := Attempt(w, Write(ClaimCert, r.claimCertificate), WriteClaimCert, a);
    SecretDegrade(w1, AwsClaimCertificateStorageFailed);
    SecretAttempt(w1, Write(ClaimKey, r.claimKey), WriteClaimKey, a);
    var w2 := Attempt(w1, Write(ClaimKey, r.claimKey), WriteClaimKey, a);
    SecretDegrade(w2, AwsClaimKeyStorageFailed);
    SecretProvision(w2, r, token, a);
    var w3 := Provision(w2, r, token, a);
    SecretAttempt(w3, Remove(ClaimCert), RemoveClaimCert, a);
    SecretAttempt(Attempt(w3, Remove(ClaimCert), RemoveClaimCert, a), Remove(ClaimKey), RemoveClaimKey, a);
  }

  lemma SecretAnswer(w: World, r: PollResponse, token: string, a: Answers)
    requires SecretInv(w) && w.record.claimState == PairingPending && w.record.pendingCertificateID == ""
    requires Holds(w, token)
    ensures SecretInv(HandlePollAnswer(w, r, token, a))
  {
    hide SecretInv, Attempt, Degrade, HandleApprovedClaim, Pending, Approved, SaysClaimed, SaysRevoked, Expired,
         PendingExpired;
    SecretDegrade(w, HomesignalPairingClaimedWithoutLocalFinalization);
    SecretDegrade(w, HomesignalPairingStatusUnknown);
    SecretRecord(w, Abandon(w));
    SecretSave(Abandon(w), SavePoll, a);
    SecretSave(w, SavePoll, a);
    var v := w.(record := w.record.(claimState := Revoked, revokedAt := Some(a.now)));
    SecretRecord(w, v);
    SecretSave(v, SavePoll, a);
    SecretApproved(w, r, token, a);
  }

  lemma SecretAsk(w: World, ask: Effect)
    requires SecretInv(w) && w.record.claimState == PairingPending && PollToken in w.disk.files
    requires ask.AskPoll? && ask == AskPoll(w.record.pairingSessionID, w.disk.files[PollToken], ask.polled)
    ensures SecretInv(Do(w, ask)) && SameToken(w, Do(w, ask))
  {
    hide Certified, Presentable, Tampered, SecretLawful, DiskOf;
    SecretDo(w, ask);
  }

  lemma SecretPoll(w: World, a: Answers)
    requires SecretInv(w) && w.record.claimState == PairingPending && w.record.pendingCertificateID == ""
    ensures SecretInv(PollPairingSession(w, a))
  {
    hide SecretInv, Degrade, HandlePollAnswer;
    SecretDegrade(w, HomesignalEnrollmentUnconfigured);
    SecretDegrade(w, PollTokenUnavailable);
    if TokenReadable(w, a) {
      var ask := AskPoll(w.record.pairingSessionID, w.disk.files[PollToken], a.poll);
      SecretAsk(w, ask);
      SecretDegrade(Do(w, ask), HomesignalPairingPollFailed);
      if a.poll.Some? {
        var v := Refresh(Do(w, ask), a.poll.value);
        SecretRecord(Do(w, ask), v);
        SecretAnswer(v, a.poll.value, w.disk.files[PollToken], a);
      }
    }
  }

  lemma SecretStatus(w: World, a: Answers)
    requires SecretInv(w) && w.record.claimState == Claimed
    ensures SecretInv(CheckClaimedStatus(w, a))
  {
    hide SecretInv, Degrade, Attempt, Healthy, SaysRevoked;
    SecretDegrade(w, HomesignalStatusUnavailable);
    SecretPlain(w, AskStatus(w.record.deviceID));
    var w1 := Do(w, AskStatus(w.record.deviceID));
    SecretDegrade(w1, HomesignalStatusUnavailable);
    SecretDegrade(w1, HomesignalDeviceStatusUnknown);
    var v := w1.(record := w1.record.(claimState := Revoked, revokedAt := Some(a.now)));
    SecretRecord(w1, v);
    SecretSave(v, SaveStatus, a);
  }

  lemma SecretWake(w: World, a: Answers)
    requires Inv(w) && SecretInv(w)
    ensures var v := Wake(w, a);
            && SecretInv(v) && v.record.claimState == w.record.claimState
            && v.record.pendingCertificateID == w.record.pendingCertificateID
  {
    StateIsRecognized(w);
    hide Inv, SecretInv;
    SecretPlain(w, Woke(a.now));
    SameAsAwake(Do(w, Woke(a.now)), Wake(w, a));
  }

  lemma SameAsAwake(w: World, v: World)
    requires SecretInv(w) && v.log == w.log && v.disk == w.disk && v.record.claimState == w.record.claimState
    requires v.record.pendingCertificateID == w.record.pendingCertificateID
    requires v.record.pairingSessionID == w.record.pairingSessionID && KeepsNames(w.record, v.record)
    ensures SecretInv(v)
  {
    NameRecord(w, v);
    hide NameInv, KeepsNames, DiskOf, Certified, SecretLawful, Tampered, Fits;
  }

  lemma WhatInvSays(w: World)
    requires Inv(w)
    ensures w.up && Lawful(w.log)
    ensures w.record.claimState == Claimed ==> Tampered(w.log) || HasCredential(w.disk.files)
    ensures w.record.pendingCertificateID != "" ==> w.record.claimState == PairingPending
  {}

  lemma SecretRunOnce(w: World, a: Answers)
    requires Inv(w) && SecretInv(w)
    ensures SecretInv(RunOnce(w, a))
  {
    WhatInvSays(w);
    StateIsRecognized(w);
    SecretWake(w, a);
    ExtendClean(w.log, Woke(a.now));
    hide Inv, SecretInv, Tampered, Lawful, Reconcile;
    SecretReconcile(Wake(w, a), a);
  }

  lemma SecretReconcile(v: World, a: Answers)
    requires SecretInv(v) && !v.record.claimState.Unrecognized?
    requires v.record.claimState == Claimed ==> Tampered(v.log) || HasCredential(v.disk.files)
    requires v.record.pendingCertificateID != "" ==> v.record.claimState == PairingPending
    ensures SecretInv(Reconcile(v, a))
  {
    hide SecretInv, Attempt, Degrade, Tampered, CheckClaimedStatus, CreatePairingSession, PollPairingSession,
         PendingExpired, FinalizeWithToken, Abandon, HasCredential;
    if v.record.claimState == Claimed {
      SecretStatus(v, a);
      if !HasCredential(v.disk.files) { SecretLoses(v, a); }
      CredentialMeans(v.disk.files);
    } else if v.record.claimState == Unclaimed {
      SecretCreate(v, a);
    } else if IsOpenSession(v.record) && PendingExpired(v.record, a.now) {
      SecretAbandons(v, a);
      SecretCreate(Attempt(Abandon(v), Save(Abandon(v).record), SaveExpired, a), a);
    } else if IsOpenSession(v.record) {
      SecretPoll(v, a);
    } else if v.record.claimState == PairingPending {
      SecretDegrade(v, PollTokenUnavailable);
      if TokenReadable(v, a) {
        SecretFinalize(v, v.disk.files[PollToken], a);
      }
    }
  }

  lemma CredentialMeans(files: map<File, string>)
    ensures HasCredential(files) <==> DeviceKey in files && DeviceCert in files
  {}

  lemma SecretLoses(v: World, a: Answers)
    requires SecretInv(v) && v.record.claimState == Claimed && Tampered(v.log)
    ensures var v1 := v.(record := v.record.(claimState := Unclaimed, claimedAt := None));
            var u := Degrade(v1, ClaimedCredentialFilesMissing);
            SecretInv(Attempt(u, Save(u.record), SaveMissing, a))
            && u.record == v.record.(claimState := Unclaimed, claimedAt := None)
  {
    hide SecretInv, Attempt, Degrade, Tampered;
    var v1 := v.(record := v.record.(claimState := Unclaimed, claimedAt := None));
    SecretRecord(v, v1);
    SecretDegrade(v1, ClaimedCredentialFilesMissing);
    SecretSave(Degrade(v1, ClaimedCredentialFilesMissing), SaveMissing, a);
  }

  lemma SecretAbandons(v: World, a: Answers)
    requires SecretInv(v) && IsOpenSession(v.record)
    ensures var u := Attempt(Abandon(v), Save(Abandon(v).record), SaveExpired, a);
            && SecretInv(u) && u.record == Abandon(v).record && u.record.claimState == Unclaimed
            && u.record.pendingCertificateID == ""
  {
    hide SecretInv, Attempt;
    SecretRecord(v, Abandon(v));
    SecretSave(Abandon(v), SaveExpired, a);
  }

  // ---------------------------------------------------------------- starts and runs

  ghost predicate SavedFits(log: seq<Effect>) {
    var d := DiskOf(log);
    SavedNames(log) &&
    (d.saved.Some? ==>
      && (d.saved.value.pendingCertificateID != "" ==> Certified(log, d.saved.value.pendingCertificateID))
      && (d.saved.value.claimState == PairingPending ==> Fits(log, d.saved.value.pairingSessionID)))
  }

  /** On the disk that such a log leaves behind, the saved record fits the secret files. */
  lemma {:induction false} LawfulSecrets(log: seq<Effect>)
    requires SecretLawful(log)
    ensures SavedFits(log)
  {
    if log != [] {
      var rest, e := log[..|log| - 1], log[|log| - 1];
      assert log == rest + [e];
      SecretLawfulPrefix(log, |log| - 1);
      LawfulSecrets(rest);
      assert SecretRule(rest, e);
      hide SavedFits, SecretRule, SecretLawful;
      SavedFitsFurther(rest, e);
    }
  }

  lemma SavedFitsFurther(log: seq<Effect>, e: Effect)
    requires SecretRule(log, e) && SavedFits(log)
    ensures SavedFits(log + [e])
  {
    SavedNamesFurther(log, e);
    hide SavedNames, NameRule, DiskOf, Tampered, Certified, Fits;
    ExtendFold(log, e);
    ExtendClean(log, e);
    var d := DiskOf(log + [e]);
    if d.saved.Some? {
      var r := d.saved.value;
      if e.Save? { SaveFits(log, e); } else {
        if r.pendingCertificateID != "" { CertificateFits(log, e, r.pendingCertificateID); }
        if r.claimState == PairingPending { FitsStays(log, e, r.pairingSessionID); }
      }
    }
  }

  lemma SaveFits(log: seq<Effect>, e: Effect)
    requires SecretRule(log, e) && e.Save?
    ensures e.record.pendingCertificateID != "" ==> Certified(log + [e], e.record.pendingCertificateID)
    ensures e.record.claimState == PairingPending ==> Fits(log + [e], e.record.pairingSessionID)
  {
    hide DiskOf, Tampered, Certified, Fits;
    if e.record.pendingCertificateID != "" { CertifiedStays(log, e, e.record.pendingCertificateID); }
    if e.record.claimState == PairingPending { FitsStays(log, e, e.record.pairingSessionID); }
  }

  lemma CertificateFits(log: seq<Effect>, e: Effect, id: string)
    requires SecretRule(log, e) && Certified(log, id) && id != ""
    requires DiskOf(log).saved.Some? && DiskOf(log).saved.value.pendingCertificateID == id
    ensures Certified(log + [e], id)
  {
    hide DiskOf, Tampered, Issued;
    if e.Write? && e.file == DeviceCert {
      ExtendClean(log, e);
    } else {
      CertifiedStays(log, e, id);
    }
  }

  lemma SecretStart(log: seq<Effect>, boot: Boot)
    requires Lawful(log) && SecretLawful(log) && DiskOf(log).saved.Some?
    ensures SecretInv(Start(log, boot))
  {
    hide DiskOf, Tampered, Certified, SecretLawful, Lawful, Start, Fits;
    LawfulSecrets(log);
    StartReloads(log, boot);
  }

  lemma SecretFirstStart(boot: Boot)
    ensures SecretInv(Start([], boot))
  {
    var w := World(true, boot.config, FreshRecord(boot), "", [], None, BLANK_DISK, []);
    assert SecretInv(w);
    SecretDo(w, Save(FreshRecord(boot)));
  }

  lemma SecretStep(w: World, m: Move)
    requires Inv(w) && SecretInv(w)
    ensures SecretInv(Step(w, m))
  {
    WhatInvSays(w);
    hide Inv, SecretInv, RunOnce, DiskOf, Lawful, SecretLawful, Start;
    match m
    case Tick(a) => SecretRunOnce(w, a);
    case Lose(f) => SecretPlain(w, Vanish(f));
    case Crash(a, keep, boot) =>
      SecretRunOnce(w, a);
      CutIsLawful(w, a, keep);
      SecretCut(w, a, keep);
      SecretStart(Cut(w, a, keep), boot);
  }

  lemma SecretCut(w: World, a: Answers, keep: nat)
    requires w.up && SecretInv(RunOnce(w, a))
    ensures SecretLawful(Cut(w, a, keep))
  {
    hide RunOnce, DiskOf, SecretLawful;
    var log := RunOnce(w, a).log;
    if |w.log| + keep < |log| {
      SecretLawfulPrefix(log, |w.log| + keep);
    }
  }

  lemma {:induction false} SecretRun(boot: Boot, moves: seq<Move>)
    ensures SecretInv(Run(boot, moves))
  {
    hide SecretInv;
    if moves == [] {
      SecretFirstStart(boot);
    } else {
      RunKeeps(boot, moves[..|moves| - 1]);
      SecretRun(boot, moves[..|moves| - 1]);
      SecretStep(Run(boot, moves[..|moves| - 1]), moves[|moves| - 1]);
    }
  }

  // ---------------------------------------------------------------- the credential of a claimed device

  /** The confirmation at k made the saved claim, and the files hold the certificate that the
      provisioning at p issued under the confirmed id and the key it was requested with. */
  predicate ClaimedWith(log: seq<Effect>, d: Disk, p: nat, k: nat) {
    && p < k < |log| - 2 && d.saved.Some? && HasCredential(d.files)
    && log[k].AskFinalize? && log[k].verdict == Confirmed
    && log[k + 1] == Remove(PollToken) && log[k + 2] == Save(d.saved.value)
    && IssuedAt(log, p, log[k].certificateID, d.files[DeviceCert], d.files[DeviceKey])
  }

  lemma StillClaimedWith(log: seq<Effect>, e: Effect, p: nat, k: nat)
    requires ClaimedWith(log, DiskOf(log), p, k) && SecretRule(log, e) && SavedAs(DiskOf(log), Claimed)
    requires !e.Save? && !Tampered(log + [e])
    ensures ClaimedWith(log + [e], DiskOf(log + [e]), p, k)
  {
    hide DiskOf, Tampered;
    ExtendFold(log, e);
    ExtendClean(log, e);
  }

  lemma {:induction false} ConfirmedCertificate(log: seq<Effect>) returns (p: nat, k: nat)
    requires Lawful(log) && SecretLawful(log) && SavedAs(DiskOf(log), Claimed) && !Tampered(log)
    ensures ClaimedWith(log, DiskOf(log), p, k)
  {
    var rest, e := log[..|log| - 1], log[|log| - 1];
    assert log == rest + [e];
    ExtendFold(rest, e);
    ExtendClean(rest, e);
    assert SecretRule(rest, e);
    hide DiskOf, Tampered, Lawful, SecretLawful, SecretRule, ClaimedWith;
    if e.Save? {
      k := |log| - 3;
      p := JustConfirmed(log);
    } else {
      LawfulPrefix(log, |log| - 1);
      SecretLawfulPrefix(log, |log| - 1);
      p, k := ConfirmedCertificate(rest);
      StillClaimedWith(rest, e, p, k);
    }
  }

  lemma JustConfirmed(log: seq<Effect>) returns (p: nat)
    requires Lawful(log) && SecretLawful(log) && !Tampered(log)
    requires log != [] && log[|log| - 1].Save? && log[|log| - 1].record.claimState == Claimed
    ensures |log| >= 3 && ClaimedWith(log, DiskOf(log), p, |log| - 3)
  {
    hide DiskOf, Tampered, Lawful, SecretRule;
    var n := |log|;
    ClaimEndsAConfirmation(log);
    var l, ask := log[..n - 3], log[n - 3];
    assert SecretRule(l, ask);
    assert log == l + [ask] + [log[n - 2]] + [log[n - 1]];
    ThreeMore(l, ask, log[n - 2], log[n - 1]);
    p := AskedWith(l, ask);
  }

  lemma AskedWith(l: seq<Effect>, ask: Effect) returns (p: nat)
    requires SecretRule(l, ask) && ask.AskFinalize? && !Tampered(l)
    ensures var files := DiskOf(l).files;
            HasCredential(files) && IssuedAt(l, p, ask.certificateID, files[DeviceCert], files[DeviceKey])
  {
    hide DiskOf, Tampered, Presentable;
    var files := DiskOf(l).files;
    p :| 0 <= p < |l| && IssuedAt(l, p, ask.certificateID, files[DeviceCert], files[DeviceKey]);
  }

  lemma ThreeMore(l: seq<Effect>, ask: Effect, removal: Effect, save: Effect)
    requires ask.AskFinalize? && removal == Remove(PollToken) && save.Save?
    ensures var log := l + [ask] + [removal] + [save];
            && DiskOf(log) == Apply(Apply(DiskOf(l), removal), save)
            && (Tampered(l) ==> Tampered(log))
  {
    hide DiskOf, Tampered;
    ExtendFold(l, ask);
    ExtendFold(l + [ask], removal);
    ExtendFold(l + [ask] + [removal], save);
    ExtendClean(l, ask);
    ExtendClean(l + [ask], removal);
    ExtendClean(l + [ask] + [removal], save);
  }

  /** At every moment of every run: the certificate of a claimed device is the one that was issued
      under the id the cloud confirmed when it was claimed, and its key the one this certificate
      was requested with, unless others deleted credentials. */
  lemma ClaimedCertificateIsTheConfirmedOne(boot: Boot, moves: seq<Move>, n: nat)
    requires n <= |Run(boot, moves).log|
    ensures var log := Run(boot, moves).log[..n];
            SavedAs(DiskOf(log), Claimed) && !Tampered(log) ==> exists p, k :: ClaimedWith(log, DiskOf(log), p, k)
  {
    RunKeeps(boot, moves);
    SecretRun(boot, moves);
    var log := Run(boot, moves).log[..n];
    LawfulPrefix(Run(boot, moves).log, n);
    SecretLawfulPrefix(Run(boot, moves).log, n);
    hide Run, DiskOf, Tampered, Inv, SecretInv, Lawful, SecretLawful;
    if SavedAs(DiskOf(log), Claimed) && !Tampered(log) {
      var p, k := ConfirmedCertificate(log);
    }
  }

  /** And a certificate that is saved as awaiting its confirmation is the one on the disk, beside
      the key it was requested with. */
  lemma PendingCertificateIsOnTheDisk(boot: Boot, moves: seq<Move>, n: nat)
    requires n <= |Run(boot, moves).log|
    ensures var log := Run(boot, moves).log[..n];
            var d := DiskOf(log);
            d.saved.Some? && d.saved.value.pendingCertificateID != "" && !Tampered(log) ==>
              HasCredential(d.files)
              && Issued(log, d.saved.value.pendingCertificateID, d.files[DeviceCert], d.files[DeviceKey])
  {
    SecretRun(boot, moves);
    SecretLawfulPrefix(Run(boot, moves).log, n);
    hide Run, DiskOf, Tampered, Issued, Fits;
    LawfulSecrets(Run(boot, moves).log[..n]);
  }

  // ---------------------------------------------------------------- the tokens of sessions

  /** In every run: unless tokens were crossed before, a session is polled, and a claim confirmed,
      with the very token with which the cloud opened the session. */
  lemma TokensAreTheSessionsOwn(boot: Boot, moves: seq<Move>, n: nat)
    requires n < |Run(boot, moves).log| && !Crossed(Run(boot, moves).log[..n])
    ensures var log := Run(boot, moves).log;
            && (log[n].AskPoll? ==> Granted(log[..n], log[n].session, log[n].token))
            && (log[n].AskFinalize? ==> Granted(log[..n], log[n].session, log[n].token))
  {
    hide Run, Granted, Crossed;
    SecretRun(boot, moves);
    TokenRule(Run(boot, moves), n);
  }

  lemma TokenRule(w: World, n: nat)
    requires SecretInv(w) && n < |w.log| && !Crossed(w.log[..n])
    ensures w.log[n].AskPoll? || w.log[n].AskFinalize? ==> Granted(w.log[..n], w.log[n].session, w.log[n].token)
  {
    hide DiskOf, Tampered, Certified, Granted, Crossed;
    assert SecretRule(w.log[..n], w.log[n]);
  }

  /** Without failed file operations tokens are never crossed. */
  lemma CleanIsNotCrossed(log: seq<Effect>)
    requires Lawful(log) && Clean(log)
    ensures !Crossed(log)
  {
    forall i | 0 <= i < |log| ensures !CrossedAt(log, i) {
      CleanPrefix(log, i);
      assert Rule(log[..i], log[i]);
      hide DiskOf, Lawful, Bound, Clean, ClockForward, Tampered, RecordOK;
    }
  }

  /** A saved session that is still being polled has its poll token beside it, the one with which
      the cloud opened this session, unless a file operation has failed or somebody else deleted
      the token; and unless tokens were crossed, a token that is there is the session's own. */
  lemma SavedSessionHasItsToken(boot: Boot, moves: seq<Move>, n: nat)
    requires n <= |Run(boot, moves).log|
    ensures var log := Run(boot, moves).log[..n];
            var d := DiskOf(log);
            && (d.saved.Some? && IsOpenSession(d.saved.value) && Clean(log) ==>
                  !Crossed(log) && (PollToken in d.files || Vanish(PollToken) in log))
            && (SavedAs(d, PairingPending) && PollToken in d.files && !Crossed(log) ==>
                  Granted(log, d.saved.value.pairingSessionID, d.files[PollToken]))
  {
    RunKeeps(boot, moves);
    SecretRun(boot, moves);
    var log := Run(boot, moves).log[..n];
    LawfulPrefix(Run(boot, moves).log, n);
    LawfulDisk(log);
    SecretLawfulPrefix(Run(boot, moves).log, n);
    LawfulSecrets(log);
    hide Run, DiskOf, Tampered, Certified, Granted, Crossed, Lawful, SecretLawful, Inv, SecretInv, Clean, RecordOK;
    if Clean(log) { CleanIsNotCrossed(log); }
  }

  // ---------------------------------------------------------------- when tokens are crossed

  ghost predicate Crosses(w: World, a: Answers) {
    var m := RunOnce(w, a).log;
    exists i :: |w.log| <= i < |m| && CrossedAt(m, i)
  }

  /** A pass crosses tokens exactly when it stores the token of a new session while the saved
      record is still that of another one: because the save that gives up the other one does not
      take effect in this pass, or did not in an earlier one. */
  lemma CrossesExactlyWhen(w: World, a: Answers)
    requires Inv(w)
    ensures Crosses(w, a) <==>
            StoresToken(w, a) && SavedAs(w.disk, PairingPending)
            && !(IsOpenSession(w.record) && Outcome(a, SaveExpired).Applied())
  {
    hide Inv, RunOnce, CrossedAt, StoresToken, IsOpenSession, Polls;
    if StoresToken(w, a) {
      StoredIsThere(w, a);
      var i := CreatingPass(w, a);
      var m := RunOnce(w, a).log;
      forall k | |w.log| <= k < |m| ensures CrossedAt(m, k) ==> k == i { OnlyWritesCross(m, k); }
    } else {
      var m := RunOnce(w, a).log;
      forall k | |w.log| <= k < |m| ensures !CrossedAt(m, k) {
        PassIsQuiet(w, a, TokenWrite, k);
        OnlyWritesCross(m, k);
      }
    }
  }

  lemma StoredIsThere(w: World, a: Answers)
    requires StoresToken(w, a)
    ensures a.create.Some?
  {}

  lemma OnlyWritesCross(m: seq<Effect>, k: nat)
    ensures CrossedAt(m, k) ==> k < |m| && WritesToken(m[k]) && !m[k].AskPoll?
  {
    hide DiskOf;
  }

  /** What a pass that opens a session adds to the log: nothing about tokens or the record before
      the token, and no token after it. */
  lemma CreateStores(w: World, a: Answers) returns (pre: seq<Effect>, post: seq<Effect>)
    requires OpensSession(w, a)
    ensures CreatePairingSession(w, a).log == w.log + pre + [Write(PollToken, a.create.value.pollToken)] + post
    ensures forall k :: 0 <= k < |pre| ==> !pre[k].Save? && !WritesToken(pre[k])
    ensures forall k :: 0 <= k < |post| ==> !WritesToken(post[k])
  {
    var r := a.create.value;
    EnsuredKey(w, a);
    hide AddReason, Keyed, OpenSession, Attempt;
    var w1 := EnsureKey(w, a).0;
    var w2 := Do(w1, AskCreate(w.record.installationID, a.create));
    var e := Write(PollToken, r.pollToken);
    AttemptAdds(w, Write(DeviceKey, a.newKey), WriteKey, a);
    AttemptAdds(w2, e, WriteToken, a);
    var w3 := OpenSession(Attempt(w2, e, WriteToken, a), r);
    OpeningKeepsLog(Attempt(w2, e, WriteToken, a), r);
    AttemptAdds(w3, Save(w3.record), SaveSession, a);
    pre := w2.log[|w.log|..];
    post := CreatePairingSession(w, a).log[|w2.log| + 1..];
    assert w2.log == w.log + pre;
  }

  lemma OpeningKeepsLog(w: World, r: CreateResponse)
    ensures OpenSession(w, r).log == w.log
  {}

  lemma {:induction false} SavedSurvives(l: seq<Effect>, q: seq<Effect>)
    requires forall k :: 0 <= k < |q| ==> !q[k].Save?
    ensures DiskOf(l + q).saved == DiskOf(l).saved
  {
    if q == [] {
      assert l + q == l;
    } else {
      SavedSurvives(l, q[..|q| - 1]);
      assert l + q == l + q[..|q| - 1] + [q[|q| - 1]];
      ExtendFold(l + q[..|q| - 1], q[|q| - 1]);
    }
  }

  /** The world in which the session is asked for, and how the log got there. */
  lemma CreatingFrom(w: World, a: Answers) returns (u: World, q: seq<Effect>)
    requires Inv(w) && StoresToken(w, a)
    ensures RunOnce(w, a) == CreatePairingSession(u, a) && OpensSession(u, a)
    ensures u.log == w.log + q && forall k :: 0 <= k < |q| ==> !WritesToken(q[k])
    ensures DiskOf(u.log).saved == if IsOpenSession(w.record) && Outcome(a, SaveExpired).Applied() then Some(u.record)
                                   else w.disk.saved
    ensures u.record.claimState == Unclaimed
  {
    hide Inv, OpensSession, DiskOf, Wake, PendingExpired, TokenReadable, RemovesToken, Lawful, Reconcile;
    StateIsRecognized(w);
    InvIsLawful(w);
    SameWhenAwake(w, a);
    var v := Wake(w, a);
    ExtendFold(w.log, Woke(a.now));
    if v.record.claimState == Unclaimed {
      u, q := v, [Woke(a.now)];
      UnclaimedCreates(v, a);
    } else {
      u, q := ExpiredFrom(v, a);
      q := [Woke(a.now)] + q;
      assert w.log + q == v.log + q[1..];
    }
  }

  lemma ExpiredFrom(v: World, a: Answers) returns (u: World, q: seq<Effect>)
    requires IsOpenSession(v.record) && PendingExpired(v.record, a.now) && OpensSession(v, a)
    ensures Reconcile(v, a) == CreatePairingSession(u, a) && OpensSession(u, a)
    ensures u.log == v.log + q && forall k :: 0 <= k < |q| ==> !WritesToken(q[k])
    ensures DiskOf(u.log).saved == if Outcome(a, SaveExpired).Applied() then Some(u.record) else DiskOf(v.log).saved
    ensures u.record.claimState == Unclaimed
  {
    hide CreatePairingSession, PollPairingSession, FinalizeClaim, CheckClaimedStatus, OpensSession, DiskOf;
    QuietIsReflexive(v, TokenWrite);
    AbandoningSession(v.log, v, a, TokenWrite);
    AbandonedIsUnclaimed(v);
    var w := Abandon(v);
    u := Attempt(w, Save(w.record), SaveExpired, a);
    AttemptAdds(w, Save(w.record), SaveExpired, a);
    q := Added(Save(w.record), SaveExpired, a);
    SavedAfter(v.log, w.record, a);
  }

  lemma SavedAfter(l: seq<Effect>, r: Record, a: Answers)
    ensures DiskOf(l + Added(Save(r), SaveExpired, a)).saved ==
            if Outcome(a, SaveExpired).Applied() then Some(r) else DiskOf(l).saved
  {
    hide DiskOf;
    ExtendFold(l, Save(r));
    ExtendFold(l, Fail(SaveExpired));
    ExtendFold(l + [Save(r)], Fail(SaveExpired));
    assert l + [Save(r)] + [Fail(SaveExpired)] == l + [Save(r), Fail(SaveExpired)];
  }

  lemma CreatingPass(w: World, a: Answers) returns (i: nat)
    requires Inv(w) && a.create.Some? && StoresToken(w, a)
    ensures var m := RunOnce(w, a).log;
            && |w.log| <= i < |m| && m[i] == Write(PollToken, a.create.value.pollToken)
            && (forall k :: |w.log| <= k < |m| && WritesToken(m[k]) ==> k == i)
            && DiskOf(m[..i + 1]) == Apply(DiskOf(m[..i]), m[i])
            && (CrossedAt(m, i) <==>
                SavedAs(w.disk, PairingPending) && !(IsOpenSession(w.record) && Outcome(a, SaveExpired).Applied()))
            && (CrossedAt(m, i) ==> DiskOf(m[..i]).saved == w.disk.saved)
  {
    hide Inv, RunOnce, DiskOf, CreatePairingSession, OpensSession, CrossedAt, StoresToken;
    var e := Write(PollToken, a.create.value.pollToken);
    var u, q := CreatingFrom(w, a);
    var pre, post := CreateStores(u, a);
    i := |u.log| + |pre|;
    TokenWrittenAt(RunOnce(w, a).log, w.log, q, pre, e, post);
    hide IsOpenSession, SavedAs, Outcome, Apply;
    SavedThere(DiskOf(u.log), w.disk, u.record, IsOpenSession(w.record) && Outcome(a, SaveExpired).Applied());
  }

  lemma TokenWrittenAt(m: seq<Effect>, l: seq<Effect>, q: seq<Effect>, pre: seq<Effect>, e: Effect, post: seq<Effect>)
    requires m == l + q + pre + [e] + post && e.Write? && e.file == PollToken
    requires forall k :: 0 <= k < |q| ==> !WritesToken(q[k])
    requires forall k :: 0 <= k < |pre| ==> !pre[k].Save? && !WritesToken(pre[k])
    requires forall k :: 0 <= k < |post| ==> !WritesToken(post[k])
    ensures var i := |l| + |q| + |pre|;
            && i < |m| && m[i] == e && (forall k :: |l| <= k < |m| && WritesToken(m[k]) ==> k == i)
            && DiskOf(m[..i + 1]) == Apply(DiskOf(m[..i]), e) && DiskOf(m[..i]).saved == DiskOf(l + q).saved
            && (CrossedAt(m, i) <==> SavedAs(DiskOf(l + q), PairingPending))
  {
    hide DiskOf, CrossedAt, WritesToken;
    OnlyOneWrite(l, q, pre, e, post);
    ExtendFold(l + q + pre, e);
    SavedSurvives(l + q, pre);
    CrossedThere(l + q + pre, e, post);
  }

  lemma SavedThere(d: Disk, earlier: Disk, r: Record, gone: bool)
    requires d.saved == (if gone then Some(r) else earlier.saved) && r.claimState == Unclaimed
    ensures SavedAs(d, PairingPending) <==> SavedAs(earlier, PairingPending) && !gone
    ensures SavedAs(d, PairingPending) ==> d.saved == earlier.saved
  {}

  lemma OnlyOneWrite(l: seq<Effect>, q: seq<Effect>, pre: seq<Effect>, e: Effect, post: seq<Effect>)
    requires forall k :: 0 <= k < |q| ==> !WritesToken(q[k])
    requires forall k :: 0 <= k < |pre| ==> !WritesToken(pre[k])
    requires forall k :: 0 <= k < |post| ==> !WritesToken(post[k])
    ensures var m, i := l + q + pre + [e] + post, |l| + |q| + |pre|;
            && m[i] == e && m[..i] == l + q + pre && m[..i + 1] == l + q + pre + [e]
            && forall k :: |l| <= k < |m| && WritesToken(m[k]) ==> k == i
  {
    hide WritesToken;
    var m, i := l + q + pre + [e] + post, |l| + |q| + |pre|;
    forall k | |l| <= k < |m| && k != i ensures !WritesToken(m[k]) {
      if k < |l| + |q| {
        assert m[k] == q[k - |l|];
      } else if k < i {
        assert m[k] == pre[k - |l| - |q|];
      } else {
        assert m[k] == post[k - i - 1];
      }
    }
  }

  lemma CrossedThere(l: seq<Effect>, e: Effect, post: seq<Effect>)
    requires e.Write? && e.file == PollToken
    ensures CrossedAt(l + [e] + post, |l|) <==> SavedAs(DiskOf(l), PairingPending)
  {
    hide DiskOf;
    assert (l + [e] + post)[..|l|] == l && (l + [e] + post)[|l|] == e;
  }

  /** And then the mistake comes true: stopped right after the token was stored, the agent starts
      again with the saved session and presents the token of the other one for it. */
  lemma CrossedTokenIsPresented(w: World, a: Answers, again: Boot, next: Answers)
    requires Inv(w) && w.disk.saved.Some? && IsOpenSession(w.disk.saved.value)
    requires StoresToken(w, a) && !(IsOpenSession(w.record) && Outcome(a, SaveExpired).Applied())
    requires again.config.homeSignal && !Fails(next, ReadToken) && !PendingExpired(w.disk.saved.value, next.now)
    ensures exists keep: nat ::
              AskPoll(w.disk.saved.value.pairingSessionID, a.create.value.pollToken, next.poll)
              in RunOnce(Step(w, Crash(a, keep, again)), next).log
  {
    var r, token := w.disk.saved.value, a.create.value.pollToken;
    hide Inv, RunOnce, DiskOf, Lawful, Start, StoresToken, PendingExpired;
    var i := CreatingPass(w, a);
    InvIsLawful(w);
    var m := RunOnce(w, a).log;
    var keep := i + 1 - |w.log|;
    CutIsLawful(w, a, keep);
    assert Cut(w, a, keep) == m[..i + 1];
    hide Cut;
    CrashIsStart(w, a, keep, again);
    StartReloads(m[..i + 1], again);
    StartHasConfig(m[..i + 1], again);
    PollIsLogged(Step(w, Crash(a, keep, again)), next);
    assert AskPoll(r.pairingSessionID, token, next.poll) in RunOnce(Step(w, Crash(a, keep, again)), next).log;
  }

  lemma StartHasConfig(log: seq<Effect>, boot: Boot)
    ensures Start(log, boot).config == boot.config
  {
    hide DiskOf;
  }

  lemma PollIsLogged(w: World, a: Answers)
    requires IsOpenSession(w.record) && !PendingExpired(w.record, a.now) && w.config.homeSignal && TokenReadable(w, a)
    ensures AskPoll(w.record.pairingSessionID, w.disk.files[PollToken], a.poll) in RunOnce(w, a).log
  {
    SameWhenAwake(w, a);
    var v := Wake(w, a);
    LivePoll(v, a);
    hide HandlePollAnswer, AddReason, Reconcile, Wake, PendingExpired;
    var ask := AskPoll(v.record.pairingSessionID, v.disk.files[PollToken], a.poll);
    assert ask == Do(v, ask).log[|v.log|];
    if a.poll.Some? {
      QuietAnswerGrows(Refresh(Do(v, ask), a.poll.value), a.poll.value, v.disk.files[PollToken], a);
    }
  }

  lemma QuietAnswerGrows(v: World, r: PollResponse, token: string, a: Answers)
    ensures v.log <= HandlePollAnswer(v, r, token, a).log
  {
    QuietIsReflexive(v, TokenWrite);
    QuietAnswer(v.log, v, r, token, a, TokenWrite);
    hide HandlePollAnswer;
  }
}
