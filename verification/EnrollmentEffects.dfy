/**
 Which effects a pass has: what it polls, what it does to the claim files and to the poll token,
 and what it leaves alone.
 */
module EnrollmentEffects {
  import opened Common
  import opened Enrollment
  import opened EnrollmentSafety

  // ---------------------------------------------------------------- attempts

  /** What an attempt adds to the log. */
  function Added(e: Effect, site: Site, a: Answers): seq<Effect> {
    match Outcome(a, site)
    case Works => [e]
    case FailsBefore => [Fail(site)]
    case FailsAfter => [e, Fail(site)]
  }

  /** How many entries an attempt makes in the log. */
  function Entries(f: Fault): nat {
    if f.FailsAfter? then 2 else 1
  }

  lemma AttemptAdds(w: World, e: Effect, site: Site, a: Answers)
    ensures Attempt(w, e, site, a).log == w.log + Added(e, site, a)
    ensures var v := Attempt(w, e, site, a); v.(disk := w.disk, log := w.log) == w
  {}

  // ---------------------------------------------------------------- conditions on a pass

  /** The pass polls and gets an answer. */
  predicate Polls(w: World, a: Answers) {
    && IsOpenSession(w.record) && !PendingExpired(w.record, a.now)
    && w.config.homeSignal && TokenReadable(w, a) && a.poll.Some?
  }

  /** The pass asks for a new session, if nothing is in its way. */
  predicate Creates(w: World, a: Answers) {
    w.record.claimState == Unclaimed || (IsOpenSession(w.record) && PendingExpired(w.record, a.now))
  }

  predicate Handles(v: World, r: PollResponse, a: Answers) {
    && r.deviceID != "" && r.claimCertificate != "" && r.claimKey != "" && v.config.awsIoT
    && (r.claimExpiresAt == ZERO_TIME || a.now < r.claimExpiresAt)
  }

  /** The pass gets as far as storing the claim material of an approval. */
  predicate HandlesApproval(w: World, a: Answers) {
    Polls(w, a) && Approved(a.poll.value.status) && Handles(w, a.poll.value, a)
  }

  /** Both claim files are written without an error. */
  predicate BothStored(a: Answers) {
    !Fails(a, WriteClaimCert) && !Fails(a, WriteClaimKey)
  }

  predicate Keyed(w: World, a: Answers) {
    (if DeviceKey in w.disk.files then a.keyParses else !Fails(a, WriteKey)) && a.csrWorks
  }

  /** A new session is opened by the cloud, and its token reaches the disk. */
  predicate OpensSession(w: World, a: Answers) {
    && w.config.homeSignal && Keyed(w, a) && a.create.Some?
    && a.create.value.sessionID != "" && a.create.value.pairingCode != "" && a.create.value.pollToken != ""
    && Outcome(a, WriteToken).Applied()
  }

  predicate StoresToken(w: World, a: Answers) {
    Creates(w, a) && OpensSession(w, a)
  }

  /** The provisioner's certificate is stored and its id saved. */
  predicate Provisions(a: Answers) {
    && a.provision.Some? && a.provision.value.certificate != "" && a.provision.value.certificateID != ""
    && !Fails(a, WriteCert) && !Fails(a, SaveProvisioned)
  }

  /** The cloud confirms, and the removal of the token takes effect. */
  predicate RemovesToken(w: World, a: Answers) {
    w.config.homeSignal && VerdictOf(a.finalize) == Confirmed && Outcome(a, RemoveToken).Applied()
  }

  // ---------------------------------------------------------------- what a pass leaves alone

  predicate TouchesClaim(e: Effect) {
    (e.Write? || e.Remove? || e.Vanish?) && (e.file == ClaimCert || e.file == ClaimKey)
  }

  predicate WritesToken(e: Effect) {
    e.Write? && e.file == PollToken
  }

  predicate DropsToken(e: Effect) {
    e == Remove(PollToken) || e == Vanish(PollToken)
  }

  /** The requests that a pass of this world may make, and with what in them. */
  predicate MayAsk(w: World, a: Answers, e: Effect) {
    match e
    case AskCreate(installationID, answer) => installationID == w.record.installationID && answer == a.create
    case AskPoll(session, token, polled) =>
      PollToken in w.disk.files && session == w.record.pairingSessionID && token == w.disk.files[PollToken]
      && polled == a.poll
    case AskProvision(session, template, deviceID, thing, key, provisioned) =>
      && Polls(w, a) && Approved(a.poll.value.status) && session == w.record.pairingSessionID
      && template == (if a.poll.value.template != "" then a.poll.value.template else w.config.template)
      && deviceID == a.poll.value.deviceID && thing == a.poll.value.iotThingName
      && key == (if DeviceKey in w.disk.files then w.disk.files[DeviceKey] else a.newKey)
      && provisioned == a.provision
    case AskFinalize(session, token, deviceID, thing, certificateID, certificateARN, verdict, finalized) =>
      && PollToken in w.disk.files && session == w.record.pairingSessionID && token == w.disk.files[PollToken]
      && finalized == a.finalize && verdict == VerdictOf(finalized)
      && if w.record.pendingCertificateID != "" then
           && certificateID == w.record.pendingCertificateID && certificateARN == w.record.pendingCertificateARN
           && deviceID == w.record.pendingDeviceID && thing == w.record.pendingIoTThingName
         else
           && Polls(w, a) && a.provision.Some?
           && var r, p := a.poll.value, a.provision.value;
              && certificateID == p.certificateID && certificateARN == p.certificateARN
              && deviceID == (if p.deviceID != "" then p.deviceID else r.deviceID)
              && thing == (if p.iotThingName != "" then p.iotThingName else r.iotThingName)
    case AskStatus(deviceID) => deviceID == w.record.deviceID
    case _ => true
  }

  datatype Topic = Claiming | TokenWrite | TokenRemoval | Unasked(w: World, a: Answers)

  predicate About(e: Effect, t: Topic) {
    match t
    case Claiming => e.AskPoll? || TouchesClaim(e)
    case TokenWrite => WritesToken(e)
    case TokenRemoval => DropsToken(e)
    case Unasked(w, a) => !MayAsk(w, a, e)
  }

  /** The approval is handled in the pass that the topic speaks of. */
  predicate Within(t: Topic, w: World, r: PollResponse, token: string, a: Answers) {
    t.Unasked? ==>
      && t.a == a && Polls(t.w, a) && a.poll == Some(r) && Approved(r.status)
      && t.w.record.pendingCertificateID == "" && t.w.record.pairingSessionID == w.record.pairingSessionID
      && t.w.config == w.config && PollToken in t.w.disk.files && t.w.disk.files[PollToken] == token
      && (if DeviceKey in t.w.disk.files
          then DeviceKey in w.disk.files && w.disk.files[DeviceKey] == t.w.disk.files[DeviceKey]
          else DeviceKey in w.disk.files ==> w.disk.files[DeviceKey] == a.newKey)
  }

  /** From l to m no effect is about the topic. */
  ghost predicate Quiet(l: seq<Effect>, m: seq<Effect>, t: Topic) {
    l <= m && forall i :: |l| <= i < |m| ==> !About(m[i], t)
  }

  lemma QuietIsReflexive(w: World, t: Topic)
    ensures Quiet(w.log, w.log, t)
  {}

  lemma QuietDo(l: seq<Effect>, w: World, e: Effect, t: Topic)
    requires Quiet(l, w.log, t) && !About(e, t)
    ensures Quiet(l, Do(w, e).log, t)
  {}

  lemma QuietAttempt(l: seq<Effect>, w: World, e: Effect, site: Site, a: Answers, t: Topic)
    requires Quiet(l, w.log, t) && (Outcome(a, site).Applied() ==> !About(e, t))
    ensures Quiet(l, Attempt(w, e, site, a).log, t)
  {
    hide Quiet, Do;
    if Outcome(a, site).Applied() {
      QuietDo(l, w, e, t);
      QuietDo(l, Do(w, e), Fail(site), t);
    }
    QuietDo(l, w, Fail(site), t);
  }

  lemma EnsuredKey(w: World, a: Answers)
    ensures EnsureKey(w, a).1 ==> DeviceKey in EnsureKey(w, a).0.disk.files
    ensures EnsureKey(w, a).1 && a.csrWorks <==> Keyed(w, a)
  {}

  lemma QuietKey(l: seq<Effect>, w: World, a: Answers, t: Topic)
    requires Quiet(l, w.log, t)
    ensures Quiet(l, EnsureKey(w, a).0.log, t)
  {
    hide Quiet, Attempt;
    QuietAttempt(l, w, Write(DeviceKey, a.newKey), WriteKey, a, t);
  }

  lemma QuietCreate(l: seq<Effect>, w: World, a: Answers, t: Topic)
    requires Quiet(l, w.log, t) && (t == TokenWrite ==> !OpensSession(w, a))
    requires !About(AskCreate(w.record.installationID, a.create), t)
    ensures Quiet(l, CreatePairingSession(w, a).log, t)
  {
    hide Quiet, Attempt, Do, EnsureKey, AddReason, Keyed;
    QuietKey(l, w, a, t);
    EnsuredKey(w, a);
    var (w1, keyed) := EnsureKey(w, a);
    QuietDo(l, w1, AskCreate(w.record.installationID, a.create), t);
    if keyed && a.csrWorks && w.config.homeSignal && a.create.Some? {
      var w2 := Do(w1, AskCreate(w.record.installationID, a.create));
      var r := a.create.value;
      if r.sessionID != "" && r.pairingCode != "" && r.pollToken != "" {
        QuietAttempt(l, w2, Write(PollToken, r.pollToken), WriteToken, a, t);
        var w3 := OpenSession(Attempt(w2, Write(PollToken, r.pollToken), WriteToken, a), r);
        QuietAttempt(l, w3, Save(w3.record), SaveSession, a, t);
      }
    }
  }

  lemma QuietFinalize(l: seq<Effect>, w: World, token: string, a: Answers, t: Topic)
    requires Quiet(l, w.log, t) && (t == TokenRemoval ==> !RemovesToken(w, a))
    requires !About(FinalizeRequest(w.record, token, a.finalize), t)
    ensures Quiet(l, FinalizeWithToken(w, token, a).log, t)
  {
    hide Quiet, Attempt, Do, AddReason, ClearPending, SaysClaimed, Refused;
    var verdict := VerdictOf(a.finalize);
    QuietDo(l, w, FinalizeRequest(w.record, token, a.finalize), t);
    var w1 := Do(w, FinalizeRequest(w.record, token, a.finalize));
    match verdict
    case NoReply => QuietAttempt(l, w1, Save(w1.record), SaveAwaiting, a, t);
    case Undecided =>
    case Denied =>
      var r := ClearPending(w1.record.(claimState := Revoked, revokedAt := Some(a.now)));
      QuietAttempt(l, w1.(record := r, pairingCode := ""), Save(r), SaveSettled, a, t);
    case Confirmed =>
      if w.config.homeSignal && a.finalize.Some? {
        var w2 := w1.(record := ClaimedRecord(w1.record, a.finalize.value, a.now), pairingCode := "");
        QuietAttempt(l, w2, Remove(PollToken), RemoveToken, a, t);
        var w3 := Attempt(w2, Remove(PollToken), RemoveToken, a);
        QuietAttempt(l, w3, Save(w3.record), SaveSettled, a, t);
      }
  }

  lemma ProvisioningWithin(t: Topic, w: World, r: PollResponse, token: string, a: Answers)
    requires Within(t, w, r, token, a) && DeviceKey in w.disk.files
    ensures !About(ProvisionRequest(w, r, a), t)
  {
    hide Approved;
  }

  lemma FinalizingWithin(t: Topic, w: World, r: PollResponse, token: string, a: Answers, u: World)
    requires Within(t, w, r, token, a) && a.provision.Some? && u.record == w.record
    ensures !About(FinalizeRequest(RecordProvisioning(u, r, a.provision.value).record, token, a.finalize), t)
  {
    hide Approved, VerdictOf;
  }

  lemma QuietRequest(l: seq<Effect>, w: World, r: PollResponse, token: string, a: Answers, t: Topic)
    requires Quiet(l, w.log, t) && DeviceKey in w.disk.files
    requires t == TokenRemoval ==> !(Provisions(a) && RemovesToken(w, a))
    requires Within(t, w, r, token, a)
    ensures Quiet(l, RequestCertificate(w, r, token, a).log, t)
  {
    ProvisioningWithin(t, w, r, token, a);
    hide Quiet, Attempt, Do, AddReason, FinalizeWithToken, Within, MayAsk, FinalizeRequest;
    var ask := ProvisionRequest(w, r, a);
    QuietDo(l, w, ask, t);
    if a.provision.Some? {
      var p := a.provision.value;
      var w1 := Do(w, ask);
      QuietAttempt(l, w1, Write(DeviceCert, p.certificate), WriteCert, a, t);
      var w2 := RecordProvisioning(Attempt(w1, Write(DeviceCert, p.certificate), WriteCert, a), r, p);
      QuietAttempt(l, w2, Save(w2.record), SaveProvisioned, a, t);
      if Provisions(a) {
        AttemptAdds(w1, Write(DeviceCert, p.certificate), WriteCert, a);
        AttemptAdds(w2, Save(w2.record), SaveProvisioned, a);
        DoChangesNothingElse(w, ask);
        FinalizingWithin(t, w, r, token, a, Attempt(w1, Write(DeviceCert, p.certificate), WriteCert, a));
        QuietFinalize(l, Commit(w2, SaveProvisioned, a), token, a, t);
      }
    }
  }

  lemma DoChangesNothingElse(w: World, e: Effect)
    ensures var v := Do(w, e); v.(disk := w.disk, log := w.log) == w && v.log == w.log + [e]
  {}

  lemma AttemptWithin(t: Topic, w: World, r: PollResponse, token: string, a: Answers, e: Effect, site: Site)
    requires Within(t, w, r, token, a) && (e.Write? || e.Remove?)
    requires e.file == DeviceKey ==> e == Write(DeviceKey, a.newKey) && DeviceKey !in w.disk.files
    ensures Within(t, Attempt(w, e, site, a), r, token, a)
  {
    hide Approved;
  }

  lemma QuietProvision(l: seq<Effect>, w: World, r: PollResponse, token: string, a: Answers, t: Topic)
    requires Quiet(l, w.log, t)
    requires t == TokenRemoval ==> !(Keyed(w, a) && Provisions(a) && RemovesToken(w, a))
    requires Within(t, w, r, token, a)
    ensures Quiet(l, Provision(w, r, token, a).log, t)
  {
    hide Quiet, Attempt, AddReason, RequestCertificate, Provisions;
    QuietKey(l, w, a, t);
    EnsuredKey(w, a);
    var (w1, keyed) := EnsureKey(w, a);
    AttemptAdds(w, Write(DeviceKey, a.newKey), WriteKey, a);
    if DeviceKey !in w.disk.files { AttemptWithin(t, w, r, token, a, Write(DeviceKey, a.newKey), WriteKey); }
    if keyed && a.csrWorks { QuietRequest(l, w1, r, token, a, t); }
  }

  lemma QuietApproved(l: seq<Effect>, w: World, r: PollResponse, token: string, a: Answers, t: Topic)
    requires Quiet(l, w.log, t) && (t == Claiming ==> !Handles(w, r, a))
    requires t == TokenRemoval ==>
               !(Handles(w, r, a) && BothStored(a) && Keyed(w, a) && Provisions(a) && RemovesToken(w, a))
    requires Within(t, w, r, token, a)
    ensures Quiet(l, HandleApprovedClaim(w, r, token, a).log, t)
  {
    hide Quiet, AddReason, Provision, Provisions;
    if Handles(w, r, a) {
      var w1 := Attempt(w, Write(ClaimCert, r.claimCertificate), WriteClaimCert, a);
      QuietAttempt(l, w, Write(ClaimCert, r.claimCertificate), WriteClaimCert, a, t);
      var w2 := Attempt(w1, Write(ClaimKey, r.claimKey), WriteClaimKey, a);
      QuietAttempt(l, w1, Write(ClaimKey, r.claimKey), WriteClaimKey, a, t);
      if BothStored(a) {
        assert Keyed(w2, a) == Keyed(w, a) && RemovesToken(w2, a) == RemovesToken(w, a);
        AttemptWithin(t, w, r, token, a, Write(ClaimCert, r.claimCertificate), WriteClaimCert);
        AttemptWithin(t, w1, r, token, a, Write(ClaimKey, r.claimKey), WriteClaimKey);
        hide Attempt, Within;
        QuietProvision(l, w2, r, token, a, t);
        var w3 := Provision(w2, r, token, a);
        QuietAttempt(l, w3, Remove(ClaimCert), RemoveClaimCert, a, t);
        var w4 := Attempt(w3, Remove(ClaimCert), RemoveClaimCert, a);
        QuietAttempt(l, w4, Remove(ClaimKey), RemoveClaimKey, a, t);
      }
    }
  }

  lemma QuietAnswer(l: seq<Effect>, w: World, r: PollResponse, token: string, a: Answers, t: Topic)
    requires Quiet(l, w.log, t) && (t == Claiming ==> !(Approved(r.status) && Handles(w, r, a)))
    requires t == TokenRemoval && Approved(r.status) ==>
               !(Handles(w, r, a) && BothStored(a) && Keyed(w, a) && Provisions(a) && RemovesToken(w, a))
    requires Approved(r.status) ==> Within(t, w, r, token, a)
    ensures Quiet(l, HandlePollAnswer(w, r, token, a).log, t)
  {
    hide HandleApprovedClaim, AddReason, Attempt, Pending, Approved, SaysClaimed, SaysRevoked, Expired, PendingExpired,
         Handles, Quiet, Keyed, Provisions, RemovesToken;
    if Pending(r.status) {
      var u := if PendingExpired(w.record, a.now) then Abandon(w) else w;
      QuietAttempt(l, u, Save(u.record), SavePoll, a, t);
    } else if Approved(r.status) {
      QuietApproved(l, w, r, token, a, t);
    } else if SaysRevoked(r.status) {
      var u := w.(record := w.record.(claimState := Revoked, revokedAt := Some(a.now)));
      QuietAttempt(l, u, Save(u.record), SavePoll, a, t);
    } else if Expired(r.status) {
      QuietAttempt(l, Abandon(w), Save(Abandon(w).record), SavePoll, a, t);
    }
  }

  lemma QuietStatus(l: seq<Effect>, w: World, a: Answers, t: Topic)
    requires Quiet(l, w.log, t) && !About(AskStatus(w.record.deviceID), t)
    ensures Quiet(l, CheckClaimedStatus(w, a).log, t)
  {
    hide Quiet, Attempt, Do, AddReason;
    QuietDo(l, w, AskStatus(w.record.deviceID), t);
    var w1 := Do(w, AskStatus(w.record.deviceID));
    var w2 := w1.(record := w1.record.(claimState := Revoked, revokedAt := Some(a.now)));
    QuietAttempt(l, w2, Save(w2.record), SaveStatus, a, t);
  }

  // ---------------------------------------------------------------- whole passes

  lemma StateIsRecognized(w: World)
    requires Inv(w)
    ensures !w.record.claimState.Unrecognized? && w.up
    ensures w.record.pendingCertificateID != "" ==> w.record.claimState == PairingPending
  {}

  /** The world in which the answer to the poll is handled. */
  function Polled(w: World, a: Answers): World
    requires Polls(w, a)
  {
    var v := Wake(w, a);
    Refresh(Do(v, AskPoll(v.record.pairingSessionID, v.disk.files[PollToken], a.poll)), a.poll.value)
  }

  lemma PollingPass(w: World, a: Answers)
    requires Polls(w, a) && w.up
    ensures var v := Polled(w, a);
            && RunOnce(w, a) == HandlePollAnswer(v, a.poll.value, w.disk.files[PollToken], a)
            && v.record.claimState == PairingPending && v.disk == w.disk && v.config == w.config
            && |v.log| == |w.log| + 2 && v.log[..|w.log|] == w.log
            && v.log[|w.log|] == Woke(a.now)
            && v.log[|w.log| + 1] == AskPoll(w.record.pairingSessionID, w.disk.files[PollToken], a.poll)
  {
    hide HandlePollAnswer, CreatePairingSession, FinalizeClaim, CheckClaimedStatus, AddReason;
  }

  /** The pass of an agent that is confirmed, or not, in this very pass. */
  predicate Confirms(w: World, a: Answers) {
    && RemovesToken(w, a)
    && (|| (w.record.pendingCertificateID != "" && TokenReadable(w, a))
        || (HandlesApproval(w, a) && BothStored(a) && Keyed(w, a) && Provisions(a)))
  }

  lemma LosingClaim(l: seq<Effect>, v: World, a: Answers, t: Topic)
    requires Quiet(l, v.log, t)
    ensures var v1 := v.(record := v.record.(claimState := Unclaimed, claimedAt := None));
            var u := Degrade(v1, ClaimedCredentialFilesMissing);
            Quiet(l, Attempt(u, Save(v1.record), SaveMissing, a).log, t)
  {
    hide Quiet, Attempt, AddReason;
    var v1 := v.(record := v.record.(claimState := Unclaimed, claimedAt := None));
    QuietAttempt(l, Degrade(v1, ClaimedCredentialFilesMissing), Save(v1.record), SaveMissing, a, t);
  }

  lemma AbandoningSession(l: seq<Effect>, v: World, a: Answers, t: Topic)
    requires Quiet(l, v.log, t)
    ensures var u := Abandon(v);
            var w := Attempt(u, Save(u.record), SaveExpired, a);
            && Quiet(l, w.log, t) && w.record == u.record && (OpensSession(w, a) <==> OpensSession(v, a))
            && w.record.installationID == v.record.installationID
  {
    QuietAttempt(l, Abandon(v), Save(Abandon(v).record), SaveExpired, a, t);
    hide Quiet, ClearPending;
  }

  /** The topic speaks of the pass that starts in this world. */
  predicate OfThisPass(t: Topic, v: World, a: Answers) {
    t.Unasked? ==>
      && t.a == a && t.w.disk == v.disk && t.w.config == v.config
      && t.w.record == v.record.(schemaVersion := t.w.record.schemaVersion, createdAt := t.w.record.createdAt)
  }

  lemma OwnRequests(t: Topic, v: World, a: Answers)
    requires OfThisPass(t, v, a)
    ensures !About(AskCreate(v.record.installationID, a.create), t) && !About(AskStatus(v.record.deviceID), t)
    ensures PollToken in v.disk.files ==>
              !(t.Unasked? && About(AskPoll(v.record.pairingSessionID, v.disk.files[PollToken], a.poll), t))
    ensures PollToken in v.disk.files && v.record.pendingCertificateID != "" ==>
              !About(FinalizeRequest(v.record, v.disk.files[PollToken], a.finalize), t)
  {
    hide Approved, VerdictOf;
  }

  lemma QuietReconcile(l: seq<Effect>, v: World, a: Answers, t: Topic)
    requires Quiet(l, v.log, t) && !v.record.claimState.Unrecognized?
    requires IsOpenSession(v.record) ==> PendingExpired(v.record, a.now)
    requires t == TokenWrite ==> !StoresToken(v, a)
    requires t == TokenRemoval ==> !(v.record.pendingCertificateID != "" && TokenReadable(v, a) && RemovesToken(v, a))
    requires OfThisPass(t, v, a)
    ensures Quiet(l, Reconcile(v, a).log, t)
  {
    OwnRequests(t, v, a);
    hide OfThisPass, MayAsk, FinalizeRequest, Quiet, CreatePairingSession, FinalizeWithToken, PollPairingSession,
         CheckClaimedStatus, Attempt, Degrade, Abandon, PendingExpired, OpensSession, RemovesToken;
    if v.record.claimState == Claimed {
      LosingClaim(l, v, a, t);
      QuietStatus(l, v, a, t);
      var v1 := v.(record := v.record.(claimState := Unclaimed, claimedAt := None));
      DegradingKeeps(v1, ClaimedCredentialFilesMissing);
    } else if v.record.claimState == Unclaimed {
      QuietCreate(l, v, a, t);
    } else if IsOpenSession(v.record) {
      AbandoningSession(l, v, a, t);
      AbandonedIsUnclaimed(v);
      QuietCreate(l, Attempt(Abandon(v), Save(Abandon(v).record), SaveExpired, a), a, t);
    } else if v.record.claimState == PairingPending {
      DegradingKeeps(v, PollTokenUnavailable);
      if TokenReadable(v, a) { QuietFinalize(l, v, v.disk.files[PollToken], a, t); }
    }
  }

  lemma AbandonedIsUnclaimed(v: World)
    ensures Abandon(v).record.claimState == Unclaimed
  {}

  lemma DegradingKeeps(v: World, reason: Reason)
    ensures var u := Degrade(v, reason); u.log == v.log && u.record == v.record && u.disk == v.disk
  {}

  /** A pass that gets no answer to a poll: it asks for a session, or finalizes, or does little. */
  lemma OtherPass(w: World, a: Answers, t: Topic)
    requires Inv(w) && !Polls(w, a)
    requires t == TokenWrite ==> !StoresToken(w, a)
    requires t == TokenRemoval ==> !Confirms(w, a)
    requires t.Unasked? ==> t == Unasked(w, a)
    ensures var l, m := w.log + [Woke(a.now)], RunOnce(w, a).log;
            && l <= m
            && forall i :: |w.log| <= i < |m| ==> About(m[i], t) ==> m[i].AskPoll? && i == |m| - 1 && !t.Unasked?
  {
    StateIsRecognized(w);
    SameWhenAwake(w, a);
    assert OfThisPass(t, Wake(w, a), a);
    OwnRequests(t, Wake(w, a), a);
    hide Quiet, Inv, Reconcile, OpensSession, RemovesToken, HandlesApproval, PendingExpired, BothStored, Keyed,
         Provisions;
    var v := Wake(w, a);
    QuietIsReflexive(v, t);
    if IsOpenSession(w.record) && !PendingExpired(w.record, a.now) {
      UnansweredPoll(v.log, v, a, t);
      LivePoll(v, a);
    } else {
      QuietReconcile(v.log, v, a, t);
      QuietMeans(v.log, RunOnce(w, a).log, t);
    }
  }

  lemma LivePoll(v: World, a: Answers)
    requires IsOpenSession(v.record) && !PendingExpired(v.record, a.now)
    ensures Reconcile(v, a) == PollPairingSession(v, a)
  {
    hide PollPairingSession, CreatePairingSession, FinalizeClaim, CheckClaimedStatus;
  }

  lemma SameWhenAwake(w: World, a: Answers)
    requires !w.record.claimState.Unrecognized?
    ensures var v := Wake(w, a);
            && v.log == w.log + [Woke(a.now)] && v.disk == w.disk && v.config == w.config
            && v.record == w.record.(schemaVersion := v.record.schemaVersion, createdAt := v.record.createdAt)
            && (PendingExpired(v.record, a.now) <==> PendingExpired(w.record, a.now))
            && (OpensSession(v, a) <==> OpensSession(w, a)) && (RemovesToken(v, a) <==> RemovesToken(w, a))
            && (TokenReadable(v, a) <==> TokenReadable(w, a))
  {}

  lemma QuietMeans(l: seq<Effect>, m: seq<Effect>, t: Topic)
    ensures Quiet(l, m, t) ==> l <= m && forall i :: |l| <= i < |m| ==> !About(m[i], t)
  {}

  lemma UnansweredPoll(l: seq<Effect>, w: World, a: Answers, t: Topic)
    requires Quiet(l, w.log, t) && !(w.config.homeSignal && TokenReadable(w, a) && a.poll.Some?)
    requires PollToken in w.disk.files && t.Unasked? ==>
               !About(AskPoll(w.record.pairingSessionID, w.disk.files[PollToken], a.poll), t)
    ensures var m := PollPairingSession(w, a).log;
            && l <= m
            && forall i :: |l| <= i < |m| ==> About(m[i], t) ==> m[i].AskPoll? && i == |m| - 1 && !t.Unasked?
  {
    hide AddReason, HandlePollAnswer;
  }

  /** A pass that does not handle an approval does not touch the claim files; one that opens no
      session does not write the token, and one that confirms nothing does not remove it. */
  lemma PassIsQuiet(w: World, a: Answers, t: Topic, i: nat)
    requires Inv(w) && |w.log| <= i < |RunOnce(w, a).log|
    requires t == Claiming ==> !HandlesApproval(w, a)
    requires t == TokenWrite ==> !StoresToken(w, a)
    requires t == TokenRemoval ==> !Confirms(w, a)
    requires t.Unasked? ==> t == Unasked(w, a)
    ensures About(RunOnce(w, a).log[i], t) ==> RunOnce(w, a).log[i].AskPoll? && !t.Unasked?
  {
    hide Inv, RunOnce, Quiet, MayAsk, Confirms, StoresToken, HandlesApproval, Polls, Polled;
    StateIsRecognized(w);
    PollMayBeAsked(w, a);
    if Polls(w, a) {
      AnsweredPass(w, a, t);
      PollingPass(w, a);
      QuietAfterTwo(w.log, Polled(w, a).log, RunOnce(w, a).log, t, i);
    } else {
      OtherPass(w, a, t);
    }
  }

  lemma QuietAfterTwo(l: seq<Effect>, m: seq<Effect>, n: seq<Effect>, t: Topic, i: nat)
    requires Quiet(m, n, t) && |m| == |l| + 2 && |l| <= i < |n|
    ensures n[|l|] == m[|l|] && n[|l| + 1] == m[|l| + 1]
    ensures i > |l| + 1 ==> !About(n[i], t)
  {
    hide About;
  }

  lemma AnsweredPass(w: World, a: Answers, t: Topic)
    requires Polls(w, a) && w.up
    requires t == Claiming ==> !HandlesApproval(w, a)
    requires t == TokenRemoval ==> !Confirms(w, a)
    requires t.Unasked? ==> t == Unasked(w, a)
    ensures Quiet(Polled(w, a).log, RunOnce(w, a).log, t)
  {
    PollingPass(w, a);
    SameConditions(w, a);
    if t.Unasked? && Approved(a.poll.value.status) { PolledWithin(w, a); }
    hide RunOnce, Quiet, Polled, Handles, Keyed, Provisions, RemovesToken, BothStored, Within, MayAsk;
    var v := Polled(w, a);
    QuietIsReflexive(v, t);
    QuietAnswer(v.log, v, a.poll.value, w.disk.files[PollToken], a, t);
  }

  lemma SameConditions(w: World, a: Answers)
    requires Polls(w, a)
    ensures var v := Polled(w, a);
            && (Handles(v, a.poll.value, a) <==> Handles(w, a.poll.value, a))
            && (Keyed(v, a) <==> Keyed(w, a)) && (RemovesToken(v, a) <==> RemovesToken(w, a))
  {}

  lemma PolledWithin(w: World, a: Answers)
    requires Polls(w, a) && Approved(a.poll.value.status)
    ensures Within(Unasked(w, a), Polled(w, a), a.poll.value, w.disk.files[PollToken], a)
  {
    hide Approved;
  }

  lemma PollMayBeAsked(w: World, a: Answers)
    ensures MayAsk(w, a, Woke(a.now))
    ensures Polls(w, a) ==> MayAsk(w, a, AskPoll(w.record.pairingSessionID, w.disk.files[PollToken], a.poll))
  {}

  /** Every request of a pass, with all that is in it: a session is asked for under the installation
      id; it is polled, and a claim confirmed, for the session of the record and with the token on
      the disk; a certificate is requested for the device and the thing that the poll answer names,
      with its template, or the configured one if it names none; and confirmed is what is pending or,
      in the pass that provisions, what the provisioner names, or the poll answer where it does not. */
  lemma RequestsOfAPass(w: World, a: Answers, i: nat)
    requires Inv(w) && |w.log| <= i < |RunOnce(w, a).log|
    ensures MayAsk(w, a, RunOnce(w, a).log[i])
  {
    hide Inv, RunOnce, MayAsk;
    PassIsQuiet(w, a, Unasked(w, a), i);
  }

  // ---------------------------------------------------------------- the handling of an approval

  /** What the handling of an approved claim adds to the log: the claim files, the provisioning
      (`middle`), and the removal of the claim files. */
  lemma ClaimEffects(v: World, r: PollResponse, token: string, a: Answers) returns (middle: seq<Effect>)
    ensures Quiet([], middle, Claiming)
    ensures var c := Added(Write(ClaimCert, r.claimCertificate), WriteClaimCert, a);
            var y := Added(Write(ClaimKey, r.claimKey), WriteClaimKey, a);
            var x, z := Added(Remove(ClaimCert), RemoveClaimCert, a), Added(Remove(ClaimKey), RemoveClaimKey, a);
            HandleApprovedClaim(v, r, token, a).log ==
            if !Handles(v, r, a) then v.log
            else if Fails(a, WriteClaimCert) then v.log + c
            else if Fails(a, WriteClaimKey) then v.log + c + y
            else v.log + c + y + middle + x + z
  {
    hide AddReason, Provision, Added, Attempt;
    var w1 := Attempt(v, Write(ClaimCert, r.claimCertificate), WriteClaimCert, a);
    var w2 := Attempt(w1, Write(ClaimKey, r.claimKey), WriteClaimKey, a);
    AttemptAdds(v, Write(ClaimCert, r.claimCertificate), WriteClaimCert, a);
    AttemptAdds(w1, Write(ClaimKey, r.claimKey), WriteClaimKey, a);
    QuietIsReflexive(w2, Claiming);
    QuietProvision(w2.log, w2, r, token, a, Claiming);
    var w3 := Provision(w2, r, token, a);
    middle := w3.log[|w2.log|..];
    assert w3.log == w2.log + middle;
    var w4 := Attempt(w3, Remove(ClaimCert), RemoveClaimCert, a);
    AttemptAdds(w3, Remove(ClaimCert), RemoveClaimCert, a);
    AttemptAdds(w4, Remove(ClaimKey), RemoveClaimKey, a);
  }
}
