/**
 How a pass ends: with which error and which reason shown, for every answer and every failing file
 operation, and what it leaves in the record.
 */
module EnrollmentOutcomes {
  import opened Common
  import opened Enrollment
  import opened EnrollmentSafety
  import opened EnrollmentEffects

  // ---------------------------------------------------------------- the reason shown

  /** The configuration stays; and an error, other than that of a save, is the one reason shown. */
  predicate Ends(w: World, v: World) {
    && v.config == w.config
    && (w.degraded == [] && w.error.None? ==>
          v.degraded == if v.error.None? || v.error == Some(RecordSaveFailed) then [] else [v.error.value])
  }

  lemma Goes(w: World, e: Effect, site: Site, a: Answers)
    ensures var v := Attempt(w, e, site, a); v.(disk := w.disk, log := w.log) == w
  {}

  lemma CreatingEnds(w: World, a: Answers)
    ensures Ends(w, CreatePairingSession(w, a))
  {
    hide Attempt, Outcome, AcceptSession;
    Goes(w, Write(DeviceKey, a.newKey), WriteKey, a);
    if a.create.Some? {
      AcceptingEnds(Do(EnsureKey(w, a).0, AskCreate(w.record.installationID, a.create)), a.create.value, a);
    }
  }

  lemma AcceptingEnds(w: World, r: CreateResponse, a: Answers)
    ensures Ends(w, AcceptSession(w, r, a))
  {
    hide Attempt, Outcome;
    Goes(w, Write(PollToken, r.pollToken), WriteToken, a);
    var w1 := OpenSession(Attempt(w, Write(PollToken, r.pollToken), WriteToken, a), r);
    Goes(w1, Save(w1.record), SaveSession, a);
  }

  lemma FinalizingEnds(w: World, token: string, a: Answers)
    ensures Ends(w, FinalizeWithToken(w, token, a))
  {
    hide Outcome, VerdictOf, ClaimedRecord, ClearPending, FinalizeRequest;
  }

  lemma RequestingEnds(w: World, r: PollResponse, token: string, a: Answers)
    requires DeviceKey in w.disk.files
    ensures Ends(w, RequestCertificate(w, r, token, a))
  {
    hide Outcome, FinalizeWithToken;
    if a.provision.Some? {
      var w1 := Do(w, ProvisionRequest(w, r, a));
      var w2 := Attempt(w1, Write(DeviceCert, a.provision.value.certificate), WriteCert, a);
      FinalizingEnds(Commit(RecordProvisioning(w2, r, a.provision.value), SaveProvisioned, a), token, a);
    }
  }

  lemma ApprovingEnds(w: World, r: PollResponse, token: string, a: Answers)
    ensures Ends(w, HandleApprovedClaim(w, r, token, a))
  {
    hide Attempt, Outcome, Provision;
    var w1 := Attempt(w, Write(ClaimCert, r.claimCertificate), WriteClaimCert, a);
    Goes(w, Write(ClaimCert, r.claimCertificate), WriteClaimCert, a);
    var w2 := Attempt(w1, Write(ClaimKey, r.claimKey), WriteClaimKey, a);
    Goes(w1, Write(ClaimKey, r.claimKey), WriteClaimKey, a);
    ProvisioningEnds(w2, r, token, a);
    var w3 := Provision(w2, r, token, a);
    Goes(w3, Remove(ClaimCert), RemoveClaimCert, a);
    Goes(Attempt(w3, Remove(ClaimCert), RemoveClaimCert, a), Remove(ClaimKey), RemoveClaimKey, a);
  }

  lemma ProvisioningEnds(w: World, r: PollResponse, token: string, a: Answers)
    ensures Ends(w, Provision(w, r, token, a))
  {
    hide Attempt, Outcome, RequestCertificate;
    Goes(w, Write(DeviceKey, a.newKey), WriteKey, a);
    EnsuredKey(w, a);
    if EnsureKey(w, a).1 { RequestingEnds(EnsureKey(w, a).0, r, token, a); }
  }

  lemma AnsweringEnds(w: World, r: PollResponse, token: string, a: Answers)
    ensures Ends(w, HandlePollAnswer(w, r, token, a))
  {
    hide Outcome, HandleApprovedClaim, Pending, Approved, SaysClaimed, SaysRevoked, Expired, PendingExpired;
    ApprovingEnds(w, r, token, a);
  }

  lemma PollingEnds(w: World, a: Answers)
    ensures Ends(w, PollPairingSession(w, a))
  {
    hide Outcome, HandlePollAnswer;
    if a.poll.Some? && TokenReadable(w, a) {
      var token := w.disk.files[PollToken];
      var w1 := Do(w, AskPoll(w.record.pairingSessionID, token, a.poll));
      AnsweringEnds(Refresh(w1, a.poll.value), a.poll.value, token, a);
    }
  }

  lemma CheckingEnds(w: World, a: Answers)
    ensures Ends(w, CheckClaimedStatus(w, a))
  {
    hide Attempt, Outcome, Healthy, SaysRevoked;
    var w1 := Do(w, AskStatus(w.record.deviceID));
    var w2 := w1.(record := w1.record.(claimState := Revoked, revokedAt := Some(a.now)));
    Goes(w2, Save(w2.record), SaveStatus, a);
  }

  /** Whatever a pass does, it keeps the configuration, and it shows exactly the reason for which it
      ended early; the error of a save alone is not shown. */
  lemma PassShowsItsError(w: World, a: Answers)
    ensures var v := RunOnce(w, a);
            && v.config == w.config
            && v.degraded == if v.error.None? || v.error == Some(RecordSaveFailed) then [] else [v.error.value]
  {
    hide Attempt, Outcome, CreatePairingSession, PollPairingSession, FinalizeWithToken, CheckClaimedStatus,
         PendingExpired, Abandon, TokenReadable;
    var v := Wake(w, a);
    var lost := v.(record := v.record.(claimState := Unclaimed, claimedAt := None));
    Goes(Degrade(lost, ClaimedCredentialFilesMissing), Save(lost.record), SaveMissing, a);
    AbandoningEnds(v);
    var over := Attempt(Abandon(v), Save(Abandon(v).record), SaveExpired, a);
    Goes(Abandon(v), Save(Abandon(v).record), SaveExpired, a);
    CreatingEnds(over, a);
    CreatingEnds(v, a);
    var reset := v.(record := v.record.(claimState := Unclaimed));
    Goes(reset, Save(reset.record), SaveReset, a);
    CreatingEnds(Attempt(reset, Save(reset.record), SaveReset, a), a);
    PollingEnds(v, a);
    CheckingEnds(v, a);
    if PollToken in v.disk.files { FinalizingEnds(v, v.disk.files[PollToken], a); }
    ReadableIsThere(v, a);
  }

  lemma AbandoningEnds(v: World)
    ensures var u := Abandon(v);
            && u.record.claimState == Unclaimed
            && u.config == v.config && u.degraded == v.degraded && u.error == v.error
  {}

  lemma ReadableIsThere(v: World, a: Answers)
    ensures TokenReadable(v, a) ==> PollToken in v.disk.files
  {}

  // ---------------------------------------------------------------- the words of the cloud

  /** What the cloud can answer to a poll, and in which words; no answer means two things. */
  lemma PollWords(status: string)
    ensures Pending(status) <==> status == "" || status == "pending" || status == "PAIRING_PENDING"
    ensures Approved(status) <==> status == "approved" || status == "APPROVED"
    ensures SaysClaimed(status) <==> status == "claimed" || status == "CLAIMED"
    ensures SaysRevoked(status) <==> status == "revoked" || status == "REVOKED"
    ensures Expired(status) <==> status == "expired" || status == "EXPIRED"
    ensures Pending(status) ==> !Approved(status) && !SaysClaimed(status) && !SaysRevoked(status) && !Expired(status)
    ensures Approved(status) ==> !SaysClaimed(status) && !SaysRevoked(status) && !Expired(status)
    ensures SaysClaimed(status) ==> !SaysRevoked(status) && !Expired(status)
    ensures SaysRevoked(status) ==> !Expired(status)
  {}

  /** A claim is confirmed or denied in these words; any other answer decides nothing. */
  lemma VerdictWords(answer: Option<FinalizeResponse>)
    ensures answer.None? <==> VerdictOf(answer) == NoReply
    ensures answer.Some? ==>
              var s := answer.value.status;
              && (VerdictOf(answer) == Confirmed <==> s == "claimed" || s == "CLAIMED")
              && (VerdictOf(answer) == Denied <==>
                  s == "revoked" || s == "REVOKED" || s == "rejected" || s == "REJECTED")
  {}

  /** A device is in order in these words, and never in those for a revoked one. */
  lemma HealthWords(status: string)
    ensures Healthy(status) <==> status == "claimed" || status == "CLAIMED" || status == "ok" || status == "OK"
    ensures Healthy(status) ==> !SaysRevoked(status)
  {}

  // ---------------------------------------------------------------- asking for a session

  /** The device key can be used: it is there and can be parsed, or is written without an error. */
  predicate KeyUsable(w: World, a: Answers) {
    if DeviceKey in w.disk.files then a.keyParses else !Fails(a, WriteKey)
  }

  predicate IsWhole(r: CreateResponse) {
    r.sessionID != "" && r.pairingCode != "" && r.pollToken != ""
  }

  /** How the request for a session ends: with the first thing that is missing or fails; and once the
      token is stored the record is that of the session, even if the session is over already or the
      record cannot be saved. */
  lemma CreatingOutcome(w: World, a: Answers)
    requires w.error.None?
    ensures var v := CreatePairingSession(w, a);
            var asked := w.config.homeSignal && KeyUsable(w, a) && a.csrWorks;
            var stored := asked && a.create.Some? && IsWhole(a.create.value) && !Fails(a, WriteToken);
            && v.error == (if !w.config.homeSignal then Some(HomesignalEnrollmentUnconfigured)
                           else if !KeyUsable(w, a) then Some(DevicePrivateKeyUnavailable)
                           else if !a.csrWorks then Some(DeviceCsrUnavailable)
                           else if a.create.None? then Some(HomesignalEnrollmentUnavailable)
                           else if !IsWhole(a.create.value) then Some(HomesignalPairingSessionInvalid)
                           else if Fails(a, WriteToken) then Some(PollTokenStorageFailed)
                           else if a.create.value.expiresAt < a.now then Some(HomesignalPairingSessionExpired)
                           else if Fails(a, SaveSession) then Some(RecordSaveFailed) else None)
            && (!stored ==> v.record == w.record && v.pairingCode == w.pairingCode)
            && (stored ==>
                  var r := a.create.value;
                  && v.pairingCode == r.pairingCode
                  && w.record == v.record.(claimState := w.record.claimState,
                                           pairingSessionID := w.record.pairingSessionID,
                                           pairingCodeExpiry := w.record.pairingCodeExpiry,
                                           pollTokenExpiry := w.record.pollTokenExpiry,
                                           pollIntervalSeconds := w.record.pollIntervalSeconds)
                  && v.record.claimState == PairingPending && v.record.pairingSessionID == r.sessionID
                  && v.record.pairingCodeExpiry == Some(r.expiresAt)
                  && (r.pollTokenExpiresAt != ZERO_TIME ==> v.record.pollTokenExpiry == Some(r.pollTokenExpiresAt))
                  && (r.pollTokenExpiresAt == ZERO_TIME ==> v.record.pollTokenExpiry == Some(r.expiresAt))
                  && v.record.pollIntervalSeconds == if 0 < r.pollIntervalSeconds then r.pollIntervalSeconds else 10)
  {
    hide Attempt, Outcome, AddReason, AcceptSession;
    Goes(w, Write(DeviceKey, a.newKey), WriteKey, a);
    if a.create.Some? {
      AcceptingOutcome(Do(EnsureKey(w, a).0, AskCreate(w.record.installationID, a.create)), a.create.value, a);
    }
  }

  lemma AcceptingOutcome(w: World, r: CreateResponse, a: Answers)
    requires w.error.None?
    ensures var v := AcceptSession(w, r, a);
            && v.error == (if Fails(a, WriteToken) then Some(PollTokenStorageFailed)
                           else if r.expiresAt < a.now then Some(HomesignalPairingSessionExpired)
                           else if Fails(a, SaveSession) then Some(RecordSaveFailed) else None)
            && (Fails(a, WriteToken) ==> v.record == w.record && v.pairingCode == w.pairingCode)
            && (!Fails(a, WriteToken) ==> v.record == OpenSession(w, r).record && v.pairingCode == r.pairingCode)
  {
    hide Attempt, Outcome, AddReason;
    Goes(w, Write(PollToken, r.pollToken), WriteToken, a);
    var w1 := OpenSession(Attempt(w, Write(PollToken, r.pollToken), WriteToken, a), r);
    Goes(w1, Save(w1.record), SaveSession, a);
  }

  // ---------------------------------------------------------------- asking for a confirmation

  /** How the request for a confirmation ends: a confirmed claim takes over the ids and the time of the
      answer, each where there is one, or else the pending ids and the time of the pass; a denied one
      is revoked at that time; and nothing is pending in either. Without a verdict the record is as it
      was, and the agent keeps asking. */
  lemma FinalizingOutcome(w: World, token: string, a: Answers)
    requires w.error.None? && w.config.homeSignal
    ensures var v, r, verdict := FinalizeWithToken(w, token, a), w.record, VerdictOf(a.finalize);
            && (v.error == if verdict == Confirmed && Fails(a, RemoveToken) then Some(PollTokenCleanupFailed)
                           else if verdict == Confirmed || verdict == Denied then
                             if Fails(a, SaveSettled) then Some(RecordSaveFailed) else None
                           else Some(IotProvisionedAwaitingHomesignalConfirmation))
            && (verdict != Confirmed && verdict != Denied ==> v.record == r && v.pairingCode == w.pairingCode)
            && (verdict == Confirmed || verdict == Denied ==>
                  && NothingPending(v.record) && v.pairingCode == ""
                  && v.record.installationID == r.installationID && v.record.createdAt == r.createdAt
                  && v.record.schemaVersion == r.schemaVersion)
            && (verdict == Denied ==>
                  && v.record.claimState == Revoked && v.record.revokedAt == Some(a.now)
                  && v.record.deviceID == r.deviceID && v.record.iotThingName == r.iotThingName
                  && v.record.claimedAt == r.claimedAt)
            && (verdict == Confirmed ==>
                  var f := a.finalize.value;
                  && v.record.claimState == Claimed && v.record.revokedAt == r.revokedAt
                  && v.record.claimedAt == Some(if f.claimedAt != ZERO_TIME then f.claimedAt else a.now)
                  && v.record.deviceID == (if f.deviceID != "" then f.deviceID else r.pendingDeviceID)
                  && v.record.iotThingName == if f.iotThingName != "" then f.iotThingName else r.pendingIoTThingName)
            && (a.faults == map[] && (verdict == NoReply || verdict == Confirmed || verdict == Denied) ==>
                  v.disk.saved == Some(v.record))
  {
    hide AddReason, SaysClaimed, Refused;
  }

  // ---------------------------------------------------------------- handling an approval

  /** Once the certificate is stored, what is pending is what the provisioner names, and the device and
      the thing of the poll answer where it names none. */
  predicate IsProvisioned(w: World, u: World, r: PollResponse, p: ProvisionResponse) {
    && u.config == w.config && u.error.None?
    && w.record == u.record.(pendingDeviceID := w.record.pendingDeviceID,
                             pendingIoTThingName := w.record.pendingIoTThingName,
                             pendingCertificateID := w.record.pendingCertificateID,
                             pendingCertificateARN := w.record.pendingCertificateARN)
    && u.record.pendingCertificateID == p.certificateID && u.record.pendingCertificateARN == p.certificateARN
    && u.record.pendingDeviceID == (if p.deviceID != "" then p.deviceID else r.deviceID)
    && u.record.pendingIoTThingName == if p.iotThingName != "" then p.iotThingName else r.iotThingName
  }

  /** How the handling of an approval ends: with the first thing that is missing or fails, or as the
      request for the confirmation ends that it leads to, with what is then pending. */
  lemma ApprovingOutcome(w: World, r: PollResponse, token: string, a: Answers) returns (u: World)
    requires w.error.None?
    ensures var v, p := HandleApprovedClaim(w, r, token, a), a.provision;
            var ready := && r.deviceID != "" && r.claimCertificate != "" && r.claimKey != "" && w.config.awsIoT
                         && (r.claimExpiresAt == ZERO_TIME || a.now < r.claimExpiresAt) && BothStored(a);
            && (!ready ==>
                  v.record == w.record &&
                  v.error == Some(if r.deviceID == "" then HomesignalClaimMissingDeviceId
                                  else if r.claimCertificate == "" || r.claimKey == "" then
                                    HomesignalClaimMissingAwsMaterial
                                  else if r.claimExpiresAt != ZERO_TIME && r.claimExpiresAt <= a.now then
                                    AwsClaimMaterialExpired
                                  else if !w.config.awsIoT then AwsIotEndpointUnconfigured
                                  else if Fails(a, WriteClaimCert) then AwsClaimCertificateStorageFailed
                                  else AwsClaimKeyStorageFailed))
            && (ready && !(KeyUsable(w, a) && a.csrWorks && Provisions(a)) ==>
                  v.error == Some(if !KeyUsable(w, a) then DevicePrivateKeyUnavailable
                                  else if !a.csrWorks then DeviceCsrUnavailable
                                  else if p.None? then AwsFleetProvisioningFailed
                                  else if p.value.certificate == "" || p.value.certificateID == "" then
                                    AwsFleetProvisioningResponseInvalid
                                  else if Fails(a, WriteCert) then DeviceCertificateStorageFailed
                                  else RecordSaveFailed))
            && (ready && KeyUsable(w, a) && a.csrWorks && Provisions(a) ==>
                  && IsProvisioned(w, u, r, p.value)
                  && v.error == FinalizeWithToken(u, token, a).error
                  && v.record == FinalizeWithToken(u, token, a).record)
  {
    hide Attempt, Outcome, AddReason, Provision;
    var w1 := Attempt(w, Write(ClaimCert, r.claimCertificate), WriteClaimCert, a);
    Goes(w, Write(ClaimCert, r.claimCertificate), WriteClaimCert, a);
    var w2 := Attempt(w1, Write(ClaimKey, r.claimKey), WriteClaimKey, a);
    Goes(w1, Write(ClaimKey, r.claimKey), WriteClaimKey, a);
    u := ProvisioningOutcome(w2, r, token, a);
    var w3 := Provision(w2, r, token, a);
    Goes(w3, Remove(ClaimCert), RemoveClaimCert, a);
    Goes(Attempt(w3, Remove(ClaimCert), RemoveClaimCert, a), Remove(ClaimKey), RemoveClaimKey, a);
    KeyStays(w, a, Write(ClaimCert, r.claimCertificate), WriteClaimCert);
    KeyStays(w1, a, Write(ClaimKey, r.claimKey), WriteClaimKey);
  }

  lemma KeyStays(w: World, a: Answers, e: Effect, site: Site)
    requires e.Write? && e.file != DeviceKey
    ensures KeyUsable(Attempt(w, e, site, a), a) <==> KeyUsable(w, a)
  {}

  lemma ProvisioningOutcome(w: World, r: PollResponse, token: string, a: Answers) returns (u: World)
    requires w.error.None?
    ensures var v := Provision(w, r, token, a);
            if KeyUsable(w, a) && a.csrWorks && Provisions(a) then
              IsProvisioned(w, u, r, a.provision.value) && v == FinalizeWithToken(u, token, a)
            else
              v.error == Some(if !KeyUsable(w, a) then DevicePrivateKeyUnavailable
                              else if !a.csrWorks then DeviceCsrUnavailable
                              else if a.provision.None? then AwsFleetProvisioningFailed
                              else if a.provision.value.certificate == "" || a.provision.value.certificateID == "" then
                                AwsFleetProvisioningResponseInvalid
                              else if Fails(a, WriteCert) then DeviceCertificateStorageFailed
                              else RecordSaveFailed)
  {
    hide Attempt, Outcome, AddReason, FinalizeWithToken;
    EnsuredKey(w, a);
    u := w;
    var w0 := EnsureKey(w, a).0;
    Goes(w, Write(DeviceKey, a.newKey), WriteKey, a);
    if KeyUsable(w, a) && a.csrWorks && Provisions(a) {
      var w1 := Do(w0, ProvisionRequest(w0, r, a));
      var cert := Write(DeviceCert, a.provision.value.certificate);
      Goes(w1, cert, WriteCert, a);
      var w2 := RecordProvisioning(Attempt(w1, cert, WriteCert, a), r, a.provision.value);
      Goes(w2, Save(w2.record), SaveProvisioned, a);
      u := Commit(w2, SaveProvisioned, a);
    }
  }

  // ---------------------------------------------------------------- polling

  /** The record after the answer: it may bring a new expiry of the code. */
  function Refreshed(w: World, r: PollResponse): Record {
    if r.expiresAt == ZERO_TIME then w.record else w.record.(pairingCodeExpiry := Some(r.expiresAt))
  }

  /** The session has no time left: its code or its token has expired. */
  predicate IsOver(r: Record, now: Time) {
    || (r.pairingCodeExpiry.Some? && now >= r.pairingCodeExpiry.value)
    || (r.pollTokenExpiry.Some? && now >= r.pollTokenExpiry.value)
  }

  /** The session is given up: nothing of it is left, and nothing else has changed. */
  predicate GivenUp(r: Record, s: Record) {
    && NothingPending(s) && s.claimState == Unclaimed
    && r == s.(claimState := r.claimState, pairingSessionID := r.pairingSessionID,
               pairingCodeExpiry := r.pairingCodeExpiry, pollTokenExpiry := r.pollTokenExpiry,
               pollIntervalSeconds := r.pollIntervalSeconds, pendingDeviceID := r.pendingDeviceID,
               pendingIoTThingName := r.pendingIoTThingName, pendingCertificateID := r.pendingCertificateID,
               pendingCertificateARN := r.pendingCertificateARN)
  }

  lemma AbandoningGivesUp(w: World)
    ensures GivenUp(w.record, Abandon(w).record) && Abandon(w).pairingCode == ""
    ensures Abandon(w).(record := w.record, pairingCode := w.pairingCode) == w
  {}

  /** How a poll ends: without an answer nothing changes; with one the code and its expiry are taken
      over first, whatever it says; a session that is still pending is saved while it has time left
      and given up when it has none; an approval is handled from there. */
  lemma PollingOutcome(w: World, a: Answers) returns (u: World)
    requires w.error.None?
    ensures var v := PollPairingSession(w, a);
            if !w.config.homeSignal || !TokenReadable(w, a) || a.poll.None? then
              && v.record == w.record && v.pairingCode == w.pairingCode
              && v.error == Some(if !w.config.homeSignal then HomesignalEnrollmentUnconfigured
                                 else if !TokenReadable(w, a) then PollTokenUnavailable
                                 else HomesignalPairingPollFailed)
            else
              var r := a.poll.value;
              var saved := if Fails(a, SavePoll) then Some(RecordSaveFailed) else None;
              && u.record == Refreshed(w, r) && u.config == w.config && u.error.None?
              && u.disk == w.disk && u.pairingCode == (if r.pairingCode != "" then r.pairingCode else w.pairingCode)
              && if Approved(r.status) then v == HandleApprovedClaim(u, r, w.disk.files[PollToken], a)
                 else if Expired(r.status) || (Pending(r.status) && IsOver(u.record, a.now)) then
                   GivenUp(u.record, v.record) && v.pairingCode == "" && v.error == saved
                 else
                   && v.pairingCode == u.pairingCode
                   && v.record == (if SaysRevoked(r.status)
                                   then u.record.(claimState := Revoked, revokedAt := Some(a.now)) else u.record)
                   && v.error == (if SaysRevoked(r.status) || Pending(r.status) then saved
                                  else if SaysClaimed(r.status) then
                                    Some(HomesignalPairingClaimedWithoutLocalFinalization)
                                  else Some(HomesignalPairingStatusUnknown))
                   && (Pending(r.status) && !Fails(a, SavePoll) ==> v.disk.saved == Some(v.record))
  {
    hide AddReason, HandleApprovedClaim, Outcome, Abandon, Approved, SaysClaimed, SaysRevoked, Expired, Pending;
    u := w;
    if a.poll.Some? && TokenReadable(w, a) {
      PollWords(a.poll.value.status);
      var token := w.disk.files[PollToken];
      u := Refresh(Do(w, AskPoll(w.record.pairingSessionID, token, a.poll)), a.poll.value);
      AbandoningGivesUp(u);
    }
  }

  // ---------------------------------------------------------------- whole passes

  /** Which way a pass takes with an open session: it polls while the session has time left, and asks
      for a new one, with nothing of the old one in its memory, when it has none. */
  lemma OpenSessionOutcome(w: World, a: Answers) returns (u: World)
    requires IsOpenSession(w.record)
    ensures if IsOver(w.record, a.now) then
              && RunOnce(w, a) == CreatePairingSession(u, a) && u.error.None? && u.config == w.config
              && GivenUp(Wake(w, a).record, u.record) && u.pairingCode == ""
              && u.disk.files == w.disk.files
            else RunOnce(w, a) == PollPairingSession(Wake(w, a), a)
  {
    hide CreatePairingSession, PollPairingSession, FinalizeClaim, CheckClaimedStatus, Abandon;
    var v := Abandon(Wake(w, a));
    AbandoningGivesUp(Wake(w, a));
    u := Attempt(v, Save(v.record), SaveExpired, a);
  }

  /** What every pass does first: it completes the record and shows no reason any more. */
  lemma WakingOutcome(w: World, a: Answers)
    ensures var v := Wake(w, a);
            && v.log == w.log + [Woke(a.now)] && v.disk == w.disk && v.pairingCode == w.pairingCode
            && v.degraded == [] && v.error.None?
            && w.record == v.record.(schemaVersion := w.record.schemaVersion, createdAt := w.record.createdAt,
                                     claimState := w.record.claimState)
            && v.record.schemaVersion == (if w.record.schemaVersion != 0 then w.record.schemaVersion else 2)
            && v.record.createdAt == (if w.record.createdAt != ZERO_TIME then w.record.createdAt else a.now)
            && v.record.claimState ==
               if w.record.claimState != Unrecognized("") then w.record.claimState else Unclaimed
  {}

  /** How a pass of a claimed device ends. */
  lemma ClaimedOutcome(w: World, a: Answers)
    requires w.record.claimState == Claimed
    ensures var v, r := RunOnce(w, a), Wake(w, a).record;
            if !HasCredential(w.disk.files) then
              && v.record == r.(claimState := Unclaimed, claimedAt := None)
              && v.error == Some(ClaimedCredentialFilesMissing)
              && v.disk.saved == if Outcome(a, SaveMissing).Applied() then Some(v.record) else w.disk.saved
            else if w.config.homeSignal && a.status.Some? && SaysRevoked(a.status.value) then
              && v.record == r.(claimState := Revoked, revokedAt := Some(a.now))
              && v.error == if Fails(a, SaveStatus) then Some(RecordSaveFailed) else None
            else
              && v.record == r
              && v.error == if !w.config.homeSignal || a.status.None? then Some(HomesignalStatusUnavailable)
                            else if Healthy(a.status.value) then None else Some(HomesignalDeviceStatusUnknown)
  {
    hide AddReason;
    if a.status.Some? { HealthWords(a.status.value); }
    hide SaysRevoked, Healthy;
  }

  // ---------------------------------------------------------------- starts

  /** How a process starts on a disk: with a fresh record that it saves at once, if there is none;
      otherwise it runs exactly with a record that has an identifier and a known version, and only
      completes it. */
  lemma StartOutcome(log: seq<Effect>, boot: Boot)
    ensures var v, d := Start(log, boot), DiskOf(log);
            && v.config == boot.config && v.pairingCode == "" && v.degraded == []
            && (v.up <==> d.saved.None? ||
                          (d.saved.value.installationID != ""
                           && (d.saved.value.schemaVersion == 0 || d.saved.value.schemaVersion == 2)))
            && (v.up ==>
                  && v.error.None?
                  && v.log == (if d.saved == Some(v.record) then log else log + [Save(v.record)]))
            && (!v.up ==>
                  && v.log == log && v.disk == d
                  && v.error == Some(if d.saved.value.installationID == "" then InstallationIdEmpty
                                     else UnsupportedSchemaVersion))
            && (d.saved.None? ==>
                  && NothingPending(v.record) && v.record.claimState == Unclaimed && v.record.schemaVersion == 2
                  && v.record.installationID == boot.newID && v.record.createdAt == boot.now
                  && v.record.deviceID == "" && v.record.iotThingName == ""
                  && v.record.claimedAt.None? && v.record.revokedAt.None?)
            && (v.up && d.saved.Some? ==>
                  var r := d.saved.value;
                  && r == v.record.(schemaVersion := r.schemaVersion, claimState := r.claimState,
                                    createdAt := r.createdAt)
                  && v.record.schemaVersion == 2
                  && v.record.claimState == (if r.schemaVersion == 0 || r.claimState == Unrecognized("") then Unclaimed
                                             else r.claimState)
                  && v.record.createdAt == if r.schemaVersion == 0 && r.createdAt == ZERO_TIME then boot.now
                                           else r.createdAt)
  {
    hide DiskOf;
  }
}
