/** The enrollment manager object: its methods change its record in place and write files step by
    step. Each of them does to the object what its namesake in Enrollment does to a world. */
module EnrollmentManager {
  import opened Common
  import opened Enrollment

  class Manager {
    const config: Config
    var record: Record
    var pairingCode: string
    var degradedReasons: seq<Reason>
    var disk: Disk
    ghost var log: seq<Effect>

    /** The object as a world; `err` is what the method at hand has returned so far. */
    ghost function View(err: Option<Reason>): World
      reads this
    {
      World(true, config, record, pairingCode, degradedReasons, err, disk, log)
    }

    constructor (config: Config, record: Record, disk: Disk, ghost log: seq<Effect>)
      ensures View(None) == World(true, config, record, "", [], None, disk, log)
    {
      this.config, this.record, this.disk, this.log := config, record, disk, log;
      pairingCode, degradedReasons := "", [];
    }

    /** One effect on the disk, or one request to the cloud. */
    method Perform(e: Effect)
      modifies this`disk, this`log
      ensures View(None) == Do(old(View(None)), e)
    {
      disk := Apply(disk, e);
      log := log + [e];
    }

    method TryFile(e: Effect, site: Site, a: Answers) returns (ok: bool)
      modifies this`disk, this`log
      ensures View(None) == Attempt(old(View(None)), e, site, a)
      ensures ok <==> !Fails(a, site)
    {
      if Outcome(a, site).Applied() {
        Perform(e);
      }
      ok := !Fails(a, site);
      if !ok {
        Perform(Fail(site));
      }
    }

    method SaveRecord(site: Site, a: Answers) returns (err: Option<Reason>)
      modifies this`disk, this`log
      ensures View(err) == Commit(old(View(None)), site, a)
    {
      var ok := TryFile(Save(record), site, a);
      return if ok then None else Some(RecordSaveFailed);
    }

    method AddDegraded(reason: Reason) returns (err: Option<Reason>)
      modifies this`degradedReasons
      ensures View(err) == Degrade(old(View(None)), reason)
      ensures degradedReasons == if reason in old(degradedReasons) then old(degradedReasons)
                                 else old(degradedReasons) + [reason]
    {
      err := Some(reason);
      for i := 0 to |degradedReasons|
        invariant reason !in degradedReasons[..i]
        invariant degradedReasons == old(degradedReasons)
      {
        if degradedReasons[i] == reason {
          return;
        }
      }
      degradedReasons := degradedReasons + [reason];
    }

    method ClearPendingFields()
      modifies this`record, this`pairingCode
      ensures View(None) == old(View(None)).(record := ClearPending(old(record)), pairingCode := "")
    {
      record := record.(pairingSessionID := "", pairingCodeExpiry := None, pollTokenExpiry := None);
      record := record.(pollIntervalSeconds := 0);
      record := record.(pendingDeviceID := "", pendingIoTThingName := "");
      record := record.(pendingCertificateID := "", pendingCertificateARN := "");
      pairingCode := "";
    }

    method NormalizeRecord(now: Time)
      modifies this`record
      ensures View(None) == old(View(None)).(record := Normalize(old(record), now))
    {
      if record.schemaVersion == 0 {
        record := record.(schemaVersion := SCHEMA_VERSION);
      }
      if record.createdAt == ZERO_TIME {
        record := record.(createdAt := now);
      }
      if record.claimState == Unrecognized("") {
        record := record.(claimState := Unclaimed);
      }
    }

    method EnsureDevicePrivateKey(a: Answers) returns (ok: bool)
      modifies this`disk, this`log
      ensures (View(None), ok) == EnsureKey(old(View(None)), a)
    {
      if DeviceKey in disk.files {
        return a.keyParses;
      }
      ok := TryFile(Write(DeviceKey, a.newKey), WriteKey, a);
    }

    method RunOnce(a: Answers) returns (err: Option<Reason>)
      modifies this
      ensures View(err) == Enrollment.RunOnce(old(View(None)), a)
    {
      hide Enrollment.CreatePairingSession, Enrollment.PollPairingSession, Enrollment.FinalizeClaim,
          Enrollment.CheckClaimedStatus;
      degradedReasons := [];
      NormalizeRecord(a.now);
      Perform(Woke(a.now));
      assert View(None) == Wake(old(View(None)), a);
      if record.claimState == Claimed {
        if DeviceKey !in disk.files || DeviceCert !in disk.files {
          record := record.(claimState := Unclaimed, claimedAt := None);
          err := AddDegraded(ClaimedCredentialFilesMissing);
          var _ := TryFile(Save(record), SaveMissing, a);
          return;
        }
        err := CheckClaimedStatus(a);
        return;
      }
      if record.claimState == PairingPending && record.pendingCertificateID == "" && PendingExpired(record, a.now) {
        ClearPendingFields();
        record := record.(claimState := Unclaimed);
        var _ := TryFile(Save(record), SaveExpired, a);
      }
      if record.claimState == Unclaimed {
        err := CreatePairingSession(a);
      } else if record.claimState == PairingPending {
        if record.pendingCertificateID != "" {
          err := FinalizeClaim(a);
        } else {
          err := PollPairingSession(a);
        }
      } else if record.claimState == Revoked {
        err := None;
      } else {
        record := record.(claimState := Unclaimed);
        var _ := TryFile(Save(record), SaveReset, a);
        err := CreatePairingSession(a);
      }
    }

    method CreatePairingSession(a: Answers) returns (err: Option<Reason>)
      modifies this
      ensures View(err) == Enrollment.CreatePairingSession(old(View(None)), a)
    {
      if !config.homeSignal {
        err := AddDegraded(HomesignalEnrollmentUnconfigured);
        return;
      }
      var keyed := EnsureDevicePrivateKey(a);
      if !keyed {
        err := AddDegraded(DevicePrivateKeyUnavailable);
        return;
      }
      if !a.csrWorks {
        err := AddDegraded(DeviceCsrUnavailable);
        return;
      }
      Perform(AskCreate(record.installationID, a.create));
      if a.create.None? {
        err := AddDegraded(HomesignalEnrollmentUnavailable);
        return;
      }
      var r := a.create.value;
      if r.sessionID == "" || r.pairingCode == "" || r.pollToken == "" {
        err := AddDegraded(HomesignalPairingSessionInvalid);
        return;
      }
      var tokenExpiry := r.pollTokenExpiresAt;
      if tokenExpiry == ZERO_TIME {
        tokenExpiry := r.expiresAt;
      }
      var interval := r.pollIntervalSeconds;
      if interval <= 0 {
        interval := DEFAULT_POLL_SECONDS;
      }
      var stored := TryFile(Write(PollToken, r.pollToken), WriteToken, a);
      if !stored {
        err := AddDegraded(PollTokenStorageFailed);
        return;
      }
      record := record.(claimState := PairingPending, pairingSessionID := r.sessionID);
      record := record.(pairingCodeExpiry := Some(r.expiresAt), pollTokenExpiry := Some(tokenExpiry));
      record := record.(pollIntervalSeconds := interval);
      pairingCode := r.pairingCode;
      if r.expiresAt < a.now {
        err := AddDegraded(HomesignalPairingSessionExpired);
        return;
      }
      err := SaveRecord(SaveSession, a);
    }

    method PollPairingSession(a: Answers) returns (err: Option<Reason>)
      modifies this
      ensures View(err) == Enrollment.PollPairingSession(old(View(None)), a)
    {
      hide Enrollment.HandleApprovedClaim;
      if !config.homeSignal {
        err := AddDegraded(HomesignalEnrollmentUnconfigured);
        return;
      }
      if PollToken !in disk.files || Fails(a, ReadToken) {
        err := AddDegraded(PollTokenUnavailable);
        return;
      }
      var token := disk.files[PollToken];
      Perform(AskPoll(record.pairingSessionID, token, a.poll));
      if a.poll.None? {
        err := AddDegraded(HomesignalPairingPollFailed);
        return;
      }
      var r := a.poll.value;
      if r.pairingCode != "" {
        pairingCode := r.pairingCode;
      }
      if r.expiresAt != ZERO_TIME {
        record := record.(pairingCodeExpiry := Some(r.expiresAt));
      }
      if Pending(r.status) {
        if PendingExpired(record, a.now) {
          ClearPendingFields();
          record := record.(claimState := Unclaimed);
        }
        err := SaveRecord(SavePoll, a);
      } else if Approved(r.status) {
        err := HandleApprovedClaim(r, token, a);
      } else if SaysClaimed(r.status) {
        err := AddDegraded(HomesignalPairingClaimedWithoutLocalFinalization);
      } else if SaysRevoked(r.status) {
        record := record.(claimState := Revoked, revokedAt := Some(a.now));
        err := SaveRecord(SavePoll, a);
      } else if Expired(r.status) {
        ClearPendingFields();
        record := record.(claimState := Unclaimed);
        err := SaveRecord(SavePoll, a);
      } else {
        err := AddDegraded(HomesignalPairingStatusUnknown);
      }
    }

    method HandleApprovedClaim(r: PollResponse, token: string, a: Answers) returns (err: Option<Reason>)
      modifies this
      ensures View(err) == Enrollment.HandleApprovedClaim(old(View(None)), r, token, a)
    {
      hide Provision;
      if r.deviceID == "" {
        err := AddDegraded(HomesignalClaimMissingDeviceId);
        return;
      }
      if r.claimCertificate == "" || r.claimKey == "" {
        err := AddDegraded(HomesignalClaimMissingAwsMaterial);
        return;
      }
      if r.claimExpiresAt != ZERO_TIME && r.claimExpiresAt <= a.now {
        err := AddDegraded(AwsClaimMaterialExpired);
        return;
      }
      if !config.awsIoT {
        err := AddDegraded(AwsIotEndpointUnconfigured);
        return;
      }
      var stored := TryFile(Write(ClaimCert, r.claimCertificate), WriteClaimCert, a);
      if !stored {
        err := AddDegraded(AwsClaimCertificateStorageFailed);
        return;
      }
      stored := TryFile(Write(ClaimKey, r.claimKey), WriteClaimKey, a);
      if !stored {
        err := AddDegraded(AwsClaimKeyStorageFailed);
        return;
      }
      err := ProvisionDevice(r, token, a);
      // the deferred removals
      var _ := TryFile(Remove(ClaimCert), RemoveClaimCert, a);
      var _ := TryFile(Remove(ClaimKey), RemoveClaimKey, a);
    }

    method ProvisionDevice(r: PollResponse, token: string, a: Answers) returns (err: Option<Reason>)
      modifies this
      ensures View(err) == Provision(old(View(None)), r, token, a)
    {
      hide AcceptCertificate;
      var keyed := EnsureDevicePrivateKey(a);
      if !keyed {
        err := AddDegraded(DevicePrivateKeyUnavailable);
        return;
      }
      if !a.csrWorks {
        err := AddDegraded(DeviceCsrUnavailable);
        return;
      }
      var template := r.template;
      if template == "" {
        template := config.template;
      }
      Perform(AskProvision(record.pairingSessionID, template, r.deviceID, r.iotThingName, disk.files[DeviceKey],
                           a.provision));
      if a.provision.None? {
        err := AddDegraded(AwsFleetProvisioningFailed);
        return;
      }
      var p := a.provision.value;
      if p.certificate == "" || p.certificateID == "" {
        err := AddDegraded(AwsFleetProvisioningResponseInvalid);
        return;
      }
      err := AcceptProvisionedCertificate(r, p, token, a);
    }

    method AcceptProvisionedCertificate(r: PollResponse, p: ProvisionResponse, token: string, a: Answers)
      returns (err: Option<Reason>)
      modifies this
      ensures View(err) == AcceptCertificate(old(View(None)), r, p, token, a)
    {
      hide FinalizeWithToken;
      var provisioned := p;
      if provisioned.deviceID == "" {
        provisioned := provisioned.(deviceID := r.deviceID);
      }
      if provisioned.iotThingName == "" {
        provisioned := provisioned.(iotThingName := r.iotThingName);
      }
      var stored := TryFile(Write(DeviceCert, provisioned.certificate), WriteCert, a);
      if !stored {
        err := AddDegraded(DeviceCertificateStorageFailed);
        return;
      }
      record := record.(pendingDeviceID := provisioned.deviceID, pendingIoTThingName := provisioned.iotThingName);
      record := record.(pendingCertificateID := provisioned.certificateID,
          pendingCertificateARN := provisioned.certificateARN);
      err := SaveRecord(SaveProvisioned, a);
      if err.Some? {
        return;
      }
      err := FinalizeClaimWithPollToken(token, a);
    }

    method FinalizeClaim(a: Answers) returns (err: Option<Reason>)
      modifies this
      ensures View(err) == Enrollment.FinalizeClaim(old(View(None)), a)
    {
      if PollToken !in disk.files || Fails(a, ReadToken) {
        err := AddDegraded(PollTokenUnavailable);
        return;
      }
      err := FinalizeClaimWithPollToken(disk.files[PollToken], a);
    }

    method FinalizeClaimWithPollToken(token: string, a: Answers) returns (err: Option<Reason>)
      modifies this
      ensures View(err) == FinalizeWithToken(old(View(None)), token, a)
    {
      if !config.homeSignal {
        err := AddDegraded(HomesignalEnrollmentUnconfigured);
        return;
      }
      Perform(FinalizeRequest(record, token, a.finalize));
      if a.finalize.None? {
        err := AddDegraded(IotProvisionedAwaitingHomesignalConfirmation);
        var _ := TryFile(Save(record), SaveAwaiting, a);
        return;
      }
      var r := a.finalize.value;
      if SaysClaimed(r.status) {
        var claimedAt := r.claimedAt;
        if claimedAt == ZERO_TIME {
          claimedAt := a.now;
        }
        record := record.(claimState := Claimed, claimedAt := Some(claimedAt));
        record := record.(deviceID := FirstNonEmpty(r.deviceID, record.pendingDeviceID));
        record := record.(iotThingName := FirstNonEmpty(r.iotThingName, record.pendingIoTThingName));
        ClearPendingFields();
        var removed := TryFile(Remove(PollToken), RemoveToken, a);
        if !removed {
          err := AddDegraded(PollTokenCleanupFailed);
          return;
        }
        err := SaveRecord(SaveSettled, a);
      } else if Refused(r.status) {
        record := record.(claimState := Revoked, revokedAt := Some(a.now));
        ClearPendingFields();
        err := SaveRecord(SaveSettled, a);
      } else {
        err := AddDegraded(IotProvisionedAwaitingHomesignalConfirmation);
      }
    }

    method CheckClaimedStatus(a: Answers) returns (err: Option<Reason>)
      modifies this
      ensures View(err) == Enrollment.CheckClaimedStatus(old(View(None)), a)
    {
      if !config.homeSignal {
        err := AddDegraded(HomesignalStatusUnavailable);
        return;
      }
      Perform(AskStatus(record.deviceID));
      if a.status.None? {
        err := AddDegraded(HomesignalStatusUnavailable);
        return;
      }
      if Healthy(a.status.value) {
        err := None;
      } else if SaysRevoked(a.status.value) {
        record := record.(claimState := Revoked, revokedAt := Some(a.now));
        err := SaveRecord(SaveStatus, a);
      } else {
        err := AddDegraded(HomesignalDeviceStatusUnknown);
      }
    }
  }
}
