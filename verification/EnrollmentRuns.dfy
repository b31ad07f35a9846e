/**
 Theorems about every run of the agent: the claim-state graph, the certificate lock, the meaning
 of CLAIMED and of REVOKED, what one pass does, and how a claim completes.
 */
module EnrollmentRuns {
  import opened Common
  import opened Enrollment
  import opened EnrollmentSafety

  // ---------------------------------------------------------------- safety

  /** Saved records follow the claim-state graph; REVOKED is never left, whatever fails. */
  lemma SavedRecordsFollowTheGraph(boot: Boot, moves: seq<Move>, i: nat)
    requires i < |Run(boot, moves).log| && Run(boot, moves).log[i].Save?
    ensures var log := Run(boot, moves).log;
            var before, r := log[..i], log[i].record;
            && (SavedAs(DiskOf(before), Revoked) ==> r.claimState == Revoked)
            && (Clean(before) && ClockForward(before) ==> Edge(DiskOf(before), r))
            && (Clean(before) ==> Edge(DiskOf(before), r) || BackwardRevocation(before, r))
  {
    RunKeeps(boot, moves);
    assert Rule(Run(boot, moves).log[..i], Run(boot, moves).log[i]);
  }

  lemma {:induction false} BoundUntilConfirmed(log: seq<Effect>, i: nat, j: nat)
    requires i < j <= |log| && log[i].Save? && log[i].record.pendingCertificateID != ""
    requires forall k :: i < k < j ==> !(log[k].AskFinalize? && log[k].verdict == Confirmed)
    ensures Bound(log[..j])
  {
    assert log[..j] == log[..j - 1] + [log[j - 1]];
    ExtendFold(log[..j - 1], log[j - 1]);
    if i < j - 1 {
      BoundUntilConfirmed(log, i, j - 1);
    }
  }

  /** Once a provisioned certificate is saved, no session is opened or polled and nothing is
      provisioned before the cloud has confirmed the claim, whatever fails and whenever the
      agent restarts. */
  lemma CertificateLock(boot: Boot, moves: seq<Move>, i: nat, j: nat)
    requires i < j < |Run(boot, moves).log|
    requires var log := Run(boot, moves).log;
             log[i].Save? && log[i].record.pendingCertificateID != "" && AsksForNewCredential(log[j])
    ensures var log := Run(boot, moves).log;
            exists k :: i < k < j && log[k].AskFinalize? && log[k].verdict == Confirmed
  {
    RunKeeps(boot, moves);
    var log := Run(boot, moves).log;
    hide Run, DiskOf, Bound;
    NewCredentialIsNotBound(Run(boot, moves), j);
    if forall k :: i < k < j ==> !(log[k].AskFinalize? && log[k].verdict == Confirmed) {
      BoundUntilConfirmed(log, i, j);
    }
  }

  lemma NewCredentialIsNotBound(w: World, j: nat)
    requires Inv(w) && j < |w.log| && AsksForNewCredential(w.log[j])
    ensures !Bound(w.log[..j])
  {
    hide DiskOf, Bound, Clean, ClockForward, Tampered, RecordOK, FollowsRevocation;
    assert Rule(w.log[..j], w.log[j]);
  }

  lemma {:induction false} FilesComeFromWrites(log: seq<Effect>, f: File)
    requires f in DiskOf(log).files
    ensures Write(f, DiskOf(log).files[f]) in log
  {
    var rest, e := log[..|log| - 1], log[|log| - 1];
    assert log == rest + [e];
    ExtendFold(rest, e);
    if e != Write(f, DiskOf(log).files[f]) {
      FilesComeFromWrites(rest, f);
    }
  }

  /** What CLAIMED on the disk means at any moment of any run. The credential is there, written
      by the agent, unless somebody else deleted it. */
  lemma ClaimedMeans(boot: Boot, moves: seq<Move>, n: nat)
    requires n <= |Run(boot, moves).log|
    ensures var log := Run(boot, moves).log[..n];
            var d := DiskOf(log);
            SavedAs(d, Claimed) ==>
              && d.saved.value.deviceID != "" && d.saved.value.claimedAt.Some? && NothingPending(d.saved.value)
              && (!Tampered(log) ==>
                    && HasCredential(d.files)
                    && Write(DeviceKey, d.files[DeviceKey]) in log
                    && Write(DeviceCert, d.files[DeviceCert]) in log)
              && (Clean(log) ==> PollToken !in d.files)
              && exists k :: 0 <= k < n - 2 && log[k].AskFinalize? && log[k].verdict == Confirmed
                             && log[k + 1] == Remove(PollToken) && log[k + 2] == Save(d.saved.value)
  {
    RunKeeps(boot, moves);
    var log := Run(boot, moves).log[..n];
    LawfulPrefix(Run(boot, moves).log, n);
    LawfulDisk(log);
    if SavedAs(DiskOf(log), Claimed) {
      var k := ClaimedWasConfirmed(log);
      assert log[k].AskFinalize?;
      if !Tampered(log) {
        FilesComeFromWrites(log, DeviceKey);
        FilesComeFromWrites(log, DeviceCert);
      }
    }
  }

  lemma ClaimEndsAConfirmation(log: seq<Effect>)
    requires Lawful(log) && log != [] && log[|log| - 1].Save? && log[|log| - 1].record.claimState == Claimed
    ensures EndsWithConfirmedClaim(log[..|log| - 1])
  {
    assert Rule(log[..|log| - 1], log[|log| - 1]);
    hide DiskOf, Tampered, Lawful, Bound, Clean, ClockForward, RecordOK;
  }

  predicate ConfirmedAt(log: seq<Effect>, k: nat, r: Record) {
    && k < |log| - 2 && log[k].AskFinalize? && log[k].verdict == Confirmed
    && log[k + 1] == Remove(PollToken) && log[k + 2] == Save(r)
  }

  lemma ClaimedNow(log: seq<Effect>)
    requires log != [] && log[|log| - 1].Save? && EndsWithConfirmedClaim(log[..|log| - 1])
    ensures |log| >= 3 && ConfirmedAt(log, |log| - 3, log[|log| - 1].record)
  {
    assert forall k :: 0 <= k < |log| - 1 ==> log[..|log| - 1][k] == log[k];
  }

  lemma {:induction false} ClaimedWasConfirmed(log: seq<Effect>) returns (k: nat)
    requires Lawful(log) && SavedAs(DiskOf(log), Claimed)
    ensures ConfirmedAt(log, k, DiskOf(log).saved.value)
  {
    hide DiskOf, Lawful, EndsWithConfirmedClaim;
    NotBlank(log);
    var rest, e := log[..|log| - 1], log[|log| - 1];
    assert log == rest + [e];
    ExtendFold(rest, e);
    if e.Save? {
      ClaimEndsAConfirmation(log);
      ClaimedNow(log);
      k := |log| - 3;
    } else {
      LawfulPrefix(log, |log| - 1);
      k := ClaimedWasConfirmed(rest);
      hide SavedAs;
    }
  }

  lemma NotBlank(log: seq<Effect>)
    ensures DiskOf(log).saved.Some? ==> log != []
  {}

  /** A saved provisioning that awaits its confirmation is complete. */
  lemma PendingCertificateMeans(boot: Boot, moves: seq<Move>, n: nat)
    requires n <= |Run(boot, moves).log|
    ensures var log := Run(boot, moves).log[..n];
            var d := DiskOf(log);
            d.saved.Some? && d.saved.value.pendingCertificateID != "" ==>
              && SavedAs(d, PairingPending) && d.saved.value.pendingDeviceID != ""
              && (Tampered(log) || HasCredential(d.files))
  {
    RunKeeps(boot, moves);
    LawfulPrefix(Run(boot, moves).log, n);
    LawfulDisk(Run(boot, moves).log[..n]);
  }

  /** The cloud is asked to confirm complete provisionings only, and, unless a file operation
      has failed, exactly the one that is saved. */
  lemma OnlySavedProvisioningsAreConfirmed(boot: Boot, moves: seq<Move>, i: nat)
    requires i < |Run(boot, moves).log| && Run(boot, moves).log[i].AskFinalize?
    ensures var log := Run(boot, moves).log;
            var before, ask := log[..i], log[i];
            && ask.certificateID != "" && ask.deviceID != "" && !SavedAs(DiskOf(before), Revoked)
            && (Clean(before) ==>
                  SavedAs(DiskOf(before), PairingPending)
                  && DiskOf(before).saved.value.pendingCertificateID == ask.certificateID)
  {
    RunKeeps(boot, moves);
    assert Rule(Run(boot, moves).log[..i], Run(boot, moves).log[i]);
    LawfulPrefix(Run(boot, moves).log, i);
    LawfulDisk(Run(boot, moves).log[..i]);
  }

  lemma {:induction false} RevokedStays(log: seq<Effect>, n: nat, i: nat)
    requires Lawful(log) && n <= i <= |log| && SavedAs(DiskOf(log[..n]), Revoked)
    ensures DiskOf(log[..i]).saved == DiskOf(log[..n]).saved
    ensures forall k :: n <= k < i ==> FollowsRevocation(log[k])
  {
    hide DiskOf, Lawful;
    if n < i {
      RevokedStays(log, n, i - 1);
      assert log[..i] == log[..i - 1] + [log[i - 1]];
      ExtendFold(log[..i - 1], log[i - 1]);
      RevokedThen(log, i - 1);
    }
  }

  lemma RevokedThen(log: seq<Effect>, i: nat)
    requires Lawful(log) && i < |log| && SavedAs(DiskOf(log[..i]), Revoked)
    ensures FollowsRevocation(log[i])
  {
    hide DiskOf, Bound, Clean, ClockForward, Tampered, RecordOK, FollowsRevocation, Edge;
    assert Rule(log[..i], log[i]);
  }

  /** Once REVOKED is saved, whatever happens: the saved record stays what it is, the agent asks
      the cloud nothing, writes nothing, and removes nothing but the claim files of the pass that
      was told so. */
  lemma RevokedForever(boot: Boot, moves: seq<Move>, n: nat, i: nat)
    requires n <= i < |Run(boot, moves).log| && SavedAs(DiskOf(Run(boot, moves).log[..n]), Revoked)
    ensures var log := Run(boot, moves).log;
            FollowsRevocation(log[i]) && DiskOf(log[..i]).saved == DiskOf(log[..n]).saved
  {
    RunKeeps(boot, moves);
    hide Run, DiskOf;
    RevokedStays(Run(boot, moves).log, n, i + 1);
    RevokedStays(Run(boot, moves).log, n, i);
  }

  // ---------------------------------------------------------------- what one pass does

  /** A claimed agent loses its claim exactly when a credential file is missing, is revoked
      exactly when the cloud says so, and otherwise leaves the disk alone. */
  lemma PassOfAClaimedAgent(w: World, a: Answers)
    requires Inv(w) && w.record.claimState == Claimed
    ensures var s := RunOnce(w, a).record.claimState;
            && (s == Unclaimed <==> !HasCredential(w.disk.files))
            && (s == Revoked <==>
                HasCredential(w.disk.files) && w.config.homeSignal && a.status.Some? && SaysRevoked(a.status.value))
            && (s != Unclaimed && s != Revoked ==> s == Claimed && RunOnce(w, a).disk == w.disk)
            && (a.faults == map[] && s != Claimed ==> RunOnce(w, a).disk.saved == Some(RunOnce(w, a).record))
  {
    hide Inv, AddReason;
  }

  /** An agent that awaits a confirmation settles exactly on the cloud's verdict, and otherwise
      keeps its certificate and its files. */
  lemma PassOfAWaitingAgent(w: World, a: Answers)
    requires Inv(w) && w.record.claimState == PairingPending && w.record.pendingCertificateID != ""
    ensures var v := RunOnce(w, a);
            var asked := w.config.homeSignal && TokenReadable(w, a);
            && (v.record.claimState == Claimed <==> asked && VerdictOf(a.finalize) == Confirmed)
            && (v.record.claimState == Revoked <==> asked && VerdictOf(a.finalize) == Denied)
            && (v.record.claimState != Claimed && v.record.claimState != Revoked ==>
                  v.record.pendingCertificateID == w.record.pendingCertificateID && v.disk.files == w.disk.files)
            && (a.faults == map[] && v.record.claimState != PairingPending ==> v.disk.saved == Some(v.record))
  {
    hide Inv, AddReason, CreatePairingSession, PollPairingSession, CheckClaimedStatus, FinalizeWithToken;
    var v := Wake(w, a);
    assert v.record == w.record.(schemaVersion := v.record.schemaVersion, createdAt := v.record.createdAt);
    if TokenReadable(w, a) {
      FinalizingState(v, w.disk.files[PollToken], a);
    }
  }

  lemma FinalizingState(w: World, token: string, a: Answers)
    requires w.record.claimState == PairingPending
    ensures var v := FinalizeWithToken(w, token, a);
            && (v.record.claimState == Claimed <==> w.config.homeSignal && VerdictOf(a.finalize) == Confirmed)
            && (v.record.claimState == Revoked <==> w.config.homeSignal && VerdictOf(a.finalize) == Denied)
            && (v.record.claimState != Claimed && v.record.claimState != Revoked ==>
                  v.record == w.record && v.disk.files == w.disk.files)
            && (a.faults == map[] && v.record.claimState != PairingPending ==> v.disk.saved == Some(v.record))
  {
    hide AddReason, SaysClaimed, Refused;
  }

  /** A live session is given up exactly when the cloud says it has expired, or that it is still
      pending when its time is over; a poll that reports "claimed" changes nothing on the disk. */
  lemma PassOfAPollingAgent(w: World, a: Answers)
    requires w.record.claimState == PairingPending && w.record.pendingCertificateID == ""
    requires !PendingExpired(w.record, a.now)
    ensures var v := RunOnce(w, a);
            var polled := w.config.homeSignal && TokenReadable(w, a) && a.poll.Some?;
            && (v.record.claimState == Unclaimed <==>
                polled && (Expired(a.poll.value.status)
                           || (Pending(a.poll.value.status) && PendingExpired(Refresh(w, a.poll.value).record, a.now))))
            && (polled && SaysRevoked(a.poll.value.status) ==> v.record.claimState == Revoked)
            && (v.record.claimState == Claimed ==>
                  polled && Approved(a.poll.value.status) && VerdictOf(a.finalize) == Confirmed)
            && (!polled || SaysClaimed(a.poll.value.status) ==>
                  v.disk == w.disk && v.record.claimState == PairingPending && v.error.Some?)
  {
    hide HandlePollAnswer, CreatePairingSession, FinalizeClaim, CheckClaimedStatus, AddReason;
    if a.poll.Some? && TokenReadable(w, a) {
      var token := w.disk.files[PollToken];
      var v := Do(Wake(w, a), AskPoll(w.record.pairingSessionID, token, a.poll));
      AnswerState(Refresh(v, a.poll.value), a.poll.value, token, a);
    }
  }

  lemma AnswerState(w: World, r: PollResponse, token: string, a: Answers)
    requires w.record.claimState == PairingPending
    ensures var v := HandlePollAnswer(w, r, token, a);
            && (v.record.claimState == Unclaimed <==>
                Expired(r.status) || (Pending(r.status) && PendingExpired(w.record, a.now)))
            && (SaysRevoked(r.status) ==> v.record.claimState == Revoked)
            && (v.record.claimState == Claimed ==> Approved(r.status) && VerdictOf(a.finalize) == Confirmed)
            && (SaysClaimed(r.status) ==> v.disk == w.disk && v.record.claimState == PairingPending && v.error.Some?)
  {
    hide HandleApprovedClaim, AddReason, VerdictOf;
    ApprovedState(w, r, token, a);
  }

  lemma ApprovedState(w: World, r: PollResponse, token: string, a: Answers)
    requires w.record.claimState == PairingPending
    ensures var s := HandleApprovedClaim(w, r, token, a).record.claimState;
            s != Unclaimed && (s == Claimed ==> VerdictOf(a.finalize) == Confirmed)
  {
    hide AddReason, VerdictOf, Provision;
    var w1 := Attempt(w, Write(ClaimCert, r.claimCertificate), WriteClaimCert, a);
    ProvisionedState(Attempt(w1, Write(ClaimKey, r.claimKey), WriteClaimKey, a), r, token, a);
  }

  lemma ProvisionedState(w: World, r: PollResponse, token: string, a: Answers)
    requires w.record.claimState == PairingPending
    ensures var s := Provision(w, r, token, a).record.claimState;
            s != Unclaimed && (s == Claimed ==> VerdictOf(a.finalize) == Confirmed)
  {
    hide AddReason, VerdictOf, AcceptCertificate;
    var (w1, keyed) := EnsureKey(w, a);
    if keyed && a.provision.Some? {
      AcceptedState(Do(w1, ProvisionRequest(w1, r, a)), r, a.provision.value, token, a);
    }
  }

  lemma AcceptedState(w: World, r: PollResponse, p: ProvisionResponse, token: string, a: Answers)
    requires w.record.claimState == PairingPending
    ensures var s := AcceptCertificate(w, r, p, token, a).record.claimState;
            s != Unclaimed && (s == Claimed ==> VerdictOf(a.finalize) == Confirmed)
  {
    hide AddReason, VerdictOf, FinalizeWithToken;
    var w1 := Attempt(w, Write(DeviceCert, p.certificate), WriteCert, a);
    FinalizedState(Commit(RecordProvisioning(w1, r, p), SaveProvisioned, a), token, a);
  }

  lemma FinalizedState(w: World, token: string, a: Answers)
    requires w.record.claimState == PairingPending
    ensures var s := FinalizeWithToken(w, token, a).record.claimState;
            s != Unclaimed && (s == Claimed ==> VerdictOf(a.finalize) == Confirmed)
  {
    hide AddReason, VerdictOf;
  }

  /** A revoked agent does nothing at all. */
  lemma PassOfARevokedAgent(w: World, a: Answers)
    requires w.record.claimState == Revoked
    ensures RunOnce(w, a) == Wake(w, a) && RunOnce(w, a).disk == w.disk && RunOnce(w, a).error == None
  {}

  // ---------------------------------------------------------------- progress

  predicate Smooth(a: Answers) {
    a.faults == map[] && a.keyParses && a.csrWorks
  }

  predicate GoodSession(a: Answers) {
    && a.create.Some?
    && a.create.value.sessionID != "" && a.create.value.pairingCode != "" && a.create.value.pollToken != ""
    && a.now <= a.create.value.expiresAt
  }

  predicate GoodApproval(a: Answers) {
    && a.poll.Some? && Approved(a.poll.value.status) && a.poll.value.deviceID != ""
    && a.poll.value.claimCertificate != "" && a.poll.value.claimKey != ""
    && (a.poll.value.claimExpiresAt == ZERO_TIME || a.now < a.poll.value.claimExpiresAt)
    && a.provision.Some? && a.provision.value.certificate != "" && a.provision.value.certificateID != ""
    && VerdictOf(a.finalize) == Confirmed
  }

  /** A good session followed by an approval before it expires ends in a saved claim that names
      the device the cloud named, most specific answer first. */
  lemma ClaimCompletes(w: World, a1: Answers, a2: Answers)
    requires Inv(w) && w.record.claimState == Unclaimed && w.config.homeSignal && w.config.awsIoT
    requires Smooth(a1) && GoodSession(a1)
    requires Smooth(a2) && GoodApproval(a2)
    requires !PendingExpired(RunOnce(w, a1).record, a2.now)
    ensures var v := RunOnce(RunOnce(w, a1), a2);
            IsClaimed(v, a2.poll.value, a2) && ClaimCert !in v.disk.files && ClaimKey !in v.disk.files
  {
    var w1 := RunOnce(w, a1);
    SessionIsSaved(w, a1);
    RunOnceKeeps(w, a1);
    hide DiskOf, Bound, Clean, ClockForward, Tampered, Lawful, Rule, Inv, RunOnce;
    ApprovalIsClaimed(w1, a2);
  }

  /** A good session is saved as the cloud described it, with its token beside it. */
  lemma SessionIsSaved(w: World, a: Answers)
    requires Inv(w) && w.record.claimState == Unclaimed && w.config.homeSignal
    requires Smooth(a) && GoodSession(a)
    ensures var v := RunOnce(w, a);
            && v.error == None && v.config == w.config && v.disk.saved == Some(v.record)
            && v.record.claimState == PairingPending && v.record.pendingCertificateID == ""
            && v.record.pairingSessionID == a.create.value.sessionID
            && v.record.pairingCodeExpiry == Some(a.create.value.expiresAt)
            && v.record.pollTokenExpiry == Some(if a.create.value.pollTokenExpiresAt == ZERO_TIME
                                                then a.create.value.expiresAt else a.create.value.pollTokenExpiresAt)
            && v.record.pollIntervalSeconds ==
               (if 0 < a.create.value.pollIntervalSeconds then a.create.value.pollIntervalSeconds else 10)
            && v.pairingCode == a.create.value.pairingCode
            && PollToken in v.disk.files && v.disk.files[PollToken] == a.create.value.pollToken
            && DeviceKey in v.disk.files
  {
    NothingPendingUnclaimed(w);
    hide Inv, Reconcile, CreatePairingSession, OpenSession, AcceptSession;
    var v := Wake(w, a);
    UnclaimedCreates(v, a);
    var u := SessionRequested(v, a);
    SessionAccepted(u, a.create.value, a);
    OpenedSession(u, a.create.value);
  }

  lemma SessionRequested(v: World, a: Answers) returns (u: World)
    requires v.config.homeSignal && Smooth(a) && GoodSession(a)
    ensures CreatePairingSession(v, a) == AcceptSession(u, a.create.value, a)
    ensures u.record == v.record && u.config == v.config && DeviceKey in u.disk.files
  {
    hide AcceptSession, Attempt, AddReason;
    var v1 := if DeviceKey in v.disk.files then v else Do(v, Write(DeviceKey, a.newKey));
    WorksAtOnce(v, Write(DeviceKey, a.newKey), WriteKey, a);
    u := Do(v1, AskCreate(v.record.installationID, a.create));
  }

  lemma OpenedSession(w: World, r: CreateResponse)
    ensures var s := OpenSession(w, r).record;
            && s.claimState == PairingPending && s.pendingCertificateID == w.record.pendingCertificateID
            && s.pairingSessionID == r.sessionID && s.pairingCodeExpiry == Some(r.expiresAt)
            && s.pollTokenExpiry ==
               Some(if r.pollTokenExpiresAt == ZERO_TIME then r.expiresAt else r.pollTokenExpiresAt)
            && s.pollIntervalSeconds == (if 0 < r.pollIntervalSeconds then r.pollIntervalSeconds else 10)
  {}

  lemma UnclaimedCreates(v: World, a: Answers)
    requires v.record.claimState == Unclaimed
    ensures Reconcile(v, a) == CreatePairingSession(v, a)
  {
    hide CreatePairingSession, PollPairingSession, FinalizeClaim, CheckClaimedStatus;
  }

  lemma WorksAtOnce(w: World, e: Effect, site: Site, a: Answers)
    requires Smooth(a)
    ensures Attempt(w, e, site, a) == Do(w, e) && !Fails(a, site)
  {}

  lemma SessionAccepted(w: World, r: CreateResponse, a: Answers)
    requires Smooth(a) && a.now <= r.expiresAt
    ensures var v := AcceptSession(w, r, a);
            && v.error == None && v.config == w.config && v.disk.saved == Some(v.record)
            && v.record == OpenSession(w, r).record && v.pairingCode == r.pairingCode
            && v.disk.files == w.disk.files[PollToken := r.pollToken]
  {
    var w1 := OpenSession(Do(w, Write(PollToken, r.pollToken)), r);
    WorksAtOnce(w, Write(PollToken, r.pollToken), WriteToken, a);
    WorksAtOnce(w1, Save(w1.record), SaveSession, a);
    hide Attempt;
  }

  lemma NothingPendingUnclaimed(w: World)
    requires Inv(w) && w.record.claimState == Unclaimed
    ensures w.record.pendingCertificateID == ""
  {}

  ghost predicate IsClaimed(v: World, r: PollResponse, a: Answers)
    requires a.finalize.Some? && a.provision.Some?
  {
    && v.error == None && v.disk.saved == Some(v.record)
    && v.record.claimState == Claimed && NothingPending(v.record) && HasCredential(v.disk.files)
    && (var f, p := a.finalize.value, a.provision.value;
        && v.record.deviceID == (if f.deviceID != "" then f.deviceID
                                 else if p.deviceID != "" then p.deviceID else r.deviceID)
        && v.record.iotThingName == (if f.iotThingName != "" then f.iotThingName
                                     else if p.iotThingName != "" then p.iotThingName else r.iotThingName)
        && v.record.claimedAt == Some(if f.claimedAt != ZERO_TIME then f.claimedAt else a.now))
    && v.disk.files[DeviceCert] == a.provision.value.certificate
    && PollToken !in v.disk.files
  }

  lemma FinalizeIsClaimed(w: World, r: PollResponse, token: string, a: Answers)
    requires w.config.homeSignal && a.faults == map[] && VerdictOf(a.finalize) == Confirmed && a.provision.Some?
    requires HasCredential(w.disk.files) && w.disk.files[DeviceCert] == a.provision.value.certificate
    requires var p := a.provision.value;
             && w.record.pendingDeviceID == (if p.deviceID != "" then p.deviceID else r.deviceID)
             && w.record.pendingIoTThingName == (if p.iotThingName != "" then p.iotThingName else r.iotThingName)
    ensures IsClaimed(FinalizeWithToken(w, token, a), r, a)
  {}

  lemma ProvisionIsClaimed(w: World, r: PollResponse, token: string, a: Answers)
    requires w.config.homeSignal && Smooth(a) && DeviceKey in w.disk.files && VerdictOf(a.finalize) == Confirmed
    requires a.provision.Some? && a.provision.value.certificate != "" && a.provision.value.certificateID != ""
    ensures IsClaimed(Provision(w, r, token, a), r, a)
  {
    hide FinalizeWithToken, IsClaimed;
    var p := a.provision.value;
    var ask := ProvisionRequest(w, r, a);
    var w1 := Commit(RecordProvisioning(Do(Do(w, ask), Write(DeviceCert, p.certificate)), r, p), SaveProvisioned, a);
    FinalizeIsClaimed(w1, r, token, a);
  }

  lemma ApprovalIsClaimed(w: World, a: Answers)
    requires w.record.claimState == PairingPending && w.record.pendingCertificateID == ""
    requires w.config.homeSignal && w.config.awsIoT && !PendingExpired(w.record, a.now)
    requires PollToken in w.disk.files && DeviceKey in w.disk.files
    requires Smooth(a) && GoodApproval(a)
    ensures var v := RunOnce(w, a);
            IsClaimed(v, a.poll.value, a) && ClaimCert !in v.disk.files && ClaimKey !in v.disk.files
  {
    hide Provision;
    var v := Wake(w, a);
    var v1 := Refresh(Do(v, AskPoll(v.record.pairingSessionID, v.disk.files[PollToken], a.poll)), a.poll.value);
    var v2 := Do(Do(v1, Write(ClaimCert, a.poll.value.claimCertificate)), Write(ClaimKey, a.poll.value.claimKey));
    ProvisionIsClaimed(v2, a.poll.value, w.disk.files[PollToken], a);
    assert RunOnce(w, a) == DropClaimMaterial(Provision(v2, a.poll.value, w.disk.files[PollToken], a), a);
  }
}
