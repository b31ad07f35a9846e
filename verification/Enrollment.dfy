/**
 The claim protocol of the agent: one reconcile pass over the device record, the disk and the
 answers of the cloud. Every effect on the disk and every request to the cloud is appended to a
 log, so that a crash between any two effects is a prefix of the log.
 */
module Enrollment {
  import opened Common

  const SCHEMA_VERSION := 2
  const DEFAULT_POLL_SECONDS := 10

  datatype ClaimState = Unclaimed | PairingPending | Claimed | Revoked | Unrecognized(text: string)

  datatype Record = Record(
    schemaVersion: int,
    installationID: string,
    createdAt: Time,
    claimState: ClaimState,
    deviceID: string,
    iotThingName: string,
    claimedAt: Option<Time>,
    revokedAt: Option<Time>,
    pairingSessionID: string,
    pairingCodeExpiry: Option<Time>,
    pollTokenExpiry: Option<Time>,
    pollIntervalSeconds: int,
    pendingDeviceID: string,
    pendingIoTThingName: string,
    pendingCertificateID: string,
    pendingCertificateARN: string)

  datatype File = DeviceKey | DeviceCert | PollToken | ClaimCert | ClaimKey

  /** What survives a crash: the saved device record and the secret files. */
  datatype Disk = Disk(saved: Option<Record>, files: map<File, string>)

  const BLANK_DISK := Disk(None, map[])

  /** The file operations that can fail, named by where they are attempted. */
  datatype Site =
    | SaveMissing | SaveExpired | SaveReset | SaveSession | SavePoll | SaveProvisioned
    | SaveAwaiting | SaveSettled | SaveStatus
    | ReadToken | WriteToken | RemoveToken | WriteKey | WriteCert
    | WriteClaimCert | WriteClaimKey | RemoveClaimCert | RemoveClaimKey

  datatype Verdict = Confirmed | Denied | Undecided | NoReply

  datatype Effect =
    | Woke(at: Time)
    | Save(record: Record)
    | Write(file: File, content: string)
    | Remove(file: File)
    | Vanish(file: File) // somebody else deletes the file
    | Fail(site: Site) // an attempted file operation is reported as failed
    | AskCreate(installationID: string, answer: Option<CreateResponse>)
    | AskPoll(session: string, token: string, polled: Option<PollResponse>)
    | AskProvision(session: string, template: string, deviceID: string, thing: string,
                   key: string, provisioned: Option<ProvisionResponse>)
    | AskFinalize(session: string, token: string, deviceID: string, thing: string,
                  certificateID: string, certificateARN: string, verdict: Verdict,
                  finalized: Option<FinalizeResponse>)
    | AskStatus(deviceID: string)

  function Apply(d: Disk, e: Effect): Disk {
    match e
    case Save(r) => d.(saved := Some(r))
    case Write(f, content) => d.(files := d.files[f := content])
    case Remove(f) => d.(files := d.files - {f})
    case Vanish(f) => d.(files := d.files - {f})
    case _ => d
  }

  datatype Config = Config(homeSignal: bool, awsIoT: bool, template: string)

  datatype CreateResponse = CreateResponse(
    sessionID: string, pairingCode: string, expiresAt: Time, pollIntervalSeconds: int,
    pollToken: string, pollTokenExpiresAt: Time)

  datatype PollResponse = PollResponse(
    status: string, pairingCode: string, expiresAt: Time, deviceID: string, iotThingName: string,
    claimCertificate: string, claimKey: string, claimExpiresAt: Time, template: string)

  datatype ProvisionResponse = ProvisionResponse(
    deviceID: string, iotThingName: string, certificate: string, certificateID: string,
    certificateARN: string)

  datatype FinalizeResponse = FinalizeResponse(
    status: string, deviceID: string, iotThingName: string, claimedAt: Time)

  /** Everything one pass can learn from outside. A client answer of None is an error. */
  datatype Answers = Answers(
    now: Time,
    faults: map<Site, Fault>,
    newKey: string,
    keyParses: bool,
    csrWorks: bool,
    create: Option<CreateResponse>,
    poll: Option<PollResponse>,
    provision: Option<ProvisionResponse>,
    finalize: Option<FinalizeResponse>,
    status: Option<string>)

  /** Why a pass ended early. All but the first three are shown to the user. */
  datatype Reason =
    | RecordSaveFailed | InstallationIdEmpty | UnsupportedSchemaVersion | HomesignalEnrollmentUnconfigured
    | DevicePrivateKeyUnavailable | DeviceCsrUnavailable | HomesignalEnrollmentUnavailable
    | HomesignalPairingSessionInvalid | PollTokenStorageFailed | HomesignalPairingSessionExpired
    | PollTokenUnavailable | HomesignalPairingPollFailed | HomesignalPairingClaimedWithoutLocalFinalization
    | HomesignalPairingStatusUnknown | HomesignalClaimMissingDeviceId | HomesignalClaimMissingAwsMaterial
    | AwsClaimMaterialExpired | AwsIotEndpointUnconfigured | AwsClaimCertificateStorageFailed
    | AwsClaimKeyStorageFailed | AwsFleetProvisioningFailed | AwsFleetProvisioningResponseInvalid
    | DeviceCertificateStorageFailed | PollTokenCleanupFailed | IotProvisionedAwaitingHomesignalConfirmation
    | HomesignalStatusUnavailable | HomesignalDeviceStatusUnknown | ClaimedCredentialFilesMissing

  /** The process memory (config to error) together with the disk and the log. A world that is
      not up has no running agent. */
  datatype World = World(
    up: bool,
    config: Config,
    record: Record,
    pairingCode: string,
    degraded: seq<Reason>,
    error: Option<Reason>,
    disk: Disk,
    log: seq<Effect>)

  function Do(w: World, e: Effect): World {
    w.(disk := Apply(w.disk, e), log := w.log + [e])
  }

  function Outcome(a: Answers, site: Site): Fault {
    if site in a.faults then a.faults[site] else Works
  }

  predicate Fails(a: Answers, site: Site) {
    Outcome(a, site).Reported()
  }

  /** A file operation that can fail, before or after it has taken effect: the permissions of a
      file are set after it has been written. */
  function Attempt(w: World, e: Effect, site: Site, a: Answers): World {
    var w1 := if Outcome(a, site).Applied() then Do(w, e) else w;
    if Fails(a, site) then Do(w1, Fail(site)) else w1
  }

  /** A save whose error ends the pass. */
  function Commit(w: World, site: Site, a: Answers): World {
    Attempt(w, Save(w.record), site, a).(error := if Fails(a, site) then Some(RecordSaveFailed) else None)
  }

  function AddReason(reasons: seq<Reason>, reason: Reason): seq<Reason> {
    if reason in reasons then reasons else reasons + [reason]
  }

  function Degrade(w: World, reason: Reason): World {
    w.(degraded := AddReason(w.degraded, reason), error := Some(reason))
  }

  function ClearPending(r: Record): Record {
    r.(pairingSessionID := "", pairingCodeExpiry := None, pollTokenExpiry := None,
    pollIntervalSeconds := 0, pendingDeviceID := "", pendingIoTThingName := "",
    pendingCertificateID := "", pendingCertificateARN := "")
  }

  function Abandon(w: World): World {
    w.(record := ClearPending(w.record).(claimState := Unclaimed), pairingCode := "")
  }

  predicate PendingExpired(r: Record, now: Time) {
    || (r.pairingCodeExpiry.Some? && r.pairingCodeExpiry.value <= now)
    || (r.pollTokenExpiry.Some? && r.pollTokenExpiry.value <= now)
  }

  function FirstNonEmpty(a: string, b: string): string {
    if a != "" then a else b
  }

  function Normalize(r: Record, now: Time): Record {
    r.(schemaVersion := if r.schemaVersion == 0 then SCHEMA_VERSION else r.schemaVersion,
    createdAt := if r.createdAt == ZERO_TIME then now else r.createdAt,
    claimState := if r.claimState == Unrecognized("") then Unclaimed else r.claimState)
  }

  /** The device key is read if its file exists and generated otherwise. */
  function EnsureKey(w: World, a: Answers): (World, bool) {
    if DeviceKey in w.disk.files then (w, a.keyParses)
    else (Attempt(w, Write(DeviceKey, a.newKey), WriteKey, a), !Fails(a, WriteKey))
  }

  predicate Pending(status: string) { status == "pending" || status == "PAIRING_PENDING" || status == "" }
  predicate Approved(status: string) { status == "approved" || status == "APPROVED" }
  predicate SaysClaimed(status: string) { status == "claimed" || status == "CLAIMED" }
  predicate SaysRevoked(status: string) { status == "revoked" || status == "REVOKED" }
  predicate Expired(status: string) { status == "expired" || status == "EXPIRED" }
  predicate Refused(status: string) {
    status == "revoked" || status == "REVOKED" || status == "rejected" || status == "REJECTED"
  }
  predicate Healthy(status: string) { status == "claimed" || status == "CLAIMED" || status == "ok" || status == "OK" }

  function VerdictOf(answer: Option<FinalizeResponse>): Verdict {
    if answer.None? then NoReply
    else if SaysClaimed(answer.value.status) then Confirmed
    else if Refused(answer.value.status) then Denied
    else Undecided
  }

  function OpenSession(w: World, r: CreateResponse): World {
    w.(record := w.record.(
      claimState := PairingPending,
      pairingSessionID := r.sessionID,
      pairingCodeExpiry := Some(r.expiresAt),
      pollTokenExpiry := Some(if r.pollTokenExpiresAt == ZERO_TIME then r.expiresAt else r.pollTokenExpiresAt),
      pollIntervalSeconds := if r.pollIntervalSeconds <= 0 then DEFAULT_POLL_SECONDS else r.pollIntervalSeconds),
    pairingCode := r.pairingCode)
  }

  function CreatePairingSession(w: World, a: Answers): World {
    if !w.config.homeSignal then Degrade(w, HomesignalEnrollmentUnconfigured) else
    var (w1, keyed) := EnsureKey(w, a);
    if !keyed then Degrade(w1, DevicePrivateKeyUnavailable) else
    if !a.csrWorks then Degrade(w1, DeviceCsrUnavailable) else
    var w2 := Do(w1, AskCreate(w.record.installationID, a.create));
    if a.create.None? then Degrade(w2, HomesignalEnrollmentUnavailable) else
    var r := a.create.value;
    if r.sessionID == "" || r.pairingCode == "" || r.pollToken == "" then
      Degrade(w2, HomesignalPairingSessionInvalid)
    else AcceptSession(w2, r, a)
  }

  function AcceptSession(w: World, r: CreateResponse, a: Answers): World {
    var w1 := Attempt(w, Write(PollToken, r.pollToken), WriteToken, a);
    if Fails(a, WriteToken) then Degrade(w1, PollTokenStorageFailed) else
    var w2 := OpenSession(w1, r);
    if r.expiresAt < a.now then Degrade(w2, HomesignalPairingSessionExpired)
    else Commit(w2, SaveSession, a)
  }

  predicate TokenReadable(w: World, a: Answers) {
    PollToken in w.disk.files && !Fails(a, ReadToken)
  }

  /** The poll answer may refresh the code shown to the user and its expiry. */
  function Refresh(w: World, r: PollResponse): World {
    w.(pairingCode := if r.pairingCode != "" then r.pairingCode else w.pairingCode,
    record := if r.expiresAt != ZERO_TIME then w.record.(pairingCodeExpiry := Some(r.expiresAt)) else w.record)
  }

  function PollPairingSession(w: World, a: Answers): World {
    if !w.config.homeSignal then Degrade(w, HomesignalEnrollmentUnconfigured) else
    if !TokenReadable(w, a) then Degrade(w, PollTokenUnavailable) else
    var token := w.disk.files[PollToken];
    var w1 := Do(w, AskPoll(w.record.pairingSessionID, token, a.poll));
    if a.poll.None? then Degrade(w1, HomesignalPairingPollFailed) else
    var r := a.poll.value;
    HandlePollAnswer(Refresh(w1, r), r, token, a)
  }

  function HandlePollAnswer(w: World, r: PollResponse, token: string, a: Answers): World {
    if Pending(r.status) then
      Commit(if PendingExpired(w.record, a.now) then Abandon(w) else w, SavePoll, a)
    else if Approved(r.status) then HandleApprovedClaim(w, r, token, a)
    else if SaysClaimed(r.status) then
      Degrade(w, HomesignalPairingClaimedWithoutLocalFinalization)
    else if SaysRevoked(r.status) then
      Commit(w.(record := w.record.(claimState := Revoked, revokedAt := Some(a.now))), SavePoll, a)
    else if Expired(r.status) then Commit(Abandon(w), SavePoll, a)
    else Degrade(w, HomesignalPairingStatusUnknown)
  }

  function HandleApprovedClaim(w: World, r: PollResponse, token: string, a: Answers): World {
    if r.deviceID == "" then Degrade(w, HomesignalClaimMissingDeviceId) else
    if r.claimCertificate == "" || r.claimKey == "" then Degrade(w, HomesignalClaimMissingAwsMaterial) else
    if r.claimExpiresAt != ZERO_TIME && r.claimExpiresAt <= a.now then Degrade(w, AwsClaimMaterialExpired) else
    if !w.config.awsIoT then Degrade(w, AwsIotEndpointUnconfigured) else
    var w1 := Attempt(w, Write(ClaimCert, r.claimCertificate), WriteClaimCert, a);
    if Fails(a, WriteClaimCert) then Degrade(w1, AwsClaimCertificateStorageFailed) else
    var w2 := Attempt(w1, Write(ClaimKey, r.claimKey), WriteClaimKey, a);
    if Fails(a, WriteClaimKey) then Degrade(w2, AwsClaimKeyStorageFailed) else
    DropClaimMaterial(Provision(w2, r, token, a), a)
  }

  /** Deferred until the claim has been handled, whatever its outcome; errors are ignored. */
  function DropClaimMaterial(w: World, a: Answers): World {
    Attempt(Attempt(w, Remove(ClaimCert), RemoveClaimCert, a), Remove(ClaimKey), RemoveClaimKey, a)
  }

  function RecordProvisioning(w: World, r: PollResponse, p: ProvisionResponse): World {
    w.(record := w.record.(
      pendingDeviceID := FirstNonEmpty(p.deviceID, r.deviceID),
      pendingIoTThingName := FirstNonEmpty(p.iotThingName, r.iotThingName),
      pendingCertificateID := p.certificateID,
      pendingCertificateARN := p.certificateARN))
  }

  function Provision(w: World, r: PollResponse, token: string, a: Answers): World {
    var (w1, keyed) := EnsureKey(w, a);
    if !keyed then Degrade(w1, DevicePrivateKeyUnavailable) else
    if !a.csrWorks then Degrade(w1, DeviceCsrUnavailable)
    else RequestCertificate(w1, r, token, a)
  }

  /** The request is signed with the key in the device key file. */
  function ProvisionRequest(w: World, r: PollResponse, a: Answers): Effect
    requires DeviceKey in w.disk.files
  {
    AskProvision(w.record.pairingSessionID, FirstNonEmpty(r.template, w.config.template), r.deviceID, r.iotThingName,
                 w.disk.files[DeviceKey], a.provision)
  }

  function RequestCertificate(w: World, r: PollResponse, token: string, a: Answers): World
    requires DeviceKey in w.disk.files
  {
    var w1 := Do(w, ProvisionRequest(w, r, a));
    if a.provision.None? then Degrade(w1, AwsFleetProvisioningFailed) else
    var p := a.provision.value;
    if p.certificate == "" || p.certificateID == "" then
      Degrade(w1, AwsFleetProvisioningResponseInvalid)
    else AcceptCertificate(w1, r, p, token, a)
  }

  function AcceptCertificate(w: World, r: PollResponse, p: ProvisionResponse, token: string, a: Answers): World {
    var w1 := Attempt(w, Write(DeviceCert, p.certificate), WriteCert, a);
    if Fails(a, WriteCert) then Degrade(w1, DeviceCertificateStorageFailed) else
    var w2 := Commit(RecordProvisioning(w1, r, p), SaveProvisioned, a);
    if Fails(a, SaveProvisioned) then w2 else FinalizeWithToken(w2, token, a)
  }

  function FinalizeClaim(w: World, a: Answers): World {
    if !TokenReadable(w, a) then Degrade(w, PollTokenUnavailable)
    else FinalizeWithToken(w, w.disk.files[PollToken], a)
  }

  function FinalizeRequest(r: Record, token: string, answer: Option<FinalizeResponse>): Effect {
    AskFinalize(r.pairingSessionID, token, r.pendingDeviceID, r.pendingIoTThingName,
                r.pendingCertificateID, r.pendingCertificateARN, VerdictOf(answer), answer)
  }

  /** The record the agent holds once the cloud has confirmed the claim. */
  function ClaimedRecord(r: Record, f: FinalizeResponse, now: Time): Record {
    ClearPending(r.(
      claimState := Claimed,
      deviceID := FirstNonEmpty(f.deviceID, r.pendingDeviceID),
      iotThingName := FirstNonEmpty(f.iotThingName, r.pendingIoTThingName),
      claimedAt := Some(if f.claimedAt == ZERO_TIME then now else f.claimedAt)))
  }

  function FinalizeWithToken(w: World, token: string, a: Answers): World {
    if !w.config.homeSignal then Degrade(w, HomesignalEnrollmentUnconfigured) else
    var w1 := Do(w, FinalizeRequest(w.record, token, a.finalize));
    match VerdictOf(a.finalize)
    case NoReply =>
      Degrade(Attempt(w1, Save(w1.record), SaveAwaiting, a), IotProvisionedAwaitingHomesignalConfirmation)
    case Confirmed =>
      var w2 := w1.(record := ClaimedRecord(w1.record, a.finalize.value, a.now), pairingCode := "");
      var w3 := Attempt(w2, Remove(PollToken), RemoveToken, a);
      if Fails(a, RemoveToken) then Degrade(w3, PollTokenCleanupFailed) else Commit(w3, SaveSettled, a)
    case Denied =>
      var r := ClearPending(w1.record.(claimState := Revoked, revokedAt := Some(a.now)));
      Commit(w1.(record := r, pairingCode := ""), SaveSettled, a)
    case Undecided => Degrade(w1, IotProvisionedAwaitingHomesignalConfirmation)
  }

  function CheckClaimedStatus(w: World, a: Answers): World {
    if !w.config.homeSignal then Degrade(w, HomesignalStatusUnavailable) else
    var w1 := Do(w, AskStatus(w.record.deviceID));
    if a.status.None? then Degrade(w1, HomesignalStatusUnavailable) else
    if Healthy(a.status.value) then w1 else
    if SaysRevoked(a.status.value) then
      Commit(w1.(record := w1.record.(claimState := Revoked, revokedAt := Some(a.now))), SaveStatus, a)
    else Degrade(w1, HomesignalDeviceStatusUnknown)
  }

  function Reconcile(w: World, a: Answers): World {
    if w.record.claimState == Claimed then
      if DeviceKey !in w.disk.files || DeviceCert !in w.disk.files then
        var w1 := w.(record := w.record.(claimState := Unclaimed, claimedAt := None));
        Attempt(Degrade(w1, ClaimedCredentialFilesMissing), Save(w1.record), SaveMissing, a)
      else CheckClaimedStatus(w, a)
    else
      var w1 :=
        if w.record.claimState == PairingPending && w.record.pendingCertificateID == ""
           && PendingExpired(w.record, a.now)
        then var v := Abandon(w); Attempt(v, Save(v.record), SaveExpired, a)
        else w;
      match w1.record.claimState
      case Unclaimed => CreatePairingSession(w1, a)
      case PairingPending =>
        if w1.record.pendingCertificateID != "" then FinalizeClaim(w1, a) else PollPairingSession(w1, a)
      case Revoked => w1
      case _ =>
        var w2 := w1.(record := w1.record.(claimState := Unclaimed));
        CreatePairingSession(Attempt(w2, Save(w2.record), SaveReset, a), a)
  }

  function Wake(w: World, a: Answers): World {
    Do(w.(degraded := [], error := None, record := Normalize(w.record, a.now)), Woke(a.now))
  }

  /** One reconcile pass. */
  function RunOnce(w: World, a: Answers): World {
    Reconcile(Wake(w, a), a)
  }

  type InstallationID = s: string | s != "" witness "-"

  /** What a starting process brings along: its configuration, a fresh identifier, the time. */
  datatype Boot = Boot(config: Config, newID: InstallationID, now: Time)

  function FreshRecord(boot: Boot): Record {
    Record(SCHEMA_VERSION, boot.newID, boot.now, Unclaimed, "", "", None, None, "", None, None, 0, "", "", "", "")
  }

  /** The record a starting agent works with, and whether it must be saved first. */
  function LoadRecord(d: Disk, boot: Boot): Result<(Record, bool), Reason> {
    if d.saved.None? then Success((FreshRecord(boot), true)) else
    var r := d.saved.value;
    if r.installationID == "" then Failure(InstallationIdEmpty) else
    var r1 := if r.schemaVersion == 0
              then r.(schemaVersion := SCHEMA_VERSION, claimState := Unclaimed,
                   createdAt := if r.createdAt == ZERO_TIME then boot.now else r.createdAt)
              else r;
    var r2 := if r1.claimState == Unrecognized("") then r1.(claimState := Unclaimed) else r1;
    if r2.schemaVersion != SCHEMA_VERSION then Failure(UnsupportedSchemaVersion)
    else Success((r2, r2 != r))
  }

  /** The disk that a log leaves behind on an initially blank device. */
  function DiskOf(log: seq<Effect>): Disk {
    if log == [] then BLANK_DISK else Apply(DiskOf(log[..|log| - 1]), log[|log| - 1])
  }

  /** A process starts on the disk left by the log. */
  function Start(log: seq<Effect>, boot: Boot): World {
    var d := DiskOf(log);
    match LoadRecord(d, boot)
    case Failure(e) => World(false, boot.config, FreshRecord(boot), "", [], Some(e), d, log)
    case Success((r, dirty)) =>
      var w := World(true, boot.config, r, "", [], None, d, log);
      if dirty then Do(w, Save(r)) else w
  }

  /** A whole pass, a pass cut by a crash after `keep` effects and followed by a restart, or a
      file deleted by somebody else. */
  datatype Move = Tick(a: Answers) | Crash(a: Answers, keep: nat, boot: Boot) | Lose(file: File)

  function Pass(w: World, a: Answers): World {
    if w.up then RunOnce(w, a) else w
  }

  /** The log that a pass leaves behind when it is cut after `keep` effects. */
  function Cut(w: World, a: Answers, keep: nat): seq<Effect> {
    var log := Pass(w, a).log;
    if |w.log| + keep < |log| then log[..|w.log| + keep] else log
  }

  function Step(w: World, m: Move): World {
    match m
    case Tick(a) => Pass(w, a)
    case Crash(a, keep, boot) => Start(Cut(w, a, keep), boot)
    case Lose(f) => Do(w, Vanish(f))
  }

  /** Any run of the agent on an initially blank device. */
  function Run(boot: Boot, moves: seq<Move>): World {
    if moves == [] then Start([], boot) else Step(Run(boot, moves[..|moves| - 1]), moves[|moves| - 1])
  }
}
