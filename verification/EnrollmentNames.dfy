/**
 Which device a claim is about: where the ids of a pending provisioning and of a claimed record come
 from, and that a device keeps its identity.
 */
module EnrollmentNames {
  import opened Common
  import opened Enrollment
  import opened EnrollmentSafety

  /** What a confirmation is asked for. */
  datatype Names = Names(
    session: string, deviceID: string, thing: string, certificateID: string, certificateARN: string)

  function PendingNames(r: Record): Names {
    Names(r.pairingSessionID, r.pendingDeviceID, r.pendingIoTThingName, r.pendingCertificateID, r.pendingCertificateARN)
  }

  /** The names are those of the provisioning at i: the device and the thing are the provisioner's,
      or those it was asked for where it gives none. */
  predicate NamedAt(log: seq<Effect>, i: nat, n: Names) {
    && i < |log| && log[i].AskProvision? && log[i].provisioned.Some? && log[i].session == n.session
    && var p := log[i].provisioned.value;
       && n.certificateID == p.certificateID && n.certificateARN == p.certificateARN
       && n.deviceID == (if p.deviceID != "" then p.deviceID else log[i].deviceID)
       && n.thing == (if p.iotThingName != "" then p.iotThingName else log[i].thing)
  }

  ghost predicate Named(log: seq<Effect>, n: Names) {
    exists i :: 0 <= i < |log| && NamedAt(log, i, n)
  }

  /** A claimed record is for the device that the answer to the confirmation names, or the one the
      confirmation was asked for where it names none. */
  predicate TakesOver(before: seq<Effect>, r: Record) {
    && |before| >= 2 && before[|before| - 2].AskFinalize? && before[|before| - 2].finalized.Some?
    && var ask := before[|before| - 2];
       var f := ask.finalized.value;
       && r.deviceID == (if f.deviceID != "" then f.deviceID else ask.deviceID)
       && r.iotThingName == (if f.iotThingName != "" then f.iotThingName else ask.thing)
       && r.claimedAt.Some? && (f.claimedAt != ZERO_TIME ==> r.claimedAt.value == f.claimedAt)
  }

  /** The record is of the device that was set up first. */
  predicate SameDevice(log: seq<Effect>, r: Record) {
    log != [] && log[0].Save? ==>
      && r.installationID == log[0].record.installationID
      && (log[0].record.createdAt != ZERO_TIME ==> r.createdAt == log[0].record.createdAt)
  }

  ghost predicate NameRule(before: seq<Effect>, e: Effect) {
    match e
    case Save(r) =>
      && (r.pendingCertificateID != "" ==> Named(before, PendingNames(r)))
      && (r.claimState == Claimed ==> TakesOver(before, r))
      && SameDevice(before, r)
    case AskFinalize(session, _, deviceID, thing, certificateID, certificateARN, _, _) =>
      Named(before, Names(session, deviceID, thing, certificateID, certificateARN))
    case _ => true
  }

  /** In step with the log between any two effects. */
  ghost predicate NameInv(w: World) {
    (w.record.pendingCertificateID != "" ==> Named(w.log, PendingNames(w.record))) && SameDevice(w.log, w.record)
  }

  lemma NamedStays(log: seq<Effect>, e: Effect, n: Names)
    requires Named(log, n)
    ensures Named(log + [e], n)
  {
    var i :| 0 <= i < |log| && NamedAt(log, i, n);
    assert NamedAt(log + [e], i, n);
  }

  lemma NameDo(w: World, e: Effect)
    requires NameInv(w) && (e.Save? ==> e.record == w.record)
    ensures NameInv(Do(w, e))
  {
    if w.record.pendingCertificateID != "" { NamedStays(w.log, e, PendingNames(w.record)); }
    hide Named;
  }

  /** A change of the record that leaves its identity and what is pending alone, or drops it. */
  predicate KeepsNames(r: Record, s: Record) {
    && s.installationID == r.installationID
    && (r.createdAt != ZERO_TIME ==> s.createdAt == r.createdAt)
    && (s.pendingCertificateID != "" ==> PendingNames(s) == PendingNames(r))
  }

  lemma NameRecord(w: World, v: World)
    requires NameInv(w) && v.log == w.log && KeepsNames(w.record, v.record)
    ensures NameInv(v)
  {
    hide Named;
  }

  lemma NameSave(w: World)
    requires NameInv(w) && (w.record.claimState == Claimed ==> TakesOver(w.log, w.record))
    ensures NameRule(w.log, Save(w.record))
  {}

  lemma NameFinalize(w: World, token: string, answer: Option<FinalizeResponse>)
    requires NameInv(w) && w.record.pendingCertificateID != ""
    ensures NameRule(w.log, FinalizeRequest(w.record, token, answer))
  {}

  lemma ClaimTakesOver(w: World, token: string, f: FinalizeResponse, now: Time)
    requires w.log != [] && w.log[|w.log| - 1] == FinalizeRequest(w.record, token, Some(f))
    ensures TakesOver(w.log + [Remove(PollToken)], ClaimedRecord(w.record, f, now))
    ensures KeepsNames(w.record, ClaimedRecord(w.record, f, now))
  {
    hide VerdictOf;
  }

  /** The provisioning just answered names what becomes pending. */
  lemma ProvisioningNames(w: World, r: PollResponse, p: ProvisionResponse, e: Effect)
    requires w.log != [] && w.log[|w.log| - 1].AskProvision? && w.log[|w.log| - 1].provisioned == Some(p)
    requires w.log[|w.log| - 1].session == w.record.pairingSessionID
    requires w.log[|w.log| - 1].deviceID == r.deviceID && w.log[|w.log| - 1].thing == r.iotThingName
    ensures Named(w.log + [e], PendingNames(RecordProvisioning(Do(w, e), r, p).record))
  {
    assert NamedAt(w.log + [e], |w.log| - 1, PendingNames(RecordProvisioning(Do(w, e), r, p).record));
  }

  lemma NamePending(w: World, v: World)
    requires NameInv(w) && v.log == w.log && Named(w.log, PendingNames(v.record))
    requires v.record.installationID == w.record.installationID && v.record.createdAt == w.record.createdAt
    ensures NameInv(v)
  {
    hide Named;
  }

  /** What is saved at the end of the log. */
  ghost predicate SavedNames(log: seq<Effect>) {
    var d := DiskOf(log);
    d.saved.Some? ==>
      && (d.saved.value.pendingCertificateID != "" ==> Named(log, PendingNames(d.saved.value)))
      && SameDevice(log, d.saved.value)
  }

  lemma SavedNamesFurther(log: seq<Effect>, e: Effect)
    requires SavedNames(log) && NameRule(log, e)
    ensures SavedNames(log + [e])
  {
    ExtendFold(log, e);
    var d := DiskOf(log + [e]);
    if d.saved.Some? && d.saved.value.pendingCertificateID != "" { NamedStays(log, e, PendingNames(d.saved.value)); }
    NotBlankAtAll(log);
    hide DiskOf, Named;
  }

  lemma NotBlankAtAll(log: seq<Effect>)
    ensures DiskOf(log).saved.Some? ==> log != []
  {}
}
