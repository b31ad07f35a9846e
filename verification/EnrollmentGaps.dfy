/**
 Where the agent does not do what one hopes, each with the exact condition: the confirmation that
 can never be asked for again, the way off the claim-state graph, and the claim material that
 stays on the disk.
 */
module EnrollmentGaps {
  import opened Common
  import opened Enrollment
  import opened EnrollmentSafety
  import opened EnrollmentEffects
  import opened EnrollmentRuns

  lemma InvIsLawful(w: World)
    requires Inv(w)
    ensures w.up && Lawful(w.log) && w.disk == DiskOf(w.log) && w.disk.saved.Some?
  {}

  lemma CutIsLawful(w: World, a: Answers, keep: nat)
    requires Inv(w)
    ensures Lawful(Cut(w, a, keep)) && w.log <= Cut(w, a, keep) && DiskOf(Cut(w, a, keep)).saved.Some?
  {
    hide DiskOf, Bound, Clean, ClockForward, Tampered, Lawful, Rule, RunOnce;
    RunOnceKeeps(w, a);
    var log := RunOnce(w, a).log;
    if |w.log| + keep < |log| {
      LawfulPrefix(log, |w.log| + keep);
    }
    SavedStays(w.log, Cut(w, a, keep));
  }

  lemma {:induction false} SavedStays(l: seq<Effect>, m: seq<Effect>)
    requires l <= m && DiskOf(l).saved.Some?
    ensures DiskOf(m).saved.Some?
  {
    if |l| < |m| {
      SavedStays(l, m[..|m| - 1]);
    } else {
      assert l == m;
    }
  }

  /** A restart takes the saved record as it is and changes nothing on the disk. */
  lemma StartReloads(log: seq<Effect>, boot: Boot)
    requires Lawful(log) && DiskOf(log).saved.Some?
    ensures var w := Start(log, boot);
            w.up && w.record == DiskOf(log).saved.value && w.disk == DiskOf(log) && w.log == log
  {
    hide Bound, Clean, ClockForward, Tampered, Rule, Inv, DiskOf, Lawful;
    LawfulDisk(log);
    var r := DiskOf(log).saved.value;
    assert r.schemaVersion == SCHEMA_VERSION && r.installationID != "" && !r.claimState.Unrecognized?;
    assert LoadRecord(DiskOf(log), boot) == Success((r, false));
  }

  // ---------------------------------------------------------------- stuck before the confirmation

  /** The agent awaits a confirmation that it can no longer ask for. */
  ghost predicate Stuck(w: World) {
    && Inv(w)
    && w.record.pendingCertificateID != "" && SameStage(w)
    && PollToken !in w.disk.files
  }

  predicate StuckDisk(d: Disk) {
    d.saved.Some? && d.saved.value.pendingCertificateID != "" && PollToken !in d.files
  }

  /** A restart leaves the agent stuck exactly when the disk does. */
  lemma StartIsStuck(log: seq<Effect>, boot: Boot)
    requires Lawful(log) && DiskOf(log).saved.Some?
    ensures Stuck(Start(log, boot)) <==> StuckDisk(DiskOf(log))
  {
    hide Bound, Clean, ClockForward, Tampered, Rule, Inv, DiskOf, Lawful, Start;
    StartKeeps(log, boot);
    StartReloads(log, boot);
  }

  /** The last save has a certificate to confirm, the poll token was removed after it, and no
      token was stored again. */
  ghost predicate TokenLost(log: seq<Effect>) {
    exists s, i :: 0 <= s < i < |log| && TokenLostAt(log, s, i)
  }

  ghost predicate TokenLostAt(log: seq<Effect>, s: nat, i: nat) {
    && s < i < |log|
    && log[s].Save? && log[s].record.pendingCertificateID != "" && DropsToken(log[i])
    && (forall k :: s < k < |log| ==> !log[k].Save?)
    && (forall k :: i < k < |log| ==> !WritesToken(log[k]))
  }

  /** The agent itself removed the token and has not saved its record since. */
  ghost predicate RemovedUnsaved(log: seq<Effect>) {
    exists i :: 0 <= i < |log| && log[i] == Remove(PollToken) && forall k :: i < k < |log| ==> !log[k].Save?
  }

  /** The saved record is that of the last save. */
  lemma {:induction false} SavedBy(log: seq<Effect>) returns (s: nat)
    requires DiskOf(log).saved.Some?
    ensures s < |log| && log[s] == Save(DiskOf(log).saved.value)
    ensures forall k :: s < k < |log| ==> !log[k].Save?
  {
    var rest, e := log[..|log| - 1], log[|log| - 1];
    if e.Save? {
      s := |log| - 1;
    } else {
      s := SavedBy(rest);
    }
  }

  lemma TokenLostExtends(log: seq<Effect>, e: Effect)
    ensures TokenLost(log + [e]) <==>
            !e.Save? && !WritesToken(e)
            && (|| TokenLost(log)
                || (DropsToken(e) && DiskOf(log).saved.Some? && DiskOf(log).saved.value.pendingCertificateID != ""))
  {
    hide DiskOf;
    var l, n := log + [e], |log|;
    if TokenLost(l) {
      var s, i :| 0 <= s < i < |l| && TokenLostAt(l, s, i);
      assert l[n] == e && forall k :: 0 <= k < n ==> l[k] == log[k];
      if i < n {
        assert TokenLostAt(log, s, i);
      } else {
        SavedIs(log, s);
      }
    }
    if !e.Save? && !WritesToken(e) {
      if TokenLost(log) {
        var s, i :| 0 <= s < i < |log| && TokenLostAt(log, s, i);
        assert TokenLostAt(l, s, i);
      } else if DropsToken(e) && DiskOf(log).saved.Some? && DiskOf(log).saved.value.pendingCertificateID != "" {
        var s := SavedBy(log);
        assert TokenLostAt(l, s, n);
      }
    }
  }

  lemma {:induction false} SavedIs(log: seq<Effect>, s: nat)
    requires s < |log| && log[s].Save? && forall k :: s < k < |log| ==> !log[k].Save?
    ensures DiskOf(log).saved == Some(log[s].record)
  {
    if s < |log| - 1 {
      SavedIs(log[..|log| - 1], s);
    }
  }

  lemma LastSaveHasItsToken(log: seq<Effect>)
    requires Lawful(log) && log != [] && log[|log| - 1].Save? && log[|log| - 1].record.pendingCertificateID != ""
    ensures PollToken in DiskOf(log[..|log| - 1]).files
  {
    hide DiskOf, Bound, Clean, ClockForward, Tampered, RecordOK, Edge;
    assert Rule(log[..|log| - 1], log[|log| - 1]);
  }

  lemma StuckOneMore(log: seq<Effect>, e: Effect)
    requires StuckDisk(DiskOf(log)) <==> TokenLost(log)
    requires e.Save? && e.record.pendingCertificateID != "" ==> PollToken in DiskOf(log).files
    ensures StuckDisk(DiskOf(log + [e])) <==> TokenLost(log + [e])
  {
    hide DiskOf, TokenLost;
    ExtendFold(log, e);
    TokenLostExtends(log, e);
  }

  /** On the disk that a lawful log leaves behind the confirmation can no longer be asked for
      exactly when the token was lost after the certificate was saved. */
  lemma {:induction false} StuckMeansTokenLost(log: seq<Effect>)
    requires Lawful(log)
    ensures StuckDisk(DiskOf(log)) <==> TokenLost(log)
  {
    if log != [] {
      hide Lawful, DiskOf, TokenLost, StuckDisk;
      var rest, e := log[..|log| - 1], log[|log| - 1];
      assert log == rest + [e];
      LawfulPrefix(log, |log| - 1);
      StuckMeansTokenLost(rest);
      if e.Save? && e.record.pendingCertificateID != "" { LastSaveHasItsToken(log); }
      StuckOneMore(rest, e);
    }
  }

  lemma CleanPrefix(log: seq<Effect>, n: nat)
    requires Clean(log) && n <= |log|
    ensures Clean(log[..n])
  {
    forall s ensures Fail(s) !in log[..n] { assert Fail(s) !in log; }
  }

  /** Without failed operations, and unless somebody else deletes the token, it is lost exactly
      when the agent removed it and was stopped before the next save. */
  lemma LostMeansRemovedUnsaved(log: seq<Effect>)
    requires Lawful(log) && Clean(log) && Vanish(PollToken) !in log
    ensures TokenLost(log) <==> RemovedUnsaved(log)
  {
    hide DiskOf, Bound, Clean, ClockForward, Tampered, Lawful;
    if TokenLost(log) {
      var s, i :| 0 <= s < i < |log| && TokenLostAt(log, s, i);
      assert log[i] != Vanish(PollToken);
      assert log[i] == Remove(PollToken);
    }
    if RemovedUnsaved(log) {
      var i :| 0 <= i < |log| && log[i] == Remove(PollToken) && forall k :: i < k < |log| ==> !log[k].Save?;
      var s := RemovalFollowsSave(log, i);
      forall k | i < k < |log| ensures !WritesToken(log[k]) {
        NoTokenWhilePending(log, s, k);
      }
      assert TokenLostAt(log, s, i);
    }
  }

  lemma RemovalFollowsSave(log: seq<Effect>, i: nat) returns (s: nat)
    requires Lawful(log) && Clean(log) && i < |log| && log[i] == Remove(PollToken)
    ensures s < i && log[s].Save? && log[s].record.pendingCertificateID != ""
    ensures forall k :: s < k <= i ==> !log[k].Save?
  {
    CleanPrefix(log, i);
    assert Rule(log[..i], log[i]);
    hide DiskOf, Bound, Clean, ClockForward, Tampered, Lawful;
    s := SavedBy(log[..i]);
    forall k | s < k <= i ensures !log[k].Save? {
      if k < i { assert log[..i][k] == log[k]; }
    }
  }

  lemma NoTokenWhilePending(log: seq<Effect>, s: nat, k: nat)
    requires Lawful(log) && Clean(log) && s < k < |log| && log[s].Save? && log[s].record.pendingCertificateID != ""
    requires forall j :: s < j < |log| ==> !log[j].Save?
    ensures !WritesToken(log[k])
  {
    CleanPrefix(log, k);
    assert Rule(log[..k], log[k]);
    hide DiskOf, Bound, Clean, ClockForward, Tampered, Lawful;
    SavedIs(log[..k], s);
  }

  /** In any run: a pass that is cut anywhere leaves the agent stuck exactly when the poll token
      was lost after the certificate was saved. Without failed operations and deletions by others
      that is exactly between the removal of the token and the next save, whichever pass confirmed
      the claim; a final save that fails has the same effect. */
  lemma CrashAfterTokenRemoval(boot: Boot, moves: seq<Move>, a: Answers, keep: nat, again: Boot)
    ensures var log := Cut(Run(boot, moves), a, keep);
            && (Stuck(Run(boot, moves + [Crash(a, keep, again)])) <==> TokenLost(log))
            && (Clean(log) && Vanish(PollToken) !in log ==> (TokenLost(log) <==> RemovedUnsaved(log)))
  {
    RunKeeps(boot, moves);
    var w := Run(boot, moves);
    assert (moves + [Crash(a, keep, again)])[..|moves|] == moves;
    assert Run(boot, moves + [Crash(a, keep, again)]) == Start(Cut(w, a, keep), again);
    hide DiskOf, Bound, Clean, ClockForward, Tampered, Lawful, Rule, Inv, Run, Start, Cut, Stuck, TokenLost,
         RemovedUnsaved;
    CutIsLawful(w, a, keep);
    StartIsStuck(Cut(w, a, keep), again);
    StuckMeansTokenLost(Cut(w, a, keep));
    if Clean(Cut(w, a, keep)) && Vanish(PollToken) !in Cut(w, a, keep) {
      LostMeansRemovedUnsaved(Cut(w, a, keep));
    }
  }

  lemma StuckPass(w: World, a: Answers)
    requires Stuck(w)
    ensures RunOnce(w, a) == Degrade(Wake(w, a), PollTokenUnavailable)
  {
    hide DiskOf, Bound, Clean, ClockForward, Tampered, Lawful, Rule;
  }

  lemma RestartStaysStuck(log: seq<Effect>, d: Disk, boot: Boot)
    requires Lawful(log) && DiskOf(log) == d && d.saved.Some?
    requires StuckDisk(d)
    ensures var w := Start(log, boot); Stuck(w) && w.disk.saved == d.saved && w.log == log
  {
    hide Bound, Clean, ClockForward, Tampered, Rule, Inv, DiskOf, Lawful, Stuck, Start;
    StartIsStuck(log, boot);
    StartReloads(log, boot);
  }

  lemma StuckStep(w: World, m: Move)
    requires Stuck(w)
    ensures Stuck(Step(w, m))
    ensures Step(w, m).disk.saved == w.disk.saved
    ensures w.log <= Step(w, m).log
    ensures forall i :: |w.log| <= i < |Step(w, m).log| ==> Step(w, m).log[i].Woke? || Step(w, m).log[i].Vanish?
  {
    hide Bound, Clean, ClockForward, Tampered, Lawful, Rule, RunOnce, DiskOf;
    StepKeeps(w, m);
    if m.Lose? {
      AddedKeeps(w, Vanish(m.file));
    } else {
      StuckPass(w, m.a);
      RunOnceKeeps(w, m.a);
      ExtendFold(w.log, Woke(m.a.now));
      var log := w.log + [Woke(m.a.now)];
      assert RunOnce(w, m.a).log == log;
      if m.Crash? {
        assert log[..|w.log|] == w.log;
        InvIsLawful(w);
        InvIsLawful(RunOnce(w, m.a));
        RestartStaysStuck(if m.keep == 0 then w.log else log, w.disk, m.boot);
      }
    }
  }

  /** Nothing that happens to a stuck agent, crashes and restarts included, ever gets it unstuck:
      its saved record stays what it is and it asks the cloud nothing any more. */
  lemma {:induction false} StuckForever(boot: Boot, moves: seq<Move>, n: nat)
    requires n <= |moves| && Stuck(Run(boot, moves[..n]))
    ensures var w, v := Run(boot, moves[..n]), Run(boot, moves);
            && Stuck(v) && v.disk.saved == w.disk.saved && w.log <= v.log
            && forall i :: |w.log| <= i < |v.log| ==> v.log[i].Woke? || v.log[i].Vanish?
    decreases |moves|
  {
    hide Stuck, Step;
    if n < |moves| {
      var rest := moves[..|moves| - 1];
      assert rest[..n] == moves[..n];
      StuckForever(boot, rest, n);
      StuckStep(Run(boot, rest), moves[|moves| - 1]);
    } else {
      assert moves[..n] == moves;
    }
  }

  /** And every pass that ends in a saved claim has such a point. */
  lemma EveryConfirmationCanBeCut(w: World, a: Answers, again: Boot)
    requires Inv(w) && !SavedAs(w.disk, Claimed)
    ensures SavedAs(RunOnce(w, a).disk, Claimed) && Clean(RunOnce(w, a).log) ==>
              exists keep: nat :: Stuck(Step(w, Crash(a, keep, again)))
  {
    hide RunOnce, Inv, Clean, Step;
    if SavedAs(RunOnce(w, a).disk, Claimed) && Clean(RunOnce(w, a).log) {
      CutBeforeClaim(w, a, again);
    }
  }

  lemma CutBeforeClaim(w: World, a: Answers, again: Boot)
    requires Inv(w) && !SavedAs(w.disk, Claimed)
    requires SavedAs(RunOnce(w, a).disk, Claimed) && Clean(RunOnce(w, a).log)
    ensures exists keep: nat :: Stuck(Step(w, Crash(a, keep, again)))
  {
    hide Clean, Lawful, RunOnce, Inv, Start, Stuck, DiskOf, StuckDisk, Step, Cut;
    RunOnceKeeps(w, a);
    InvIsLawful(w);
    InvIsLawful(RunOnce(w, a));
    var log := RunOnce(w, a).log;
    var s := SavedBy(log);
    if s < |w.log| {
      EarlierSave(w.log, log, s);
    }
    RemovalBeforeClaim(log, s);
    var keep := s - |w.log|;
    CutThere(w, a, keep);
    CutIsLawful(w, a, keep);
    StartIsStuck(Cut(w, a, keep), again);
    CrashIsStart(w, a, keep, again);
    assert Stuck(Step(w, Crash(a, keep, again)));
  }

  lemma EarlierSave(l: seq<Effect>, m: seq<Effect>, s: nat)
    requires l <= m && s < |l| && m[s].Save? && forall k :: s < k < |m| ==> !m[k].Save?
    ensures DiskOf(l).saved == Some(m[s].record)
  {
    hide DiskOf;
    assert forall k :: 0 <= k < |l| ==> m[k] == l[k];
    SavedIs(l, s);
  }

  lemma CutThere(w: World, a: Answers, keep: nat)
    requires w.up && |w.log| + keep < |RunOnce(w, a).log|
    ensures Cut(w, a, keep) == RunOnce(w, a).log[..|w.log| + keep]
  {
    hide RunOnce;
  }

  lemma RemovalBeforeClaim(log: seq<Effect>, s: nat)
    requires Lawful(log) && Clean(log) && s < |log| && log[s].Save? && log[s].record.claimState == Claimed
    ensures StuckDisk(DiskOf(log[..s]))
  {
    assert Rule(log[..s], log[s]);
    assert EndsWithConfirmedClaim(log[..s]);
    assert Rule(log[..s - 1], log[s - 1]);
    CleanPrefix(log, s - 1);
    assert log[..s] == log[..s - 1] + [log[s - 1]];
    ExtendFold(log[..s - 1], log[s - 1]);
    hide DiskOf, Bound, Clean, ClockForward, Tampered, Lawful, RecordOK, Edge;
  }

  // ---------------------------------------------------------------- where a pass must be stopped for that

  /** What a confirmed finalization does to the token and the record: a removal that takes effect,
      and, if that is not reported as failed, the attempt to save a record with nothing pending. */
  predicate IsSettlement(s: seq<Effect>, a: Answers) {
    && |s| == (if Fails(a, RemoveToken) then 2 else 1 + Entries(Outcome(a, SaveSettled)))
    && s[0] == Remove(PollToken)
    && (forall k :: 1 <= k < |s| ==> s[k].Fail? || (k == 1 && s[1].Save?))
    && (s[1].Save? <==> !Fails(a, RemoveToken) && Outcome(a, SaveSettled).Applied())
    && (s[1].Save? ==> s[1].record.pendingCertificateID == "")
  }

  lemma FinalizeSettles(w: World, token: string, a: Answers) returns (s: seq<Effect>)
    requires RemovesToken(w, a)
    ensures FinalizeWithToken(w, token, a).log == w.log + [FinalizeRequest(w.record, token, a.finalize)] + s
    ensures IsSettlement(s, a)
  {
    hide AddReason, SaysClaimed, Refused, Attempt;
    var w1 := Do(w, FinalizeRequest(w.record, token, a.finalize));
    var w2 := w1.(record := ClaimedRecord(w1.record, a.finalize.value, a.now), pairingCode := "");
    AttemptAdds(w2, Remove(PollToken), RemoveToken, a);
    var w3 := Attempt(w2, Remove(PollToken), RemoveToken, a);
    AttemptAdds(w3, Save(w3.record), SaveSettled, a);
    s := FinalizeWithToken(w, token, a).log[|w1.log|..];
  }

  /** What comes before it in a pass that provisions: no removal of the token, and at its end the
      saved certificate and the question to the cloud. */
  predicate LeadsUp(pre: seq<Effect>) {
    && |pre| >= 2 && pre[|pre| - 1].AskFinalize?
    && pre[|pre| - 2].Save? && pre[|pre| - 2].record.pendingCertificateID != ""
    && forall k :: 0 <= k < |pre| ==> !DropsToken(pre[k])
  }

  lemma LeadsUpFurther(l: seq<Effect>, m: seq<Effect>, pre: seq<Effect>)
    requires Quiet(l, m, TokenRemoval) && LeadsUp(pre)
    ensures LeadsUp(m[|l|..] + pre) && m + pre == l + (m[|l|..] + pre)
  {}

  lemma RequestSettles(w: World, r: PollResponse, token: string, a: Answers) returns (pre: seq<Effect>, s: seq<Effect>)
    requires DeviceKey in w.disk.files && Provisions(a) && RemovesToken(w, a)
    ensures RequestCertificate(w, r, token, a).log == w.log + pre + s && LeadsUp(pre) && IsSettlement(s, a)
  {
    hide AddReason, FinalizeWithToken, Attempt, IsSettlement, VerdictOf, RecordProvisioning;
    var p := a.provision.value;
    var ask := ProvisionRequest(w, r, a);
    var w1 := Do(w, ask);
    var cert := Write(DeviceCert, p.certificate);
    AttemptAdds(w1, cert, WriteCert, a);
    var w2 := RecordProvisioning(Attempt(w1, cert, WriteCert, a), r, p);
    PendingIsRecorded(Attempt(w1, cert, WriteCert, a), r, p);
    AttemptAdds(w2, Save(w2.record), SaveProvisioned, a);
    var w3 := Commit(w2, SaveProvisioned, a);
    s := FinalizeSettles(w3, token, a);
    pre := [ask] + [cert] + [Save(w2.record)] + [FinalizeRequest(w3.record, token, a.finalize)];
    assert w3.log == w.log + [ask] + [cert] + [Save(w2.record)];
  }

  lemma PendingIsRecorded(w: World, r: PollResponse, p: ProvisionResponse)
    ensures var v := RecordProvisioning(w, r, p);
            && v.record.pendingCertificateID == p.certificateID && v.log == w.log && v.disk == w.disk
            && v.config == w.config
  {}

  lemma ProvisionSettles(w: World, r: PollResponse, token: string, a: Answers)
    returns (pre: seq<Effect>, s: seq<Effect>)
    requires Keyed(w, a) && Provisions(a) && RemovesToken(w, a)
    ensures Provision(w, r, token, a).log == w.log + pre + s && LeadsUp(pre) && IsSettlement(s, a)
  {
    hide AddReason, RequestCertificate, Attempt, IsSettlement, Provisions, LeadsUp;
    EnsuredKey(w, a);
    QuietIsReflexive(w, TokenRemoval);
    QuietKey(w.log, w, a, TokenRemoval);
    AttemptAdds(w, Write(DeviceKey, a.newKey), WriteKey, a);
    var w1 := EnsureKey(w, a).0;
    pre, s := RequestSettles(w1, r, token, a);
    LeadsUpFurther(w.log, w1.log, pre);
    var longer := w1.log[|w.log|..] + pre;
    assert w1.log + pre + s == w.log + longer + s;
    pre := longer;
  }

  lemma ApprovalSettles(v: World, r: PollResponse, token: string, a: Answers)
    returns (pre: seq<Effect>, s: seq<Effect>, rest: seq<Effect>)
    requires Handles(v, r, a) && BothStored(a) && Keyed(v, a) && Provisions(a) && RemovesToken(v, a)
    ensures HandleApprovedClaim(v, r, token, a).log == v.log + pre + s + rest && LeadsUp(pre) && IsSettlement(s, a)
    ensures |rest| == Entries(Outcome(a, RemoveClaimCert)) + Entries(Outcome(a, RemoveClaimKey))
    ensures forall k :: 0 <= k < |rest| ==> rest[k].Fail? || rest[k] == Remove(ClaimCert) || rest[k] == Remove(ClaimKey)
  {
    hide AddReason, Provision, IsSettlement, Provisions, LeadsUp;
    var w1 := Attempt(v, Write(ClaimCert, r.claimCertificate), WriteClaimCert, a);
    var w2 := Attempt(w1, Write(ClaimKey, r.claimKey), WriteClaimKey, a);
    assert Keyed(w2, a) && RemovesToken(w2, a);
    hide Attempt, Keyed, RemovesToken;
    QuietIsReflexive(v, TokenRemoval);
    QuietAttempt(v.log, v, Write(ClaimCert, r.claimCertificate), WriteClaimCert, a, TokenRemoval);
    QuietAttempt(v.log, w1, Write(ClaimKey, r.claimKey), WriteClaimKey, a, TokenRemoval);
    pre, s := ProvisionSettles(w2, r, token, a);
    LeadsUpFurther(v.log, w2.log, pre);
    var w3 := Provision(w2, r, token, a);
    var w4 := Attempt(w3, Remove(ClaimCert), RemoveClaimCert, a);
    AttemptAdds(w3, Remove(ClaimCert), RemoveClaimCert, a);
    AttemptAdds(w4, Remove(ClaimKey), RemoveClaimKey, a);
    rest := Added(Remove(ClaimCert), RemoveClaimCert, a) + Added(Remove(ClaimKey), RemoveClaimKey, a);
    var longer := w2.log[|v.log|..] + pre;
    assert w2.log + pre + s + rest == v.log + longer + s + rest;
    var x, z := Added(Remove(ClaimCert), RemoveClaimCert, a), Added(Remove(ClaimKey), RemoveClaimKey, a);
    assert w3.log + x + z == w3.log + rest;
    pre := longer;
  }

  /** A confirming pass, taken apart at the removal of the token. */
  ghost predicate TakenApart(w: World, a: Answers, pre: seq<Effect>, s: seq<Effect>, rest: seq<Effect>) {
    && RunOnce(w, a).log == w.log + pre + s + rest
    && IsSettlement(s, a) && |rest| == LaterEntries(w, a)
    && (forall k :: 0 <= k < |pre| ==> !DropsToken(pre[k]))
    && (forall k :: 0 <= k < |rest| ==> !rest[k].Save? && !WritesToken(rest[k]) && !DropsToken(rest[k]))
    && DiskOf(w.log + pre).saved.Some? && DiskOf(w.log + pre).saved.value.pendingCertificateID != ""
  }

  /** A pass that handles an approval ends with the removal of the claim files. */
  function LaterEntries(w: World, a: Answers): nat {
    if w.record.pendingCertificateID != "" then 0
    else Entries(Outcome(a, RemoveClaimCert)) + Entries(Outcome(a, RemoveClaimKey))
  }

  lemma WaitingIsNotPolling(w: World, a: Answers)
    requires w.record.pendingCertificateID != "" && Confirms(w, a)
    ensures TokenReadable(w, a) && RemovesToken(w, a)
  {}

  lemma WaitingFinalizes(w: World, a: Answers)
    requires w.record.claimState == PairingPending && w.record.pendingCertificateID != "" && TokenReadable(w, a)
    ensures RunOnce(w, a) == FinalizeWithToken(Wake(w, a), w.disk.files[PollToken], a)
  {
    hide FinalizeWithToken, CreatePairingSession, PollPairingSession, CheckClaimedStatus;
  }

  lemma AsksToFinalize(r: Record, token: string, answer: Option<FinalizeResponse>)
    ensures FinalizeRequest(r, token, answer).AskFinalize?
  {}

  lemma WaitingPassSettles(w: World, a: Answers) returns (pre: seq<Effect>, s: seq<Effect>)
    requires Inv(w) && SameStage(w) && w.record.pendingCertificateID != ""
    requires TokenReadable(w, a) && RemovesToken(w, a)
    ensures TakenApart(w, a, pre, s, [])
  {
    var token := w.disk.files[PollToken];
    hide Wake, FinalizeWithToken, Rule, Lawful, TokenReadable;
    hide Inv, DiskOf, IsSettlement, VerdictOf, HandlesApproval, RunOnce, RemovesToken, FinalizeRequest, Entries;
    StateIsRecognized(w);
    InvIsLawful(w);
    SameWhenAwake(w, a);
    WaitingFinalizes(w, a);
    var v := Wake(w, a);
    s := FinalizeSettles(v, token, a);
    var ask := FinalizeRequest(v.record, token, a.finalize);
    AsksToFinalize(v.record, token, a.finalize);
    pre := [Woke(a.now), ask];
    ExtendFold(w.log, Woke(a.now));
    ExtendFold(w.log + [Woke(a.now)], ask);
    assert w.log + pre == w.log + [Woke(a.now)] + [ask];
  }

  lemma ApprovingPassSettles(w: World, a: Answers) returns (pre: seq<Effect>, s: seq<Effect>, rest: seq<Effect>)
    requires Inv(w) && w.record.pendingCertificateID == "" && Confirms(w, a)
    ensures TakenApart(w, a, pre, s, rest)
  {
    StateIsRecognized(w);
    PollingPass(w, a);
    SameConditions(w, a);
    HandledIsApproved(Polled(w, a), a.poll.value, w.disk.files[PollToken], a);
    pre, s, rest := AnswerSettles(w, a, Polled(w, a), a.poll.value, w.disk.files[PollToken]);
  }

  lemma AnswerSettles(w: World, a: Answers, v: World, r: PollResponse, token: string)
    returns (pre: seq<Effect>, s: seq<Effect>, rest: seq<Effect>)
    requires w.record.pendingCertificateID == "" && RunOnce(w, a) == HandleApprovedClaim(v, r, token, a)
    requires w.log <= v.log && |v.log| == |w.log| + 2 && v.log[|w.log|].Woke? && v.log[|w.log| + 1].AskPoll?
    requires Handles(v, r, a) && BothStored(a) && Keyed(v, a) && Provisions(a) && RemovesToken(v, a)
    ensures TakenApart(w, a, pre, s, rest)
  {
    hide DiskOf, RunOnce, IsSettlement, Provisions, Keyed, RemovesToken, HandleApprovedClaim, Handles, BothStored,
         LeadsUp, Entries;
    pre, s, rest := ApprovalSettles(v, r, token, a);
    PollLeadsUp(w.log, v.log, pre, s, rest);
    pre := v.log[|w.log|..] + pre;
    LeadsUpMeans(w.log, pre);
  }

  lemma PollLeadsUp(l: seq<Effect>, m: seq<Effect>, pre: seq<Effect>, s: seq<Effect>, rest: seq<Effect>)
    requires l <= m && |m| == |l| + 2 && m[|l|].Woke? && m[|l| + 1].AskPoll? && LeadsUp(pre)
    ensures LeadsUp(m[|l|..] + pre) && m + pre + s + rest == l + (m[|l|..] + pre) + s + rest
  {
    LeadsUpFurther(l, m, pre);
  }

  lemma LeadsUpMeans(l: seq<Effect>, pre: seq<Effect>)
    requires LeadsUp(pre)
    ensures forall k :: 0 <= k < |pre| ==> !DropsToken(pre[k])
    ensures DiskOf(l + pre).saved.Some? && DiskOf(l + pre).saved.value.pendingCertificateID != ""
  {
    hide DiskOf;
    SavedLast(l + pre);
  }

  lemma SavedLast(log: seq<Effect>)
    requires |log| >= 2 && log[|log| - 2].Save? && log[|log| - 1].AskFinalize?
    ensures DiskOf(log).saved == Some(log[|log| - 2].record)
  {
    hide DiskOf;
    SavedIs(log, |log| - 2);
  }

  lemma {:induction false} NotStuckWithoutRemoval(l: seq<Effect>, q: seq<Effect>)
    requires Lawful(l + q) && !StuckDisk(DiskOf(l)) && forall k :: 0 <= k < |q| ==> !DropsToken(q[k])
    ensures !StuckDisk(DiskOf(l + q))
  {
    hide Lawful, DiskOf;
    if q == [] {
      assert l + q == l;
    } else {
      var m, e := l + q[..|q| - 1], q[|q| - 1];
      assert l + q == m + [e] && (l + q)[..|m|] == m;
      LawfulPrefix(l + q, |m|);
      NotStuckWithoutRemoval(l, q[..|q| - 1]);
      ExtendFold(m, e);
      if e.Save? && e.record.pendingCertificateID != "" { LastSaveHasItsToken(l + q); }
    }
  }

  lemma {:induction false} StuckUntilSave(l: seq<Effect>, q: seq<Effect>)
    requires StuckDisk(DiskOf(l)) && forall k :: 0 <= k < |q| ==> !q[k].Save? && !WritesToken(q[k])
    ensures StuckDisk(DiskOf(l + q))
  {
    hide DiskOf;
    if q == [] {
      assert l + q == l;
    } else {
      var m, e := l + q[..|q| - 1], q[|q| - 1];
      assert l + q == m + [e];
      StuckUntilSave(l, q[..|q| - 1]);
      ExtendFold(m, e);
    }
  }

  /** Where a pass must be stopped to leave the agent stuck: after the removal of the token that
      the confirmed claim brings with it, and before the save of the claimed record has taken
      effect, if it ever does. */
  predicate StuckAt(w: World, a: Answers, keep: int) {
    var all := |RunOnce(w, a).log| - |w.log|;
    var settled := if Fails(a, RemoveToken) then 2 else 1 + Entries(Outcome(a, SaveSettled));
    var removal := all - LaterEntries(w, a) - settled;
    && Confirms(w, a) && removal < keep
    && (Fails(a, RemoveToken) || !Outcome(a, SaveSettled).Applied() || keep <= removal + 1)
  }

  lemma StuckAfterRemoval(l: seq<Effect>, q: seq<Effect>)
    requires q != [] && q[0] == Remove(PollToken)
    requires DiskOf(l).saved.Some? && DiskOf(l).saved.value.pendingCertificateID != ""
    requires forall k :: 1 <= k < |q| ==> !q[k].Save? && !WritesToken(q[k])
    ensures StuckDisk(DiskOf(l + q))
  {
    hide DiskOf, WritesToken;
    ExtendFold(l, q[0]);
    var l1, q1 := l + [q[0]], q[1..];
    assert StuckDisk(DiskOf(l1));
    hide StuckDisk;
    assert l + q == l1 + q1;
    assert forall k :: 0 <= k < |q1| ==> q1[k] == q[k + 1];
    StuckUntilSave(l1, q1);
  }

  lemma NotStuckAfterSave(l: seq<Effect>, q: seq<Effect>)
    requires Lawful(l + q) && |q| >= 2 && q[1].Save? && q[1].record.pendingCertificateID == ""
    requires forall k :: 2 <= k < |q| ==> !DropsToken(q[k])
    ensures !StuckDisk(DiskOf(l + q))
  {
    hide DiskOf, Lawful;
    ExtendFold(l + [q[0]], q[1]);
    assert l + q == l + [q[0]] + [q[1]] + q[2..];
    NotStuckWithoutRemoval(l + [q[0]] + [q[1]], q[2..]);
  }

  /** What follows the leading part of a confirming pass. */
  predicate IsEnd(e: seq<Effect>, saves: bool) {
    && |e| >= 2 && e[0] == Remove(PollToken)
    && (forall k :: 1 <= k < |e| ==> !WritesToken(e[k]) && !DropsToken(e[k]) && (e[k].Save? <==> k == 1 && saves))
    && (e[1].Save? ==> e[1].record.pendingCertificateID == "")
  }

  lemma SettlementIsEnd(s: seq<Effect>, rest: seq<Effect>, a: Answers)
    requires IsSettlement(s, a)
    requires forall k :: 0 <= k < |rest| ==> !rest[k].Save? && !WritesToken(rest[k]) && !DropsToken(rest[k])
    ensures IsEnd(s + rest, !Fails(a, RemoveToken) && Outcome(a, SaveSettled).Applied())
  {}

  lemma StuckInParts(l: seq<Effect>, pre: seq<Effect>, e: seq<Effect>, saves: bool, n: nat)
    requires n <= |pre| + |e| && Lawful(l + pre + e) && !StuckDisk(DiskOf(l)) && IsEnd(e, saves)
    requires forall k :: 0 <= k < |pre| ==> !DropsToken(pre[k])
    requires DiskOf(l + pre).saved.Some? && DiskOf(l + pre).saved.value.pendingCertificateID != ""
    ensures StuckDisk(DiskOf((l + pre + e)[..|l| + n])) <==> |pre| < n && (saves ==> n <= |pre| + 1)
  {
    hide Lawful, DiskOf, StuckDisk;
    LawfulPrefix(l + pre + e, |l| + n);
    if n <= |pre| {
      assert (l + pre + e)[..|l| + n] == l + pre[..n];
      NotStuckWithoutRemoval(l, pre[..n]);
    } else {
      var q := e[..n - |pre|];
      assert (l + pre + e)[..|l| + n] == l + pre + q;
      if saves && n > |pre| + 1 {
        NotStuckAfterSave(l + pre, q);
      } else {
        StuckAfterRemoval(l + pre, q);
      }
    }
  }

  /** In particular for an agent whose memory is in step with its saved record, as after every
      restart: a pass that is cut leaves it stuck exactly where StuckAt says, unless it was stuck
      before. */
  lemma StuckExactlyAt(w: World, a: Answers, keep: nat, again: Boot)
    requires Inv(w) && (SameStage(w) || Phantom(w))
    ensures Stuck(Step(w, Crash(a, keep, again))) <==> StuckDisk(w.disk) || StuckAt(w, a, keep)
  {
    InvIsLawful(w);
    if StuckDisk(w.disk) {
      PhantomIsNotStuck(w);
      StuckStep(w, Crash(a, keep, again));
    } else {
      CutIsLawful(w, a, keep);
      CrashIsStart(w, a, keep, again);
      hide Inv, DiskOf, Lawful, Stuck, Step, Cut, StuckAt, SameStage, Phantom;
      StartIsStuck(Cut(w, a, keep), again);
      if Confirms(w, a) {
        ConfirmingCut(w, a, keep);
      } else {
        OtherCut(w, a, keep);
      }
    }
  }

  lemma CrashIsStart(w: World, a: Answers, keep: nat, again: Boot)
    ensures Step(w, Crash(a, keep, again)) == Start(Cut(w, a, keep), again)
  {
    hide Start, Cut;
  }

  lemma PhantomIsNotStuck(w: World)
    requires Inv(w) && StuckDisk(w.disk)
    ensures !Phantom(w)
  {
    LawfulDisk(w.log);
    hide DiskOf, Lawful, Bound, Clean, ClockForward, Tampered;
  }

  lemma OtherCut(w: World, a: Answers, keep: nat)
    requires Inv(w) && !StuckDisk(w.disk) && !Confirms(w, a)
    ensures !StuckDisk(DiskOf(Cut(w, a, keep))) && !StuckAt(w, a, keep)
  {
    hide Inv, DiskOf, Lawful, Cut, Confirms, RunOnce, StuckDisk, LaterEntries, Entries, DropsToken, TouchesClaim;
    CutIsLawful(w, a, keep);
    InvIsLawful(w);
    var q := Cut(w, a, keep)[|w.log|..];
    assert Cut(w, a, keep) == w.log + q;
    forall k | 0 <= k < |q| ensures !DropsToken(q[k]) {
      CutKeeps(w, a, keep, |w.log| + k);
      NotDropped(w, a, |w.log| + k);
    }
    NotStuckWithoutRemoval(w.log, q);
  }

  lemma NotDropped(w: World, a: Answers, i: nat)
    requires Inv(w) && !Confirms(w, a) && |w.log| <= i < |RunOnce(w, a).log|
    ensures !DropsToken(RunOnce(w, a).log[i])
  {
    hide Inv, RunOnce, Confirms;
    PassIsQuiet(w, a, TokenRemoval, i);
  }

  lemma ConfirmingCut(w: World, a: Answers, keep: nat)
    requires Inv(w) && !StuckDisk(w.disk) && Confirms(w, a) && (SameStage(w) || Phantom(w))
    ensures StuckDisk(DiskOf(Cut(w, a, keep))) <==> StuckAt(w, a, keep)
  {
    InvIsLawful(w);
    RunOnceKeeps(w, a);
    InvIsLawful(RunOnce(w, a));
    hide Inv, DiskOf, Lawful, RunOnce, Confirms;
    var pre, s, rest: seq<Effect>;
    if w.record.pendingCertificateID != "" {
      rest := [];
      WaitingIsNotPolling(w, a);
      pre, s := WaitingPassSettles(w, a);
    } else {
      pre, s, rest := ApprovingPassSettles(w, a);
    }
    CutInParts(w, a, keep, pre, s, rest);
  }

  lemma CutInParts(w: World, a: Answers, keep: nat, pre: seq<Effect>, s: seq<Effect>, rest: seq<Effect>)
    requires w.up && w.disk == DiskOf(w.log) && Lawful(RunOnce(w, a).log) && !StuckDisk(w.disk) && Confirms(w, a)
    requires TakenApart(w, a, pre, s, rest)
    ensures StuckDisk(DiskOf(Cut(w, a, keep))) <==> StuckAt(w, a, keep)
  {
    hide DiskOf, Lawful, RunOnce, Confirms, StuckDisk, IsEnd;
    var e := s + rest;
    var saves := !Fails(a, RemoveToken) && Outcome(a, SaveSettled).Applied();
    SettlementIsEnd(s, rest, a);
    assert w.log + pre + s + rest == w.log + pre + e;
    var n := if keep < |pre| + |e| then keep else |pre| + |e|;
    assert Cut(w, a, keep) == (w.log + pre + e)[..|w.log| + n];
    StuckInParts(w.log, pre, e, saves, n);
    if !saves { EndWithoutSave(a); }
  }

  lemma EndWithoutSave(a: Answers)
    ensures !(!Fails(a, RemoveToken) && Outcome(a, SaveSettled).Applied()) <==>
            Fails(a, RemoveToken) || !Outcome(a, SaveSettled).Applied()
  {}

  // ---------------------------------------------------------------- off the graph

  /** Some record that the pass saves is off the claim-state graph. */
  ghost predicate SavesOffTheGraph(w: World, a: Answers) {
    var m := RunOnce(w, a).log;
    exists i :: |w.log| <= i < |m| && OffTheGraph(m, i)
  }

  ghost predicate OffTheGraph(m: seq<Effect>, i: nat) {
    i < |m| && m[i].Save? && !Edge(DiskOf(m[..i]), m[i].record)
  }

  /** Without failed file operations a pass leaves the claim-state graph exactly when it polls for
      a session that was never saved, because it was over when it was opened and the clock has
      gone back since, and the answer is that the device is revoked. */
  lemma LeavesTheGraphExactlyWhen(w: World, a: Answers)
    requires Inv(w)
    ensures Clean(RunOnce(w, a).log) ==>
              (SavesOffTheGraph(w, a) <==>
               Phantom(w) && w.config.homeSignal && TokenReadable(w, a) && !PendingExpired(w.record, a.now)
               && a.poll.Some? && SaysRevoked(a.poll.value.status))
  {
    hide RunOnce, Inv, Clean;
    if Clean(RunOnce(w, a).log) {
      CleanPassLeavesTheGraph(w, a);
    }
  }

  lemma CleanPassLeavesTheGraph(w: World, a: Answers)
    requires Inv(w) && Clean(RunOnce(w, a).log)
    ensures SavesOffTheGraph(w, a) <==> Phantom(w) && Polls(w, a) && SaysRevoked(a.poll.value.status)
  {
    RunOnceKeeps(w, a);
    InvIsLawful(w);
    InvIsLawful(RunOnce(w, a));
    hide RunOnce, Lawful, Bound, ClockForward, Tampered, DiskOf, Rule, Inv, Clean, Edge;
    if SavesOffTheGraph(w, a) {
      var m := RunOnce(w, a).log;
      var i :| |w.log| <= i < |m| && OffTheGraph(m, i);
      OffTheGraphAfterPoll(w, a, i);
    }
    if Phantom(w) && Polls(w, a) && SaysRevoked(a.poll.value.status) {
      NothingFailed(RunOnce(w, a).log, SavePoll);
      if Fails(a, SavePoll) { FailedSaveIsLogged(w, a); }
      RevokingPass(w, a);
    }
  }

  lemma NothingFailed(log: seq<Effect>, site: Site)
    requires Clean(log)
    ensures Fail(site) !in log
  {}

  lemma CleanGoesBack(w: World, a: Answers)
    requires Inv(w) && Clean(RunOnce(w, a).log)
    ensures Clean(w.log) && (SameStage(w) || Phantom(w))
  {
    hide RunOnce, DiskOf, Lawful, Bound, ClockForward, Tampered;
    RunOnceKeeps(w, a);
    CleanPrefix(RunOnce(w, a).log, |w.log|);
    assert RunOnce(w, a).log[..|w.log|] == w.log;
  }

  lemma OffTheGraphIsBackward(m: seq<Effect>, i: nat)
    requires Lawful(m) && Clean(m) && OffTheGraph(m, i)
    ensures i > 0 && m[i - 1].AskPoll? && m[i].Save? && m[i].record.claimState == Revoked
    ensures SavedAs(DiskOf(m[..i]), Unclaimed)
  {
    CleanPrefix(m, i);
    assert Rule(m[..i], m[i]);
    hide DiskOf, Lawful, Bound, ClockForward, Tampered, RecordOK, Clean, Edge;
  }

  lemma OffTheGraphAfterPoll(w: World, a: Answers, i: nat)
    requires Inv(w) && Clean(RunOnce(w, a).log)
    requires |w.log| <= i && OffTheGraph(RunOnce(w, a).log, i)
    ensures Phantom(w) && Polls(w, a) && SaysRevoked(a.poll.value.status)
  {
    hide Lawful, DiskOf, RunOnce, Inv, Clean, Phantom, SameStage, Edge;
    RunOnceKeeps(w, a);
    InvIsLawful(w);
    InvIsLawful(RunOnce(w, a));
    CleanGoesBack(w, a);
    OffTheGraphIsBackward(RunOnce(w, a).log, i);
    PollBefore(w, a, i);
    PollingIsOpen(w, a);
    if SameStage(w) { PhantomOrSame(w); }
  }

  lemma PhantomOrSame(w: World)
    requires SameStage(w) && w.record.claimState == PairingPending
    ensures !SavedAs(w.disk, Unclaimed)
  {}

  lemma PollingIsOpen(w: World, a: Answers)
    requires Polls(w, a)
    ensures w.record.claimState == PairingPending
  {}

  lemma PollBefore(w: World, a: Answers, i: nat)
    requires Inv(w) && 0 < i && |w.log| <= i < |RunOnce(w, a).log| && RunOnce(w, a).log[i - 1].AskPoll?
    requires RunOnce(w, a).log[i].Save? && RunOnce(w, a).log[i].record.claimState == Revoked
    ensures Polls(w, a) && SaysRevoked(a.poll.value.status) && DiskOf(RunOnce(w, a).log[..i]) == w.disk
  {
    InvIsLawful(w);
    hide DiskOf, RunOnce, Inv, Polls, SaysRevoked, Lawful;
    if Polls(w, a) {
      AnsweredPoll(w, a, i);
    } else {
      OtherPass(w, a, Claiming);
    }
  }

  lemma AnsweredPoll(w: World, a: Answers, i: nat)
    requires Polls(w, a) && w.up && w.disk == DiskOf(w.log)
    requires 0 < i && |w.log| <= i < |RunOnce(w, a).log| && RunOnce(w, a).log[i - 1].AskPoll?
    requires RunOnce(w, a).log[i].Save? && RunOnce(w, a).log[i].record.claimState == Revoked
    ensures SaysRevoked(a.poll.value.status) && DiskOf(RunOnce(w, a).log[..i]) == w.disk
  {
    var r, token := a.poll.value, w.disk.files[PollToken];
    hide DiskOf, RunOnce, Polled, HandlePollAnswer, Polls, SaysRevoked;
    PollingPass(w, a);
    var v := Polled(w, a);
    AfterPoll(v, r, token, a);
    OnlyPoll(w.log, v.log, RunOnce(w, a).log, i);
    DiskBeforeAnswer(w, v, RunOnce(w, a).log);
  }

  lemma OnlyPoll(l: seq<Effect>, k: seq<Effect>, m: seq<Effect>, i: nat)
    requires l <= k <= m && |k| == |l| + 2 && k[|l|].Woke? && k[|l| + 1].AskPoll?
    requires forall j :: |k| <= j < |m| ==> !m[j].AskPoll?
    requires 0 < i && |l| <= i < |m| && m[i].Save? && m[i - 1].AskPoll?
    ensures i == |k|
  {}

  lemma DiskBeforeAnswer(w: World, v: World, m: seq<Effect>)
    requires |v.log| == |w.log| + 2 && w.log <= v.log <= m && w.disk == DiskOf(w.log)
    requires v.log[|w.log|].Woke? && v.log[|w.log| + 1].AskPoll?
    ensures m[..|w.log| + 2] == v.log && DiskOf(m[..|w.log| + 2]) == w.disk
  {
    hide DiskOf;
    assert v.log == w.log + [v.log[|w.log|]] + [v.log[|w.log| + 1]];
    ExtendFold(w.log, v.log[|w.log|]);
    ExtendFold(w.log + [v.log[|w.log|]], v.log[|w.log| + 1]);
  }

  /** A revoked answer to a poll is saved at once. */
  lemma RevokedReply(v: World, r: PollResponse, token: string, a: Answers)
    requires SaysRevoked(r.status)
    ensures var u := v.(record := v.record.(claimState := Revoked, revokedAt := Some(a.now)));
            HandlePollAnswer(v, r, token, a).log == v.log + Added(Save(u.record), SavePoll, a)
  {
    hide HandleApprovedClaim, Abandon, AddReason;
  }

  lemma RevokingPass(w: World, a: Answers)
    requires Inv(w) && Phantom(w) && Polls(w, a) && SaysRevoked(a.poll.value.status) && !Fails(a, SavePoll)
    ensures OffTheGraph(RunOnce(w, a).log, |w.log| + 2)
  {
    InvIsLawful(w);
    PollingPass(w, a);
    var v := Polled(w, a);
    RevokedReply(v, a.poll.value, w.disk.files[PollToken], a);
    hide Inv, DiskOf, RunOnce, Polled, Polls, HandlePollAnswer;
    DiskBeforeAnswer(w, v, RunOnce(w, a).log);
  }

  lemma FailedSaveIsLogged(w: World, a: Answers)
    requires Inv(w) && Polls(w, a) && SaysRevoked(a.poll.value.status) && Fails(a, SavePoll)
    ensures Fail(SavePoll) in RunOnce(w, a).log
  {
    InvIsLawful(w);
    PollingPass(w, a);
    var v := Polled(w, a);
    RevokedReply(v, a.poll.value, w.disk.files[PollToken], a);
    hide Inv, DiskOf, RunOnce, Polled, Polls, HandlePollAnswer;
    var m := RunOnce(w, a).log;
    assert m[|m| - 1] == Fail(SavePoll);
  }

  /** What follows a poll: no second poll, and a revoked record at once only if the cloud said so. */
  lemma AfterPoll(v: World, r: PollResponse, token: string, a: Answers)
    requires v.record.claimState == PairingPending
    ensures var k, m := |v.log|, HandlePollAnswer(v, r, token, a).log;
            && v.log <= m && (forall i :: k <= i < |m| ==> !m[i].AskPoll?)
            && (k < |m| && m[k].Save? && m[k].record.claimState == Revoked ==> SaysRevoked(r.status))
  {
    hide HandleApprovedClaim, AddReason, Attempt, Pending, Approved, SaysClaimed, SaysRevoked, Expired, PendingExpired;
    if Pending(r.status) {
      var u := if PendingExpired(v.record, a.now) then Abandon(v) else v;
      AttemptAdds(u, Save(u.record), SavePoll, a);
    } else if Approved(r.status) {
      AfterApproval(v, r, token, a);
    } else if SaysRevoked(r.status) {
      var u := v.(record := v.record.(claimState := Revoked, revokedAt := Some(a.now)));
      AttemptAdds(u, Save(u.record), SavePoll, a);
    } else if Expired(r.status) {
      AttemptAdds(Abandon(v), Save(Abandon(v).record), SavePoll, a);
    }
  }

  lemma AfterApproval(v: World, r: PollResponse, token: string, a: Answers)
    ensures var k, m := |v.log|, HandleApprovedClaim(v, r, token, a).log;
            v.log <= m && (forall i :: k <= i < |m| ==> !m[i].AskPoll?) && (k < |m| ==> !m[k].Save?)
  {
    hide HandleApprovedClaim;
    var middle := ClaimEffects(v, r, token, a);
  }

  /** A session that is over when it is opened stays in memory only. */
  lemma ExpiredSessionIsPhantom(w: World, a: Answers)
    requires Inv(w) && SameStage(w) && w.record.claimState == Unclaimed && w.config.homeSignal
    requires Smooth(a) && a.create.Some? && a.create.value.expiresAt < a.now
    requires a.create.value.sessionID != "" && a.create.value.pairingCode != "" && a.create.value.pollToken != ""
    ensures var v := RunOnce(w, a);
            && Phantom(v) && v.disk.saved == w.disk.saved && PollToken in v.disk.files && v.config == w.config
            && v.record.pairingCodeExpiry == Some(a.create.value.expiresAt)
            && v.record.pollTokenExpiry == Some(if a.create.value.pollTokenExpiresAt == ZERO_TIME
                                                then a.create.value.expiresAt else a.create.value.pollTokenExpiresAt)
  {
    hide DiskOf, Bound, Clean, ClockForward, Tampered, Lawful, Rule;
  }

  /** A session that was good until 5, opened at 9; and then, at 3, a poll. */
  const OPENED_LATE := Answers(9, map[], "k", true, true, Some(CreateResponse("s", "c", 5, 0, "t", ZERO_TIME)),
      None, None, None, None)
  const POLLED_EARLIER := Answers(3, map[], "k", true, true, None,
                                  Some(PollResponse("revoked", "", ZERO_TIME, "", "", "", "", ZERO_TIME, "")),
                                      None, None, None)

  /** A run without a failed file operation that leaves the graph. */
  lemma BackwardClockExample(boot: Boot)
    requires boot.config.homeSignal
    ensures SavesOffTheGraph(RunOnce(Start([], boot), OPENED_LATE), POLLED_EARLIER)
  {
    var w := Start([], boot);
    FreshStart(boot);
    StartKeeps([], boot);
    hide DiskOf, RunOnce, Start, Inv;
    ExpiredSessionIsPhantom(w, OPENED_LATE);
    RunOnceKeeps(w, OPENED_LATE);
    RevokingPass(RunOnce(w, OPENED_LATE), POLLED_EARLIER);
  }

  lemma FreshStart(boot: Boot)
    ensures var w := Start([], boot);
            SameStage(w) && w.record == FreshRecord(boot) && w.config == boot.config && w.record.claimState == Unclaimed
  {}

  // ---------------------------------------------------------------- claim material left behind

  predicate Touches(e: Effect, f: File) {
    (e.Write? || e.Remove? || e.Vanish?) && e.file == f
  }

  lemma {:induction false} UntouchedFile(l: seq<Effect>, q: seq<Effect>, f: File)
    requires forall i :: 0 <= i < |q| ==> !Touches(q[i], f)
    ensures f in DiskOf(l + q).files <==> f in DiskOf(l).files
  {
    if q == [] {
      assert l + q == l;
    } else {
      UntouchedFile(l, q[..|q| - 1], f);
      assert (l + q)[..|l + q| - 1] == l + q[..|q| - 1];
    }
  }

  /** The last effect that touches a file says whether it is there. */
  lemma LastTouch(l: seq<Effect>, q: seq<Effect>, f: File, i: nat)
    requires i < |q| && Touches(q[i], f) && forall j :: i < j < |q| ==> !Touches(q[j], f)
    ensures f in DiskOf(l + q).files <==> q[i].Write?
  {
    var l1 := l + q[..i];
    ExtendFold(l1, q[i]);
    UntouchedFile(l1 + [q[i]], q[i + 1..], f);
    assert l + q == l1 + [q[i]] + q[i + 1..];
  }

  /** All that a pass adds to the log when it polls and the claim is handled. */
  function FullPass(head: seq<Effect>, middle: seq<Effect>, r: PollResponse, a: Answers): seq<Effect> {
    var c := Added(Write(ClaimCert, r.claimCertificate), WriteClaimCert, a);
    var y := Added(Write(ClaimKey, r.claimKey), WriteClaimKey, a);
    var x, z := Added(Remove(ClaimCert), RemoveClaimCert, a), Added(Remove(ClaimKey), RemoveClaimKey, a);
    if Fails(a, WriteClaimCert) then head + c
    else if Fails(a, WriteClaimKey) then head + c + y
    else head + c + y + middle + x + z
  }

  /** The effect at position i of the pass, if it touches the claim certificate. */
  lemma CertTouches(head: seq<Effect>, middle: seq<Effect>, r: PollResponse, a: Answers, i: nat)
    requires |head| == 2 && head[0].Woke? && head[1].AskPoll? && Quiet([], middle, Claiming)
    requires i < |FullPass(head, middle, r, a)|
    ensures var q := FullPass(head, middle, r, a);
            var removal := |q| - Entries(Outcome(a, RemoveClaimKey)) - Entries(Outcome(a, RemoveClaimCert));
            && (Touches(q[i], ClaimCert) <==>
                (i == 2 && Outcome(a, WriteClaimCert).Applied())
                || (BothStored(a) && i == removal && Outcome(a, RemoveClaimCert).Applied()))
            && (Touches(q[i], ClaimCert) ==> (q[i].Write? <==> i == 2))
            && (BothStored(a) ==> removal >= 4)
  {
  }

  lemma KeyTouches(head: seq<Effect>, middle: seq<Effect>, r: PollResponse, a: Answers, i: nat)
    requires |head| == 2 && head[0].Woke? && head[1].AskPoll? && Quiet([], middle, Claiming)
    requires i < |FullPass(head, middle, r, a)|
    ensures var q := FullPass(head, middle, r, a);
            var removal := |q| - Entries(Outcome(a, RemoveClaimKey));
            && (Touches(q[i], ClaimKey) <==>
                (i == 3 && !Fails(a, WriteClaimCert) && Outcome(a, WriteClaimKey).Applied())
                || (BothStored(a) && i == removal && Outcome(a, RemoveClaimKey).Applied()))
            && (Touches(q[i], ClaimKey) ==> (q[i].Write? <==> i == 3))
            && (BothStored(a) ==> removal >= 5)
  {
  }

  lemma ApprovalPass(w: World, a: Answers) returns (head: seq<Effect>, middle: seq<Effect>)
    requires HandlesApproval(w, a) && w.up
    ensures |head| == 2 && head[0].Woke? && head[1].AskPoll? && Quiet([], middle, Claiming)
    ensures RunOnce(w, a).log == w.log + FullPass(head, middle, a.poll.value, a)
  {
    hide RunOnce, HandlePollAnswer, HandleApprovedClaim, Added, Polled, FullPass;
    PollingPass(w, a);
    var v := Polled(w, a);
    head := v.log[|w.log|..];
    assert v.log == w.log + head;
    middle := ClaimEffects(v, a.poll.value, w.disk.files[PollToken], a);
    HandledIsApproved(v, a.poll.value, w.disk.files[PollToken], a);
    PolledHandles(w, a);
    FullPassFrom(w.log, head, middle, a.poll.value, a);
  }

  lemma FullPassFrom(l: seq<Effect>, head: seq<Effect>, middle: seq<Effect>, r: PollResponse, a: Answers)
    ensures var c := Added(Write(ClaimCert, r.claimCertificate), WriteClaimCert, a);
            var y := Added(Write(ClaimKey, r.claimKey), WriteClaimKey, a);
            var x, z := Added(Remove(ClaimCert), RemoveClaimCert, a), Added(Remove(ClaimKey), RemoveClaimKey, a);
            l + FullPass(head, middle, r, a) ==
            if Fails(a, WriteClaimCert) then l + head + c
            else if Fails(a, WriteClaimKey) then l + head + c + y
            else l + head + c + y + middle + x + z
  {
    hide Added;
    var c := Added(Write(ClaimCert, r.claimCertificate), WriteClaimCert, a);
    var y := Added(Write(ClaimKey, r.claimKey), WriteClaimKey, a);
    var x, z := Added(Remove(ClaimCert), RemoveClaimCert, a), Added(Remove(ClaimKey), RemoveClaimKey, a);
    assert l + head + c == l + (head + c);
    assert l + head + c + y == l + (head + c + y);
    assert l + head + c + y + middle + x + z == l + (head + c + y + middle + x + z);
  }

  lemma PolledHandles(w: World, a: Answers)
    requires Polls(w, a) && Handles(w, a.poll.value, a)
    ensures Handles(Polled(w, a), a.poll.value, a)
  {}

  lemma HandledIsApproved(v: World, r: PollResponse, token: string, a: Answers)
    requires Approved(r.status)
    ensures HandlePollAnswer(v, r, token, a) == HandleApprovedClaim(v, r, token, a)
  {
    hide HandleApprovedClaim;
  }

  /** Exactly when the claim certificate is on the disk after a pass of which `keep` effects took
      place: it was stored, and its removal failed, was not reached, or is not even arranged,
      because a write was reported as failed. */
  predicate CertLeft(w: World, a: Answers, keep: int) {
    var all := |RunOnce(w, a).log| - |w.log|;
    var removal := all - Entries(Outcome(a, RemoveClaimKey)) - Entries(Outcome(a, RemoveClaimCert));
    && HandlesApproval(w, a) && Outcome(a, WriteClaimCert).Applied() && 3 <= keep
    && (!BothStored(a) || !Outcome(a, RemoveClaimCert).Applied() || keep <= removal)
  }

  /** The same for the private key of the claim, which is the last to be removed. */
  predicate KeyLeft(w: World, a: Answers, keep: int) {
    var removal := |RunOnce(w, a).log| - |w.log| - Entries(Outcome(a, RemoveClaimKey));
    && HandlesApproval(w, a) && !Fails(a, WriteClaimCert) && Outcome(a, WriteClaimKey).Applied() && 4 <= keep
    && (!BothStored(a) || !Outcome(a, RemoveClaimKey).Applied() || keep <= removal)
  }

  lemma ClaimMaterialAtCut(w: World, a: Answers, keep: nat)
    requires Inv(w) && ClaimCert !in w.disk.files && ClaimKey !in w.disk.files
    ensures var d := DiskOf(Cut(w, a, keep));
            (ClaimCert in d.files <==> CertLeft(w, a, keep)) && (ClaimKey in d.files <==> KeyLeft(w, a, keep))
  {
    hide Inv, RunOnce, DiskOf, Lawful, HandlesApproval, CertLeft, KeyLeft, Cut;
    RunOnceKeeps(w, a);
    InvIsLawful(w);
    if HandlesApproval(w, a) {
      ApprovalAtCut(w, a, keep);
    } else {
      CutIsLawful(w, a, keep);
      var q := Cut(w, a, keep)[|w.log|..];
      assert Cut(w, a, keep) == w.log + q;
      forall i | 0 <= i < |q| ensures !TouchesClaim(q[i]) {
        CutKeeps(w, a, keep, |w.log| + i);
        PassIsQuiet(w, a, Claiming, |w.log| + i);
      }
      UntouchedFile(w.log, q, ClaimCert);
      UntouchedFile(w.log, q, ClaimKey);
      NothingLeft(w, a, keep);
    }
  }

  lemma NothingLeft(w: World, a: Answers, keep: nat)
    requires !HandlesApproval(w, a)
    ensures !CertLeft(w, a, keep) && !KeyLeft(w, a, keep)
  {
    hide RunOnce, HandlesApproval;
  }

  lemma CutKeeps(w: World, a: Answers, keep: nat, i: nat)
    requires w.up && i < |Cut(w, a, keep)|
    ensures i < |RunOnce(w, a).log| && Cut(w, a, keep)[i] == RunOnce(w, a).log[i]
  {
    hide RunOnce;
  }

  lemma ApprovalAtCut(w: World, a: Answers, keep: nat)
    requires w.up && w.disk == DiskOf(w.log) && HandlesApproval(w, a)
    requires ClaimCert !in w.disk.files && ClaimKey !in w.disk.files
    ensures var d := DiskOf(Cut(w, a, keep));
            (ClaimCert in d.files <==> CertLeft(w, a, keep)) && (ClaimKey in d.files <==> KeyLeft(w, a, keep))
  {
    var r := a.poll.value;
    hide RunOnce, DiskOf, Polls, Handles;
    var head, middle := ApprovalPass(w, a);
    var q := FullPass(head, middle, r, a);
    assert RunOnce(w, a).log == w.log + q;
    FullPassLength(head, middle, r, a);
    hide FullPass;
    var n := if keep < |q| then keep else |q|;
    assert Cut(w, a, keep) == w.log + q[..n];
    CertAtCut(w.log, head, middle, r, a, n);
    KeyAtCut(w.log, head, middle, r, a, n);
  }

  lemma FullPassLength(head: seq<Effect>, middle: seq<Effect>, r: PollResponse, a: Answers)
    requires |head| == 2
    ensures |FullPass(head, middle, r, a)| >= if Fails(a, WriteClaimCert) then 3 else 4
  {}

  lemma CertAtCut(l: seq<Effect>, head: seq<Effect>, middle: seq<Effect>, r: PollResponse, a: Answers, n: nat)
    requires |head| == 2 && head[0].Woke? && head[1].AskPoll? && Quiet([], middle, Claiming)
    requires n <= |FullPass(head, middle, r, a)| && ClaimCert !in DiskOf(l).files
    ensures var q := FullPass(head, middle, r, a);
            var removal := |q| - Entries(Outcome(a, RemoveClaimKey)) - Entries(Outcome(a, RemoveClaimCert));
            ClaimCert in DiskOf(l + q[..n]).files <==>
            Outcome(a, WriteClaimCert).Applied() && 3 <= n
            && (!BothStored(a) || !Outcome(a, RemoveClaimCert).Applied() || n <= removal)
  {
    var q := FullPass(head, middle, r, a);
    var removal := |q| - Entries(Outcome(a, RemoveClaimKey)) - Entries(Outcome(a, RemoveClaimCert));
    forall i | 0 <= i < n
      ensures Touches(q[..n][i], ClaimCert) <==>
              (i == 2 && Outcome(a, WriteClaimCert).Applied())
              || (BothStored(a) && i == removal && Outcome(a, RemoveClaimCert).Applied())
      ensures Touches(q[..n][i], ClaimCert) ==> (q[..n][i].Write? <==> i == 2)
    {
      CertTouches(head, middle, r, a, i);
    }
    hide FullPass, DiskOf, Touches;
    if n > 0 { CertTouches(head, middle, r, a, 0); }
    if BothStored(a) && Outcome(a, RemoveClaimCert).Applied() && removal < n {
      LastTouch(l, q[..n], ClaimCert, removal);
    } else if Outcome(a, WriteClaimCert).Applied() && 3 <= n {
      LastTouch(l, q[..n], ClaimCert, 2);
    } else {
      UntouchedFile(l, q[..n], ClaimCert);
    }
  }

  lemma KeyAtCut(l: seq<Effect>, head: seq<Effect>, middle: seq<Effect>, r: PollResponse, a: Answers, n: nat)
    requires |head| == 2 && head[0].Woke? && head[1].AskPoll? && Quiet([], middle, Claiming)
    requires n <= |FullPass(head, middle, r, a)| && ClaimKey !in DiskOf(l).files
    ensures var q := FullPass(head, middle, r, a);
            var removal := |q| - Entries(Outcome(a, RemoveClaimKey));
            ClaimKey in DiskOf(l + q[..n]).files <==>
            !Fails(a, WriteClaimCert) && Outcome(a, WriteClaimKey).Applied() && 4 <= n
            && (!BothStored(a) || !Outcome(a, RemoveClaimKey).Applied() || n <= removal)
  {
    var q := FullPass(head, middle, r, a);
    var removal := |q| - Entries(Outcome(a, RemoveClaimKey));
    forall i | 0 <= i < n
      ensures Touches(q[..n][i], ClaimKey) <==>
              (i == 3 && !Fails(a, WriteClaimCert) && Outcome(a, WriteClaimKey).Applied())
              || (BothStored(a) && i == removal && Outcome(a, RemoveClaimKey).Applied())
      ensures Touches(q[..n][i], ClaimKey) ==> (q[..n][i].Write? <==> i == 3)
    {
      KeyTouches(head, middle, r, a, i);
    }
    hide FullPass, DiskOf, Touches;
    if n > 0 { KeyTouches(head, middle, r, a, 0); }
    if BothStored(a) && Outcome(a, RemoveClaimKey).Applied() && removal < n {
      LastTouch(l, q[..n], ClaimKey, removal);
    } else if !Fails(a, WriteClaimCert) && Outcome(a, WriteClaimKey).Applied() && 4 <= n {
      LastTouch(l, q[..n], ClaimKey, 3);
    } else {
      UntouchedFile(l, q[..n], ClaimKey);
    }
  }

  /** Where the claim material stays behind, crash or no crash: after a pass that was cut, once
      the agent has started again, and after a whole pass. */
  lemma ClaimMaterialLeftBehind(w: World, a: Answers, keep: nat, again: Boot)
    requires Inv(w) && ClaimCert !in w.disk.files && ClaimKey !in w.disk.files
    ensures var files := Step(w, Crash(a, keep, again)).disk.files;
            (ClaimCert in files <==> CertLeft(w, a, keep)) && (ClaimKey in files <==> KeyLeft(w, a, keep))
    ensures var files, all := Step(w, Tick(a)).disk.files, |Step(w, Tick(a)).log| - |w.log|;
            (ClaimCert in files <==> CertLeft(w, a, all)) && (ClaimKey in files <==> KeyLeft(w, a, all))
  {
    hide Step, DiskOf, Inv, RunOnce, CertLeft, KeyLeft, Cut;
    CrashLeaves(w, a, keep, again);
    ClaimMaterialAtCut(w, a, keep);
    TickIsWholeCut(w, a);
    ClaimMaterialAtCut(w, a, |Step(w, Tick(a)).log| - |w.log|);
  }

  lemma CrashLeaves(w: World, a: Answers, keep: nat, again: Boot)
    requires Inv(w)
    ensures Step(w, Crash(a, keep, again)).disk == DiskOf(Cut(w, a, keep))
  {
    hide DiskOf, Inv, RunOnce, Cut, Lawful, Start;
    CutIsLawful(w, a, keep);
    StartReloads(Cut(w, a, keep), again);
  }

  lemma TickIsWholeCut(w: World, a: Answers)
    requires Inv(w)
    ensures var v := Step(w, Tick(a));
            |w.log| <= |v.log| && v.disk == DiskOf(Cut(w, a, |v.log| - |w.log|))
  {
    hide DiskOf, Inv, RunOnce, Lawful;
    RunOnceKeeps(w, a);
    InvIsLawful(w);
    InvIsLawful(RunOnce(w, a));
  }
}
