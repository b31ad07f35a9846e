/**
 Whose claim it is, over every run: each request is traced to the pass that made it, a claimed device
 to the answers that named it, and every record to the device that was set up.
 */
module EnrollmentIdentity {
  import opened Common
  import opened Enrollment
  import opened EnrollmentSafety
  import opened EnrollmentEffects
  import opened EnrollmentNames
  import opened EnrollmentOutcomes
  import opened EnrollmentRuns
  import opened EnrollmentGaps
  import opened EnrollmentSecrets

  // ---------------------------------------------------------------- which pass made an entry

  predicate IsPass(m: Move) {
    m.Tick? || m.Crash?
  }

  /** The world before move k of a run. */
  function Before(boot: Boot, moves: seq<Move>, k: nat): World
    requires k <= |moves|
  {
    Run(boot, moves[..k])
  }

  /** Entry i of the log was made by the pass of move k. */
  ghost predicate MadeBy(boot: Boot, moves: seq<Move>, k: nat, log: seq<Effect>, i: nat) {
    && k < |moves| && IsPass(moves[k])
    && var w := Before(boot, moves, k);
       var m := RunOnce(w, moves[k].a).log;
       && Inv(w) && SecretInv(w)
       && |w.log| <= i < |m| && i < |log| && log[..i + 1] == m[..i + 1]
  }

  lemma StepAppends(w: World, m: Move)
    requires Inv(w)
    ensures w.log <= Step(w, m).log
    ensures IsPass(m) ==> Step(w, m).log <= RunOnce(w, m.a).log
    ensures m.Lose? ==> Step(w, m).log == w.log + [Vanish(m.file)]
  {
    StateIsRecognized(w);
    hide RunOnce, DiskOf, Lawful, Start, Inv;
    match m
    case Tick(a) => RunOnceKeeps(w, a);
    case Lose(f) =>
    case Crash(a, keep, again) =>
      RunOnceKeeps(w, a);
      CutIsLawful(w, a, keep);
      StartReloads(Cut(w, a, keep), again);
  }

  lemma LastMove(boot: Boot, moves: seq<Move>)
    requires moves != []
    ensures Run(boot, moves) == Step(Before(boot, moves, |moves| - 1), moves[|moves| - 1])
  {
    hide Step;
  }

  lemma FirstEntry(boot: Boot)
    ensures Run(boot, []).log == [Save(FreshRecord(boot))]
  {}

  lemma {:induction false} FirstOfARun(boot: Boot, moves: seq<Move>)
    ensures Run(boot, moves).log != [] && Run(boot, moves).log[0] == Save(FreshRecord(boot))
  {
    hide Step, Run;
    FirstEntry(boot);
    if moves != [] {
      var w := Before(boot, moves, |moves| - 1);
      LastMove(boot, moves);
      FirstOfARun(boot, moves[..|moves| - 1]);
      RunKeeps(boot, moves[..|moves| - 1]);
      StepAppends(w, moves[|moves| - 1]);
    }
  }

  lemma MadeByMore(boot: Boot, moves: seq<Move>, n: nat, k: nat, log: seq<Effect>, more: seq<Effect>, i: nat)
    requires n <= |moves| && MadeBy(boot, moves[..n], k, log, i) && log <= more
    ensures MadeBy(boot, moves, k, more, i)
  {
    hide Run, Inv, SecretInv, RunOnce;
    assert moves[..n][..k] == moves[..k];
    assert more[..i + 1] == log[..i + 1];
  }

  /** Every entry but the first, and but the deletions by others, was made by a pass. */
  lemma {:induction false} MadeByAPass(boot: Boot, moves: seq<Move>, i: nat) returns (k: nat)
    requires 0 < i < |Run(boot, moves).log| && !Run(boot, moves).log[i].Vanish?
    ensures MadeBy(boot, moves, k, Run(boot, moves).log, i)
  {
    hide Run, Step, Inv, SecretInv, RunOnce, MadeBy;
    FirstEntry(boot);
    var n := |moves| - 1;
    LastMove(boot, moves);
    var w := Before(boot, moves, n);
    RunKeeps(boot, moves[..n]);
    StepAppends(w, moves[n]);
    if i < |w.log| {
      k := MadeByAPass(boot, moves[..n], i);
      MadeByMore(boot, moves, n, k, w.log, Run(boot, moves).log, i);
    } else {
      k := n;
      SecretRun(boot, moves[..n]);
      MadeByLast(boot, moves, Run(boot, moves).log, i);
    }
  }

  lemma MadeByLast(boot: Boot, moves: seq<Move>, log: seq<Effect>, i: nat)
    requires moves != [] && IsPass(moves[|moves| - 1])
    requires var w := Before(boot, moves, |moves| - 1);
             Inv(w) && SecretInv(w) && |w.log| <= i < |log| && log <= RunOnce(w, moves[|moves| - 1].a).log
    ensures MadeBy(boot, moves, |moves| - 1, log, i)
  {
    hide Run, Inv, SecretInv, RunOnce;
  }

  // ---------------------------------------------------------------- the configuration of a process

  /** The configuration of the process that runs after the moves. */
  function ConfigInForce(boot: Boot, moves: seq<Move>): Config {
    if moves == [] then boot.config
    else if moves[|moves| - 1].Crash? then moves[|moves| - 1].boot.config
    else ConfigInForce(boot, moves[..|moves| - 1])
  }

  lemma {:induction false} ConfigIsInForce(boot: Boot, moves: seq<Move>)
    ensures Run(boot, moves).config == ConfigInForce(boot, moves)
  {
    if moves != [] {
      var w, m := Run(boot, moves[..|moves| - 1]), moves[|moves| - 1];
      ConfigIsInForce(boot, moves[..|moves| - 1]);
      hide RunOnce, Start;
      match m
      case Tick(a) => PassShowsItsError(w, a);
      case Lose(f) =>
      case Crash(a, keep, again) =>
        CrashIsStart(w, a, keep, again);
        StartHasConfig(Cut(w, a, keep), again);
    }
  }

  // ---------------------------------------------------------------- requests of a run

  /** In every run each request was made in one pass, with the record, the files and the configuration
      of the agent at that time, and the answers of that pass. */
  lemma RequestsOfARun(boot: Boot, moves: seq<Move>, i: nat) returns (k: nat)
    requires 0 < i < |Run(boot, moves).log| && !Run(boot, moves).log[i].Vanish?
    ensures k < |moves| && IsPass(moves[k]) && MayAsk(Before(boot, moves, k), moves[k].a, Run(boot, moves).log[i])
    ensures MadeBy(boot, moves, k, Run(boot, moves).log, i)
    ensures Before(boot, moves, k).config == ConfigInForce(boot, moves[..k])
  {
    hide Run, Inv, SecretInv, RunOnce, MayAsk;
    k := MadeByAPass(boot, moves, i);
    var w, a := Before(boot, moves, k), moves[k].a;
    RequestsOfAPass(w, a, i);
    ConfigIsInForce(boot, moves[..k]);
    assert Run(boot, moves).log[i] == Run(boot, moves).log[..i + 1][i] == RunOnce(w, a).log[..i + 1][i];
  }

  /** The poll at q was answered with an approval, and the provisioning at p asks for what it says. */
  predicate AsApproved(log: seq<Effect>, q: nat, p: nat, configured: string) {
    && q < p < |log| && log[q].AskPoll? && log[q].polled.Some? && log[p].AskProvision?
    && var r := log[q].polled.value;
       && (r.status == "approved" || r.status == "APPROVED")
       && log[p].session == log[q].session
       && log[p].deviceID == r.deviceID && log[p].thing == r.iotThingName
       && (r.template != "" ==> log[p].template == r.template)
       && (r.template == "" ==> log[p].template == configured)
  }

  /** In every run a certificate is requested for the device and the thing that an approval in the
      same pass has named, in its session, with its template, or the one that is configured where it
      names none. */
  lemma ProvisioningsAreAsApproved(boot: Boot, moves: seq<Move>, p: nat) returns (q: nat, k: nat)
    requires p < |Run(boot, moves).log| && Run(boot, moves).log[p].AskProvision?
    ensures k < |moves| && |Before(boot, moves, k).log| <= q
    ensures AsApproved(Run(boot, moves).log, q, p, ConfigInForce(boot, moves[..k]).template)
  {
    hide Run, Inv, SecretInv, RunOnce, ConfigInForce;
    FirstOfARun(boot, moves);
    k := RequestsOfARun(boot, moves, p);
    StateIsRecognized(Before(boot, moves, k));
    PolledBefore(Before(boot, moves, k), moves[k].a, Run(boot, moves).log, p);
    q := |Before(boot, moves, k).log| + 1;
  }

  lemma PollOfAPass(w: World, a: Answers)
    requires w.up && Polls(w, a)
    ensures var m := RunOnce(w, a).log;
            && a.poll.Some? && |w.log| + 1 < |m| && m[|w.log|].Woke?
            && m[|w.log| + 1] == AskPoll(w.record.pairingSessionID, w.disk.files[PollToken], a.poll)
  {
    PollingPass(w, a);
    hide RunOnce, Polled;
    QuietAnswerGrows(Polled(w, a), a.poll.value, w.disk.files[PollToken], a);
  }

  lemma SameEntry(log: seq<Effect>, m: seq<Effect>, p: nat, q: nat)
    requires q <= p < |log| && p < |m| && log[..p + 1] == m[..p + 1]
    ensures log[q] == m[q]
  {
    assert log[q] == log[..p + 1][q];
  }

  lemma PolledBefore(w: World, a: Answers, log: seq<Effect>, p: nat)
    requires w.up && |w.log| <= p < |log| && log[p].AskProvision? && MayAsk(w, a, log[p])
    requires p < |RunOnce(w, a).log| && log[..p + 1] == RunOnce(w, a).log[..p + 1]
    ensures AsApproved(log, |w.log| + 1, p, w.config.template)
  {
    hide RunOnce, Polls;
    PollOfAPass(w, a);
    var m := RunOnce(w, a).log;
    SameEntry(log, m, p, p);
    SameEntry(log, m, p, |w.log|);
    if p > |w.log| { SameEntry(log, m, p, |w.log| + 1); }
  }

  // ---------------------------------------------------------------- who a claimed device is

  /** The confirmation at k is asked for what the provisioning at p has given, for the same session:
      the provisioner's device and thing where it names them, and those it was asked for elsewhere. */
  predicate AsProvisioned(log: seq<Effect>, p: nat, k: nat) {
    && p < k < |log| && log[p].AskProvision? && log[p].provisioned.Some? && log[k].AskFinalize?
    && var given := log[p].provisioned.value;
       && log[k].session == log[p].session
       && log[k].certificateID == given.certificateID && log[k].certificateARN == given.certificateARN
       && (given.deviceID != "" ==> log[k].deviceID == given.deviceID)
       && (given.deviceID == "" ==> log[k].deviceID == log[p].deviceID)
       && (given.iotThingName != "" ==> log[k].thing == given.iotThingName)
       && (given.iotThingName == "" ==> log[k].thing == log[p].thing)
  }

  /** In every run a confirmation is asked for what some provisioning before it has given. */
  lemma ConfirmationsAreAsProvisioned(boot: Boot, moves: seq<Move>, k: nat) returns (p: nat)
    requires k < |Run(boot, moves).log| && Run(boot, moves).log[k].AskFinalize?
    ensures AsProvisioned(Run(boot, moves).log, p, k)
  {
    hide Run;
    SecretRun(boot, moves);
    p := NamedByAProvisioning(Run(boot, moves), k);
  }

  lemma NamedByAProvisioning(w: World, k: nat) returns (p: nat)
    requires SecretInv(w) && k < |w.log| && w.log[k].AskFinalize?
    ensures AsProvisioned(w.log, p, k)
  {
    assert SecretRule(w.log[..k], w.log[k]);
    hide SecretInv, DiskOf, Certified, Presentable;
    var ask := w.log[k];
    var n := Names(ask.session, ask.deviceID, ask.thing, ask.certificateID, ask.certificateARN);
    p :| 0 <= p < k && NamedAt(w.log[..k], p, n);
  }

  /** The saved claim was confirmed at k, in the session in which the poll at q was answered and the
      certificate of p issued. It is for the device and the thing that the confirmation names, or
      the provisioning where that names none, or the poll where neither does. */
  predicate ClaimedFor(log: seq<Effect>, r: Record, q: nat, p: nat, k: nat) {
    && q < p < k < |log| - 2 && log[k + 1] == Remove(PollToken) && log[k + 2] == Save(r)
    && log[q].AskPoll? && log[q].polled.Some? && log[p].AskProvision? && log[p].provisioned.Some?
    && log[k].AskFinalize? && log[k].finalized.Some? && log[k].session == log[p].session == log[q].session
    && log[k].certificateID == log[p].provisioned.value.certificateID
    && log[k].certificateARN == log[p].provisioned.value.certificateARN
    && var poll, given, f := log[q].polled.value, log[p].provisioned.value, log[k].finalized.value;
       && r.deviceID == (if f.deviceID != "" then f.deviceID
                         else if given.deviceID != "" then given.deviceID else poll.deviceID)
       && r.iotThingName == (if f.iotThingName != "" then f.iotThingName
                             else if given.iotThingName != "" then given.iotThingName else poll.iotThingName)
       && r.claimedAt.Some? && (f.claimedAt != ZERO_TIME ==> r.claimedAt.value == f.claimedAt)
  }

  /** At every moment of every run, whatever failed and however often the agent was stopped between
      the approval and the confirmation: a claimed device is the one that the cloud named last and
      most specifically, all in one session. */
  lemma ClaimedDeviceIsTheNamedOne(boot: Boot, moves: seq<Move>, n: nat) returns (q: nat, p: nat, k: nat)
    requires n <= |Run(boot, moves).log| && SavedAs(DiskOf(Run(boot, moves).log[..n]), Claimed)
    ensures var log := Run(boot, moves).log[..n]; ClaimedFor(log, DiskOf(log).saved.value, q, p, k)
  {
    hide Run, DiskOf;
    RunKeeps(boot, moves);
    SecretRun(boot, moves);
    var w := Run(boot, moves);
    var log := w.log[..n];
    InvIsLawful(w);
    LawfulPrefix(w.log, n);
    k := ClaimedWasConfirmed(log);
    var r := DiskOf(log).saved.value;
    SavedMeansSaved(log);
    TakenOverAt(w, k, r);
    p := ConfirmationsAreAsProvisioned(boot, moves, k);
    var move: nat;
    q, move := ProvisioningsAreAsApproved(boot, moves, p);
    NamesCompose(w.log, r, q, p, k, ConfigInForce(boot, moves[..move]).template, n);
  }

  lemma SavedMeansSaved(log: seq<Effect>)
    requires SavedAs(DiskOf(log), Claimed)
    ensures DiskOf(log).saved.value.claimState == Claimed
  {}

  lemma TakenOverAt(w: World, k: nat, r: Record)
    requires SecretInv(w) && k + 2 < |w.log| && w.log[k + 2] == Save(r) && r.claimState == Claimed
    ensures TakesOver(w.log[..k + 2], r)
  {
    assert SecretRule(w.log[..k + 2], w.log[k + 2]);
    hide SecretInv, TakesOver, Certified, Fits, Named, SameDevice;
  }

  lemma NamesCompose(log: seq<Effect>, r: Record, q: nat, p: nat, k: nat, configured: string, n: nat)
    requires n <= |log| && ConfirmedAt(log[..n], k, r) && TakesOver(log[..k + 2], r)
    requires AsProvisioned(log, p, k) && AsApproved(log, q, p, configured)
    ensures ClaimedFor(log[..n], r, q, p, k)
  {
    var l := log[..n];
    assert l[k] == log[k] && l[k + 1] == log[k + 1] && l[k + 2] == log[k + 2] && l[p] == log[p] && l[q] == log[q];
    assert log[..k + 2][k] == log[k];
  }

  // ---------------------------------------------------------------- one device

  /** In every run, however often the agent is started and with whatever fresh identifier: each saved
      record and each request for a session carries the identifier that was made when the device was
      first set up, and each record the time of that. */
  lemma IdentityStays(boot: Boot, moves: seq<Move>, i: nat)
    requires i < |Run(boot, moves).log|
    ensures var e := Run(boot, moves).log[i];
            && (e.Save? ==> e.record.installationID == boot.newID)
            && (e.Save? && boot.now != ZERO_TIME ==> e.record.createdAt == boot.now)
            && (e.AskCreate? ==> e.installationID == boot.newID)
  {
    hide Run, Inv, SecretInv, RunOnce;
    FirstOfARun(boot, moves);
    SecretRun(boot, moves);
    var w := Run(boot, moves);
    if w.log[i].Save? {
      SavedIsOfTheDevice(w, i);
    } else if w.log[i].AskCreate? {
      var k := RequestsOfARun(boot, moves, i);
      FirstOfARun(boot, moves[..k]);
      RecordIsOfTheDevice(Before(boot, moves, k));
    }
  }

  lemma SavedIsOfTheDevice(w: World, i: nat)
    requires SecretInv(w) && i < |w.log| && w.log[i].Save? && w.log[0].Save?
    ensures w.log[i].record.installationID == w.log[0].record.installationID
    ensures w.log[0].record.createdAt != ZERO_TIME ==> w.log[i].record.createdAt == w.log[0].record.createdAt
  {
    assert SecretRule(w.log[..i], w.log[i]);
    hide SecretInv, Certified, Fits, Named, TakesOver;
  }

  lemma RecordIsOfTheDevice(w: World)
    requires SecretInv(w) && w.log != [] && w.log[0].Save?
    ensures w.record.installationID == w.log[0].record.installationID
  {
    hide SecretLawful, DiskOf, Certified, Fits, Named;
  }
}
