/** What the command service keeps over every run of its operations. */
module CommandRuns {
  import opened Common
  import opened Commands

  type Definitions = map<string, Definition>

  datatype Call = Call(op: Operation, now: Time, faults: Faults)

  function Run(definitions: Definitions, strict: bool, calls: seq<Call>): Store {
    if calls == [] then Store(strict, map[], [], [])
    else
      var last := calls[|calls| - 1];
      Step(definitions, Run(definitions, strict, calls[..|calls| - 1]), last.op, last.now, last.faults).0
  }

  /** How far a command has come. */
  function Rank(s: Status): nat {
    match s
    case Queued => 0
    case Sent => 1
    case AckAccepted => 2
    case AckRejected => 2
    case AckTimedOut => 2
    case Running => 3
    case _ => 4
  }

  // ---------------------------------------------------------------- the status never goes back

  predicate KeyedByID(s: Store) {
    forall id :: id in s.commands ==> s.commands[id].commandID == id && id != ""
  }

  /** What one operation may do to the command with the given id. */
  predicate Advances(s: Store, t: Store, id: string, op: Operation) {
    id in s.commands ==>
      && id in t.commands
      && var c, d := s.commands[id], t.commands[id];
         && Rank(c.status) <= Rank(d.status)
         && (c.status != d.status ==> Rank(c.status) < Rank(d.status))
         && (Terminal(c.status) ==> d == c)
         && (d != c ==> !op.Create? && op.id == id)
         && (d != c && c.status == d.status ==> op.RecordProgress? && c.status == Running)
         && d.(status := c.status, ackDeadlineAt := c.ackDeadlineAt, sentAt := c.sentAt, ackedAt := c.ackedAt,
               terminalAt := c.terminalAt, updatedAt := c.updatedAt) == c
  }

  lemma DecisionAdvances(definitions: Definitions, op: Operation, c: Command, now: Time)
    requires !op.Create?
    ensures var d := Decide(definitions, op, c, now);
            d.Change? ==>
              && d.command.commandID == c.commandID
              && !Terminal(c.status)
              && (|| Rank(c.status) < Rank(d.command.status)
                  || (op.RecordProgress? && c.status == Running == d.command.status))
              && (Terminal(d.command.status) <==> d.result.Some?)
              && (d.result.Some? ==>
                    d.result.value.commandID == c.commandID && d.result.value.status == d.command.status
                    && d.command.terminalAt == Some(now))
              && (d.result.None? ==> d.command.terminalAt == c.terminalAt)
              && (d.progress.Some? ==> d.progress.value.commandID == c.commandID && op.RecordProgress?)
  {}

  lemma DecisionKeepsTheRest(definitions: Definitions, op: Operation, c: Command, now: Time)
    requires !op.Create?
    ensures var d := Decide(definitions, op, c, now);
            d.Change? ==>
              d.command.(status := c.status, ackDeadlineAt := c.ackDeadlineAt, sentAt := c.sentAt, ackedAt := c.ackedAt,
                         terminalAt := c.terminalAt, updatedAt := c.updatedAt) == c
  {}

  lemma CarryShape(s: Store, d: Decision, f: Faults)
    requires d.Change? && d.command.commandID in s.commands
    requires d.result.Some? ==> d.result.value.commandID == d.command.commandID
    ensures var (t, reply) := Carry(s, d, f);
            var saved := s.commands[d.command.commandID := d.command];
            && t.strict == s.strict
            && (t.commands == s.commands || t.commands == saved)
            && (t.results == s.results ||
                (d.result.Some? && t.results == s.results + [d.result.value]
                 && (s.strict ==> CountFor(s.results, d.command.commandID) == 0)))
            && (t.commands != s.commands && d.result.Some? ==> t.results == s.results + [d.result.value])
            && (reply.Done? ==> reply == Done(d.command, true) && t.commands == saved
                                && (d.result.Some? ==> t.results == s.results + [d.result.value]))
            && (d.result.None? ==> t.results == s.results)
            && (f == RELIABLE && (d.result.Some? && s.strict ==> CountFor(s.results, d.command.commandID) == 0) ==>
                  && t.commands == saved && (d.result.Some? ==> t.results == s.results + [d.result.value])
                  && t.progress == if d.progress.Some? then s.progress + [d.progress.value] else s.progress)
  {
    hide CountFor;
  }

  /** What one operation does to the store: nothing, a new command, or the decided change, of
      which the result is recorded before the command is saved. */
  lemma StepShape(definitions: Definitions, s: Store, op: Operation, now: Time, f: Faults)
    requires KeyedByID(s)
    ensures var (t, reply) := Step(definitions, s, op, now, f);
            && t.strict == s.strict
            && ((t.commands == s.commands && t.results == s.results)
                || Created(definitions, s, op, now, t)
                || Changed(definitions, s, op, now, t))
            && (reply.Done? && reply.changed ==>
                  (Created(definitions, s, op, now, t) || Changed(definitions, s, op, now, t))
                  && op.id in t.commands && t.commands[op.id] == reply.command
                  && (!op.Create? ==> op.id in s.commands && Decide(definitions, op, s.commands[op.id], now).Change?
                                      && reply.command == Decide(definitions, op, s.commands[op.id], now).command))
            && (reply.Done? && !reply.changed ==> t == s && (op.ExpireMissingAck? || op.ExpireResult?))
  {
    if !op.Create? && op.id in s.commands {
      var d := Decide(definitions, op, s.commands[op.id], now);
      DecisionAdvances(definitions, op, s.commands[op.id], now);
      if d.Change? { CarryShape(s, d, f); }
    }
    hide CountFor, Decide, Carry;
  }

  predicate Created(definitions: Definitions, s: Store, op: Operation, now: Time, t: Store) {
    && op.Create? && op.id != "" && op.id !in s.commands && DefinitionFor(definitions, op.commandType).Some?
    && t.commands == s.commands[op.id := NewCommand(op, DefinitionFor(definitions, op.commandType).value, now)]
    && t.results == s.results
    && ValidNew(t.commands[op.id])
  }

  predicate Changed(definitions: Definitions, s: Store, op: Operation, now: Time, t: Store) {
    && !op.Create? && op.id in s.commands
    && var d := Decide(definitions, op, s.commands[op.id], now);
       && d.Change?
       && (t.commands == s.commands[op.id := d.command] || (t.commands == s.commands && d.result.Some?))
       && (if d.result.Some?
           then t.results == s.results + [d.result.value] && (s.strict ==> CountFor(s.results, op.id) == 0)
           else t.results == s.results)
  }

  /** Every operation, successful or not: the status keeps its rank or rises, a terminal command
      never changes, only its own operations change a command, and only progress reported on a
      running command changes it without raising its rank. */
  lemma StatusNeverGoesBack(definitions: Definitions, s: Store, op: Operation, now: Time, f: Faults, id: string)
    requires KeyedByID(s)
    ensures var (t, reply) := Step(definitions, s, op, now, f);
            && KeyedByID(t) && Advances(s, t, id, op)
            && (reply.Done? && reply.changed && !op.Create? ==>
                  && op.id in s.commands && op.id in t.commands && t.commands[op.id] == reply.command
                  && (|| Rank(s.commands[op.id].status) < Rank(reply.command.status)
                      || (op.RecordProgress? && s.commands[op.id].status == Running == reply.command.status)))
            && (reply.Done? && !reply.changed ==> t == s && (op.ExpireMissingAck? || op.ExpireResult?))
  {
    hide Step, Decide, CountFor, DefinitionFor;
    StepShape(definitions, s, op, now, f);
    if !op.Create? && op.id in s.commands {
      DecisionAdvances(definitions, op, s.commands[op.id], now);
      DecisionKeepsTheRest(definitions, op, s.commands[op.id], now);
    }
  }

  lemma {:induction false} RunIsKeyed(definitions: Definitions, strict: bool, calls: seq<Call>)
    ensures KeyedByID(Run(definitions, strict, calls)) && Run(definitions, strict, calls).strict == strict
  {
    if calls != [] {
      var rest, last := calls[..|calls| - 1], calls[|calls| - 1];
      RunIsKeyed(definitions, strict, rest);
      var s := Run(definitions, strict, rest);
      StepShape(definitions, s, last.op, last.now, last.faults);
      StatusNeverGoesBack(definitions, s, last.op, last.now, last.faults, "");
      hide Step, Created, Changed, CountFor, Decide;
    }
  }

  /** How often the status of a command changed during a run, its creation not counted. */
  function StatusChanges(definitions: Definitions, strict: bool, calls: seq<Call>, id: string): nat {
    if calls == [] then 0 else
    var before := Run(definitions, strict, calls[..|calls| - 1]);
    var after := Run(definitions, strict, calls);
    StatusChanges(definitions, strict, calls[..|calls| - 1], id) +
    (if id in before.commands && id in after.commands
        && before.commands[id].status != after.commands[id].status then 1 else 0)
  }

  /** The rank bounds the number of status changes: no command ever changes its status more
      than four times. */
  lemma {:induction false} AtMostFourStatusChanges(definitions: Definitions, strict: bool, calls: seq<Call>, id: string)
    ensures var s := Run(definitions, strict, calls);
            StatusChanges(definitions, strict, calls, id) <= if id in s.commands then Rank(s.commands[id].status) else 0
    ensures StatusChanges(definitions, strict, calls, id) <= 4
  {
    if calls != [] {
      var rest, last := calls[..|calls| - 1], calls[|calls| - 1];
      AtMostFourStatusChanges(definitions, strict, rest, id);
      RunIsKeyed(definitions, strict, rest);
      StatusNeverGoesBack(definitions, Run(definitions, strict, rest), last.op, last.now, last.faults, id);
    }
  }

  // ---------------------------------------------------------------- commands and results agree

  predicate HasResult(results: seq<Outcome>, id: string, status: Status) {
    exists r :: r in results && r.commandID == id && r.status == status
  }

  /** Reliable repository: a command is terminal exactly when one result is recorded for it, and
      that result carries its status. */
  predicate Agree(s: Store, id: string) {
    if id !in s.commands then CountFor(s.results, id) == 0 else
    var c := s.commands[id];
    && (Terminal(c.status) <==> CountFor(s.results, id) == 1)
    && (!Terminal(c.status) ==> CountFor(s.results, id) == 0 && c.terminalAt.None?)
    && (Terminal(c.status) ==> HasResult(s.results, id, c.status) && c.terminalAt.Some?)
  }

  /** Any repository: a terminal command has a result with its status. */
  predicate Backed(s: Store, id: string) {
    id in s.commands && Terminal(s.commands[id].status) ==>
      HasResult(s.results, id, s.commands[id].status) && s.commands[id].terminalAt.Some?
  }

  lemma RecordKeeps(s: Store, r: Outcome, id: string, status: Status)
    ensures CountFor(s.results + [r], id) == CountFor(s.results, id) + if r.commandID == id then 1 else 0
    ensures HasResult(s.results, id, status) ==> HasResult(s.results + [r], id, status)
    ensures r.commandID == id && r.status == status ==> HasResult(s.results + [r], id, status)
  {
    assert (s.results + [r])[..|s.results|] == s.results;
    assert r in s.results + [r];
    if HasResult(s.results, id, status) {
      var x :| x in s.results && x.commandID == id && x.status == status;
      assert x in s.results + [r];
    }
  }

  predicate Reliable(calls: seq<Call>) {
    forall i :: 0 <= i < |calls| ==> calls[i].faults == RELIABLE
  }

  lemma ReliableStep(definitions: Definitions, s: Store, op: Operation, now: Time)
    requires !op.Create? && op.id != "" && op.id in s.commands
    ensures var d := Decide(definitions, op, s.commands[op.id], now);
            Step(definitions, s, op, now, RELIABLE).0 == if d.Change? then Carry(s, d, RELIABLE).0 else s
  {
    hide Decide, Carry;
  }

  lemma StepAgrees(definitions: Definitions, s: Store, op: Operation, now: Time, id: string)
    requires KeyedByID(s) && Agree(s, id) && (op.id in s.commands ==> Agree(s, op.id))
    ensures Agree(Step(definitions, s, op, now, RELIABLE).0, id)
  {
    hide Step, Decide, HasResult, CountFor, DefinitionFor, Carry;
    StepShape(definitions, s, op, now, RELIABLE);
    if !op.Create? && op.id in s.commands {
      var c := s.commands[op.id];
      DecisionAdvances(definitions, op, c, now);
      var d := Decide(definitions, op, c, now);
      ReliableStep(definitions, s, op, now);
      if d.Change? {
        CarryShape(s, d, RELIABLE);
        if d.result.Some? {
          var r := d.result.value;
          RecordKeeps(s, r, id, d.command.status);
          if id in s.commands { RecordKeeps(s, r, id, s.commands[id].status); }
        }
      }
    }
  }

  /** With a reliable repository, in every reachable state: terminal exactly when exactly one
      result with the same status is recorded, and no result for any other command. */
  lemma {:induction false} TerminalExactlyWhenOneResult(definitions: Definitions, strict: bool, calls: seq<Call>,
                                                        id: string)
    requires Reliable(calls)
    ensures Agree(Run(definitions, strict, calls), id)
  {
    if calls != [] {
      var rest, last := calls[..|calls| - 1], calls[|calls| - 1];
      TerminalExactlyWhenOneResult(definitions, strict, rest, id);
      TerminalExactlyWhenOneResult(definitions, strict, rest, last.op.id);
      RunIsKeyed(definitions, strict, rest);
      StepAgrees(definitions, Run(definitions, strict, rest), last.op, last.now, id);
    }
  }

  lemma StepBacks(definitions: Definitions, s: Store, op: Operation, now: Time, f: Faults, id: string)
    requires KeyedByID(s) && Backed(s, id)
    ensures Backed(Step(definitions, s, op, now, f).0, id)
  {
    hide Step, Decide, HasResult, CountFor, DefinitionFor;
    StepShape(definitions, s, op, now, f);
    if !op.Create? && op.id in s.commands {
      var c := s.commands[op.id];
      DecisionAdvances(definitions, op, c, now);
      var d := Decide(definitions, op, c, now);
      if d.Change? && d.result.Some? {
        var r := d.result.value;
        RecordKeeps(s, r, id, d.command.status);
        if id in s.commands { RecordKeeps(s, r, id, s.commands[id].status); }
      }
    }
  }

  lemma StepCounts(definitions: Definitions, s: Store, op: Operation, now: Time, f: Faults, id: string)
    requires KeyedByID(s) && s.strict && CountFor(s.results, id) <= 1
    ensures CountFor(Step(definitions, s, op, now, f).0.results, id) <= 1
  {
    hide Step, Decide, HasResult, CountFor, DefinitionFor;
    StepShape(definitions, s, op, now, f);
    if !op.Create? && op.id in s.commands {
      DecisionAdvances(definitions, op, s.commands[op.id], now);
      var d := Decide(definitions, op, s.commands[op.id], now);
      if d.Change? && d.result.Some? { RecordKeeps(s, d.result.value, id, Canceled); }
    }
  }

  /** Whatever calls of the repository fail: every terminal command has a result with its
      status, and a strict repository never holds two results for one command. */
  lemma {:induction false} TerminalHasAResult(definitions: Definitions, strict: bool, calls: seq<Call>, id: string)
    ensures Backed(Run(definitions, strict, calls), id)
    ensures strict ==> CountFor(Run(definitions, strict, calls).results, id) <= 1
  {
    if calls != [] {
      var rest, last := calls[..|calls| - 1], calls[|calls| - 1];
      TerminalHasAResult(definitions, strict, rest, id);
      RunIsKeyed(definitions, strict, rest);
      StepBacks(definitions, Run(definitions, strict, rest), last.op, last.now, last.faults, id);
      if strict { StepCounts(definitions, Run(definitions, strict, rest), last.op, last.now, last.faults, id); }
      hide Step, CountFor, Backed;
    }
  }

  // ---------------------------------------------------------------- results that were recorded in vain

  /** A result is on record but the command was not saved as terminal. */
  predicate Stranded(s: Store, id: string) {
    s.strict && id in s.commands && !Terminal(s.commands[id].status) && CountFor(s.results, id) > 0
  }

  lemma StrandedStep(definitions: Definitions, s: Store, op: Operation, now: Time, f: Faults, id: string)
    requires KeyedByID(s) && Stranded(s, id)
    ensures Stranded(Step(definitions, s, op, now, f).0, id)
  {
    hide Step, Decide, CountFor, DefinitionFor;
    StepShape(definitions, s, op, now, f);
    if !op.Create? && op.id in s.commands {
      DecisionAdvances(definitions, op, s.commands[op.id], now);
      var d := Decide(definitions, op, s.commands[op.id], now);
      if d.Change? && d.result.Some? {
        RecordKeeps(s, d.result.value, id, Canceled);
      }
    }
  }

  /** A failed save after a recorded result strands a command: no further run ends it. */
  lemma {:induction false} StrandedForever(definitions: Definitions, calls: seq<Call>, n: nat, id: string)
    requires n <= |calls| && Stranded(Run(definitions, true, calls[..n]), id)
    ensures Stranded(Run(definitions, true, calls), id)
    decreases |calls|
  {
    hide Step, Stranded;
    if n < |calls| {
      var rest, last := calls[..|calls| - 1], calls[|calls| - 1];
      assert rest[..n] == calls[..n];
      StrandedForever(definitions, rest, n, id);
      RunIsKeyed(definitions, true, rest);
      StrandedStep(definitions, Run(definitions, true, rest), last.op, last.now, last.faults, id);
    } else {
      assert calls[..n] == calls;
    }
  }

  predicate Ends(s: Store, id: string) {
    id in s.commands && Terminal(s.commands[id].status)
  }

  /** In a strict repository a live command can still be ended exactly when nothing is recorded
      for it; cancelling it then does so. */
  lemma CanBeEndedExactlyWhenNothingRecorded(definitions: Definitions, s: Store, now: Time, id: string)
    requires KeyedByID(s) && s.strict && id in s.commands && !Terminal(s.commands[id].status)
    ensures (exists op: Operation, f: Faults, at: Time :: Ends(Step(definitions, s, op, at, f).0, id))
            <==> CountFor(s.results, id) == 0
  {
    hide CountFor, Step, Carry;
    if CountFor(s.results, id) == 0 {
      ReliableStep(definitions, s, Cancel(id), now);
      CarryShape(s, Decide(definitions, Cancel(id), s.commands[id], now), RELIABLE);
      assert Ends(Step(definitions, s, Cancel(id), now, RELIABLE).0, id);
    } else {
      forall op: Operation, f: Faults, at: Time
        ensures !Ends(Step(definitions, s, op, at, f).0, id)
      {
        StrandedStep(definitions, s, op, at, f, id);
      }
    }
  }

  /** The operation is one that records a result for the command. */
  predicate WouldEnd(op: Operation, c: Command, now: Time) {
    var answered := c.status == AckAccepted || c.status == Running;
    || (op.RecordResult? && answered && Terminal(op.status) && op.resultType != "" && op.payloadValid)
    || (op.ExpireResult? && answered && now > c.resultDeadlineAt)
    || (op.Cancel? && !Terminal(c.status))
  }

  /** Exactly when an operation strands a command: it records a result, which is applied and then
      reported as failed, or applied but not followed by a save that takes effect. */
  lemma StrandsExactlyWhen(definitions: Definitions, s: Store, op: Operation, now: Time, f: Faults, id: string)
    requires KeyedByID(s) && s.strict && id in s.commands && !Stranded(s, id)
    ensures Stranded(Step(definitions, s, op, now, f).0, id) <==>
            && !op.Create? && op.id == id && !f.get && WouldEnd(op, s.commands[id], now)
            && f.record.Applied() && (f.record.Reported() || !f.save.Applied())
  {
    hide CountFor, Step, Decide, Carry, DefinitionFor;
    StepShape(definitions, s, op, now, f);
    if !op.Create? && op.id in s.commands {
      var c := s.commands[op.id];
      var d := Decide(definitions, op, c, now);
      DecisionAdvances(definitions, op, c, now);
      WouldEndMeans(definitions, op, c, now);
      StepCarries(definitions, s, op, now, f);
      if d.Change? {
        if d.result.Some? {
          RecordKeeps(s, d.result.value, id, Canceled);
          if op.id == id { CarryStrands(s, d, f); }
        }
      }
    }
  }

  lemma WouldEndMeans(definitions: Definitions, op: Operation, c: Command, now: Time)
    requires !op.Create?
    ensures var d := Decide(definitions, op, c, now);
            && (d.Change? && d.result.Some? <==> WouldEnd(op, c, now))
            && (d.Change? && d.result.Some? ==> d.progress.None?)
  {}

  lemma StepCarries(definitions: Definitions, s: Store, op: Operation, now: Time, f: Faults)
    requires !op.Create? && op.id in s.commands && KeyedByID(s)
    ensures var d := Decide(definitions, op, s.commands[op.id], now);
            Step(definitions, s, op, now, f).0 == if d.Change? && !f.get then Carry(s, d, f).0 else s
  {
    hide Decide, Carry;
  }

  lemma CarryStrands(s: Store, d: Decision, f: Faults)
    requires d.Change? && d.command.commandID in s.commands && d.progress.None?
    requires s.strict && d.result.Some? && d.result.value.commandID == d.command.commandID
    requires CountFor(s.results, d.command.commandID) == 0
    ensures var t := Carry(s, d, f).0;
            && t.results == (if f.record.Applied() then s.results + [d.result.value] else s.results)
            && t.commands == (if f.record == Works && f.save.Applied() then s.commands[d.command.commandID := d.command]
                              else s.commands)
  {
    hide CountFor;
  }

  /** Progress is only ever appended to an accepted or running command, by its own report, and
      a report that succeeds leaves the command running. */
  lemma ProgressOnlyWhileLive(definitions: Definitions, s: Store, op: Operation, now: Time, f: Faults)
    requires KeyedByID(s)
    ensures var (t, reply) := Step(definitions, s, op, now, f);
            t.progress != s.progress ==>
              && op.RecordProgress? && op.id in s.commands && op.id in t.commands
              && (s.commands[op.id].status == AckAccepted || s.commands[op.id].status == Running)
              && |t.progress| == |s.progress| + 1 && t.progress[..|s.progress|] == s.progress
              && t.progress[|s.progress|].commandID == op.id && t.progress[|s.progress|].phase == op.phase != ""
              && (reply.Done? ==> t.commands[op.id].status == Running)
              && t.results == s.results
  {
    hide CountFor, DefinitionFor;
    if !op.Create? && op.id in s.commands {
      DecisionAdvances(definitions, op, s.commands[op.id], now);
      var d := Decide(definitions, op, s.commands[op.id], now);
      if d.Change? { CarryProgress(s, d, f); }
    }
    hide Carry;
  }

  lemma CarryProgress(s: Store, d: Decision, f: Faults)
    requires d.Change? && d.command.commandID in s.commands
    ensures var (t, reply) := Carry(s, d, f);
            && (t.progress == s.progress || (d.progress.Some? && t.progress == s.progress + [d.progress.value]))
            && (d.result.None? ==> t.results == s.results)
            && (t.commands == s.commands || t.commands == s.commands[d.command.commandID := d.command])
            && (reply.Done? ==> t.commands == s.commands[d.command.commandID := d.command])
  {
    hide CountFor;
  }

  // ---------------------------------------------------------------- deadlines

  /** The deadlines of a command are the windows of its type, counted from when it was queued
      and, once it is sent, from when it was sent. */
  predicate OnTime(definitions: Definitions, c: Command) {
    var d := DefinitionFor(definitions, c.commandType);
    && d.Some?
    && c.resultDeadlineAt == c.queuedAt + d.value.resultWindow
    && c.ackDeadlineAt == (if c.sentAt.Some? then c.sentAt.value else c.queuedAt) + d.value.ackWindow
    && (c.status == Queued ==> c.sentAt.None?)
    && (c.status != Queued && c.status != Canceled ==> c.sentAt.Some?)
  }

  lemma DecisionIsOnTime(definitions: Definitions, op: Operation, c: Command, now: Time)
    requires !op.Create? && OnTime(definitions, c)
    ensures var d := Decide(definitions, op, c, now); d.Change? ==> OnTime(definitions, d.command)
  {}

  lemma {:induction false} DeadlinesFollowTheWindows(definitions: Definitions, strict: bool, calls: seq<Call>,
                                                     id: string)
    ensures var s := Run(definitions, strict, calls); id in s.commands ==> OnTime(definitions, s.commands[id])
  {
    if calls != [] {
      var rest, last := calls[..|calls| - 1], calls[|calls| - 1];
      var s := Run(definitions, strict, rest);
      DeadlinesFollowTheWindows(definitions, strict, rest, id);
      RunIsKeyed(definitions, strict, rest);
      StepShape(definitions, s, last.op, last.now, last.faults);
      hide Step, CountFor;
      if !last.op.Create? && id in s.commands {
        DecisionIsOnTime(definitions, last.op, s.commands[id], last.now);
        hide Decide, DefinitionFor;
      }
    }
  }

  /** A new command can be acknowledged before its result is due. Once it is sent this is so
      exactly when it waited for less than the difference of the two windows. */
  lemma AckDeadlineComesFirst(definitions: Definitions, strict: bool, calls: seq<Call>, id: string)
    requires id in Run(definitions, strict, calls).commands
    ensures var c := Run(definitions, strict, calls).commands[id];
            var d := DefinitionFor(definitions, c.commandType);
            && d.Some?
            && (c.sentAt.None? ==> c.ackDeadlineAt < c.resultDeadlineAt)
            && (c.sentAt.Some? ==>
                  (c.ackDeadlineAt < c.resultDeadlineAt <==>
                   c.sentAt.value - c.queuedAt < d.value.resultWindow - d.value.ackWindow))
  {
    DeadlinesFollowTheWindows(definitions, strict, calls, id);
  }

  /** An ack is stored only when it is processed by the ack deadline; a command times out only
      strictly after its deadline, waiting for an ack or for a result. */
  lemma DeadlinesDecide(definitions: Definitions, s: Store, op: Operation, now: Time, f: Faults, id: string)
    requires KeyedByID(s) && id in s.commands && id in Step(definitions, s, op, now, f).0.commands
    requires s.commands[id].status != Step(definitions, s, op, now, f).0.commands[id].status
    ensures var c, t := s.commands[id], Step(definitions, s, op, now, f).0.commands[id];
            && (t.status == AckAccepted || t.status == AckRejected ==>
                  && now <= c.ackDeadlineAt
                  && op == RecordAck(id, t.status == AckAccepted, op.reportedAt) && t.ackedAt.Some?)
            && (t.status == AckTimedOut ==>
                  now > c.ackDeadlineAt && (op.RecordAck? || op.ExpireMissingAck?) && t.ackedAt == c.ackedAt)
            && (t.status == TimedOut ==> now > c.resultDeadlineAt || op.RecordResult?)
            && (t.status == Canceled ==> op.Cancel? || op.RecordResult?)
  {
    hide CountFor, Step, DefinitionFor;
    StepShape(definitions, s, op, now, f);
  }

  /** With a reliable repository a live command times out exactly when it is checked after the
      deadline it is waiting for. */
  lemma ExpiriesFireExactlyAfterDeadlines(definitions: Definitions, s: Store, now: Time, id: string)
    requires KeyedByID(s) && id in s.commands && (s.strict ==> CountFor(s.results, id) == 0)
    ensures var c := s.commands[id];
            var t := Step(definitions, s, ExpireMissingAck(id), now, RELIABLE).0;
            var u := Step(definitions, s, ExpireResult(id), now, RELIABLE).0;
            && id in t.commands && id in u.commands
            && (c.status == Sent ==> (t.commands[id].status == AckTimedOut <==> now > c.ackDeadlineAt))
            && (c.status == AckAccepted || c.status == Running ==>
                  (u.commands[id].status == TimedOut <==> now > c.resultDeadlineAt)
                  && (u.commands[id].status == TimedOut <==> HasNewResult(s, u, id, TimedOut)))
  {
    hide CountFor, Carry, Step;
    ReliableStep(definitions, s, ExpireMissingAck(id), now);
    ReliableStep(definitions, s, ExpireResult(id), now);
    var d := Decide(definitions, ExpireMissingAck(id), s.commands[id], now);
    var e := Decide(definitions, ExpireResult(id), s.commands[id], now);
    if d.Change? { CarryShape(s, d, RELIABLE); }
    if e.Change? { CarryShape(s, e, RELIABLE); }
  }

  predicate HasNewResult(s: Store, t: Store, id: string, status: Status) {
    |t.results| == |s.results| + 1 && t.results[..|s.results|] == s.results
    && t.results[|s.results|].commandID == id && t.results[|s.results|].status == status
  }

  /** A command whose agent answers in time goes all the way: sent, accepted, running, and then
      the status it reports, with exactly the reported progress and result added to the logs. */
  lemma CommandCompletes(definitions: Definitions, s: Store, id: string, sent: Time, ackAt: Time, acked: Time,
                         phase: string, progressAt: Time, at: Time, status: Status, resultType: string, reason: string,
                         endAt: Time, ended: Time)
    requires KeyedByID(s) && id in s.commands && s.commands[id].status == Queued && CountFor(s.results, id) == 0
    requires OnTime(definitions, s.commands[id]) && Terminal(status) && phase != "" && resultType != ""
    requires acked <= sent + DefinitionFor(definitions, s.commands[id].commandType).value.ackWindow
    ensures var s1 := Step(definitions, s, MarkSent(id), sent, RELIABLE).0;
            var s2 := Step(definitions, s1, RecordAck(id, true, ackAt), acked, RELIABLE).0;
            var s3 := Step(definitions, s2, RecordProgress(id, phase, true, progressAt), at, RELIABLE).0;
            var report := RecordResult(id, status, resultType, reason, true, endAt);
            var s4 := Step(definitions, s3, report, ended, RELIABLE).0;
            && id in s4.commands && s4.commands[id].status == status && s4.commands[id].terminalAt == Some(ended)
            && s4.commands[id].sentAt == Some(sent)
            && s4.commands[id].ackedAt == Some(if ackAt != ZERO_TIME then ackAt else acked)
            && s4.progress == s.progress + [Progress(id, phase, if progressAt != ZERO_TIME then progressAt else at, at)]
            && s4.results == s.results + [Outcome(id, status, resultType, reason,
                                                  if endAt != ZERO_TIME then endAt else ended, ended)]
  {
    hide CountFor, Carry, Step, DefinitionFor;
    var s1 := Advance(definitions, s, MarkSent(id), sent);
    var s2 := Advance(definitions, s1, RecordAck(id, true, ackAt), acked);
    var s3 := Advance(definitions, s2, RecordProgress(id, phase, true, progressAt), at);
    var s4 := Advance(definitions, s3, RecordResult(id, status, resultType, reason, true, endAt), ended);
  }

  /** One reliable operation that decides to change a command without a result on record. */
  lemma Advance(definitions: Definitions, s: Store, op: Operation, now: Time) returns (t: Store)
    requires !op.Create? && KeyedByID(s) && op.id in s.commands
    requires Decide(definitions, op, s.commands[op.id], now).Change?
    requires CountFor(s.results, op.id) == 0
    ensures t == Step(definitions, s, op, now, RELIABLE).0 && KeyedByID(t) && t.strict == s.strict
    ensures var d := Decide(definitions, op, s.commands[op.id], now);
            && t.commands == s.commands[op.id := d.command]
            && t.results == (if d.result.Some? then s.results + [d.result.value] else s.results)
            && t.progress == if d.progress.Some? then s.progress + [d.progress.value] else s.progress
  {
    hide CountFor, Carry, Step, Decide;
    t := Step(definitions, s, op, now, RELIABLE).0;
    ReliableStep(definitions, s, op, now);
    DecisionAdvances(definitions, op, s.commands[op.id], now);
    CarryShape(s, Decide(definitions, op, s.commands[op.id], now), RELIABLE);
    StepShape(definitions, s, op, now, RELIABLE);
  }

  /** Every default definition is accepted. */
  lemma DefaultDefinitionsAreAccepted(commandType: string)
    ensures DefinitionFor(DEFAULT_DEFINITIONS, commandType).Some? <==> commandType in DEFAULT_DEFINITIONS
  {}
}
