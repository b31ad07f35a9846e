/** What every operation of the command service comes to, in any state and with any faults: when it
    is answered with the command, with which one, and what the repository holds afterwards. */
module CommandOperations {
  import opened Common
  import opened Commands
  import opened CommandRuns

  /** The operation finds its command. */
  predicate Found(s: Store, id: string, f: Faults) {
    id != "" && !f.get && id in s.commands
  }

  /** The agent has accepted the command and not yet reported its end. */
  predicate Answered(s: Store, id: string) {
    id in s.commands && (s.commands[id].status == AckAccepted || s.commands[id].status == Running)
  }

  // ---------------------------------------------------------------- creation and delivery

  /** A command is created exactly when its type has windows that fit into each other, all its
      names are given, its payload is valid, its id is new and neither deadline is the zero time;
      it is then queued, with both deadlines counted from now. */
  lemma CreateMeans(definitions: Definitions, s: Store, op: Operation, now: Time, f: Faults)
    requires op.Create?
    ensures var (t, reply) := Step(definitions, s, op, now, f);
            var valid := && op.commandType in definitions
                         && 0 < definitions[op.commandType].ackWindow < definitions[op.commandType].resultWindow
                         && op.id != "" && op.accountID != "" && op.siteID != "" && op.deviceID != ""
                         && op.commandType != "" && op.payloadValid
                         && now + definitions[op.commandType].ackWindow != ZERO_TIME
                         && now + definitions[op.commandType].resultWindow != ZERO_TIME;
            var created := valid && op.id !in s.commands && f.create.Applied();
            && (reply.Done? <==> created && !f.create.Reported())
            && (!created ==> t == s)
            && (created ==>
                  && op.id in t.commands && t == s.(commands := s.commands[op.id := t.commands[op.id]])
                  && (reply.Done? ==> reply == Done(t.commands[op.id], true))
                  && var c, d := t.commands[op.id], definitions[op.commandType];
                     && c.commandID == op.id && c.accountID == op.accountID && c.siteID == op.siteID
                     && c.deviceID == op.deviceID && c.commandType == op.commandType
                     && c.status == Queued && c.queuedAt == now == c.updatedAt
                     && c.ackDeadlineAt - now == d.ackWindow && c.resultDeadlineAt - now == d.resultWindow
                     && c.sentAt.None? && c.ackedAt.None? && c.terminalAt.None?)
  {}

  /** A queued command of a known type is marked as sent, and its ack window starts again. */
  lemma SentMeans(definitions: Definitions, s: Store, id: string, now: Time, f: Faults)
    requires KeyedByID(s)
    ensures var (t, reply) := Step(definitions, s, MarkSent(id), now, f);
            if !Found(s, id, f) || s.commands[id].status != Queued
               || DefinitionFor(definitions, s.commands[id].commandType).None? then t == s && reply == Error
            else
              var c := s.commands[id];
              var window := definitions[c.commandType].ackWindow;
              var d := c.(status := Sent, sentAt := Some(now), ackDeadlineAt := now + window, updatedAt := now);
              t.commands == (if f.save.Applied() then s.commands[id := d] else s.commands)
              && t == s.(commands := t.commands) && reply == (if f.save.Works? then Done(d, true) else Error)
  {}

  // ---------------------------------------------------------------- acks

  /** An ack is answered with the command exactly when the command is sent, its ack deadline has
      not passed and it can be saved; it is then stored with the agent's time, or the time of
      processing if it gives none. A late one times the command out and is always an error. */
  lemma AckMeans(definitions: Definitions, s: Store, id: string, accepted: bool, reportedAt: Time, now: Time, f: Faults)
    requires KeyedByID(s)
    ensures var (t, reply) := Step(definitions, s, RecordAck(id, accepted, reportedAt), now, f);
            var found := Found(s, id, f) && s.commands[id].status == Sent;
            && (reply.Done? <==> found && now <= s.commands[id].ackDeadlineAt && f.save.Works?)
            && (!found || !f.save.Applied() ==> t == s)
            && (reply.Done? ==> reply.changed && id in t.commands && reply.command == t.commands[id])
            && (found && f.save.Applied() ==>
                  && id in t.commands && t == s.(commands := s.commands[id := t.commands[id]])
                  && var c, d := s.commands[id], t.commands[id];
                     && d == c.(status := d.status, ackedAt := d.ackedAt, updatedAt := now)
                     && if now > c.ackDeadlineAt then d.status == AckTimedOut && d.ackedAt == c.ackedAt
                        else
                          && (d.status == AckAccepted <==> accepted) && (d.status == AckRejected <==> !accepted)
                          && d.ackedAt == Some(if reportedAt != ZERO_TIME then reportedAt else now))
  {}

  /** A sent command times out exactly when it is checked after its ack deadline; any other command
      is answered unchanged. */
  lemma AckExpiryMeans(definitions: Definitions, s: Store, id: string, now: Time, f: Faults)
    requires KeyedByID(s)
    ensures var (t, reply) := Step(definitions, s, ExpireMissingAck(id), now, f);
            if !Found(s, id, f) then t == s && reply == Error
            else if s.commands[id].status != Sent || s.commands[id].ackDeadlineAt >= now then
              t == s && reply == Done(s.commands[id], false)
            else
              var d := s.commands[id].(status := AckTimedOut, updatedAt := now);
              t.commands == (if f.save.Applied() then s.commands[id := d] else s.commands)
              && t == s.(commands := t.commands) && reply == (if f.save.Works? then Done(d, true) else Error)
  {}

  // ---------------------------------------------------------------- progress

  /** The report is one that must be stored: it is valid, and its command is waiting for its end. */
  predicate Reportable(s: Store, op: Operation, f: Faults) {
    op.RecordProgress? && Found(s, op.id, f) && Answered(s, op.id) && op.payloadValid && op.phase != ""
  }

  /** The event that a call adds to the progress log for a command, if any. */
  function Added(s: Store, call: Call, id: string): seq<Progress> {
    if call.op.id != id || !Reportable(s, call.op, call.faults) || !call.faults.append.Applied() then []
    else
      var reported := if call.op.reportedAt != ZERO_TIME then call.op.reportedAt else call.now;
      [Progress(id, call.op.phase, reported, call.now)]
  }

  /** Progress that is answered with the command has been stored, once, before the command is
      running; an event is stored exactly when the report is one that must be and the append takes
      effect, also when the report is answered with an error. */
  lemma ProgressMeans(definitions: Definitions, s: Store, op: Operation, now: Time, f: Faults)
    requires KeyedByID(s) && op.RecordProgress?
    ensures var (t, reply) := Step(definitions, s, op, now, f);
            && t.progress == s.progress + Added(s, Call(op, now, f), op.id)
            && t.results == s.results
            && (reply.Done? <==> Reportable(s, op, f) && f.append.Works? && f.save.Works?)
            && (t.commands != s.commands ==> Reportable(s, op, f) && f.append.Works? && f.save.Applied())
            && (Reportable(s, op, f) && f.append.Works? && f.save.Applied() ==>
                  && t.commands == s.commands[op.id := s.commands[op.id].(status := Running, updatedAt := now)])
            && (reply.Done? ==> |t.progress| == |s.progress| + 1 && reply == Done(t.commands[op.id], true))
  {}

  lemma OnlyReportsAddProgress(definitions: Definitions, s: Store, op: Operation, now: Time, f: Faults)
    requires KeyedByID(s) && !op.RecordProgress?
    ensures Step(definitions, s, op, now, f).0.progress == s.progress
  {
    hide CountFor, DefinitionFor;
    ProgressOnlyWhileLive(definitions, s, op, now, f);
  }

  /** The events of one command, in order. */
  function ProgressOf(progress: seq<Progress>, id: string): seq<Progress> {
    if progress == [] then [] else
    var last := progress[|progress| - 1];
    ProgressOf(progress[..|progress| - 1], id) + if last.commandID == id then [last] else []
  }

  /** What the calls of a run reported for a command, each report in the state it met. */
  function Reports(definitions: Definitions, strict: bool, calls: seq<Call>, id: string): seq<Progress> {
    if calls == [] then [] else
    var rest := calls[..|calls| - 1];
    Reports(definitions, strict, rest, id) + Added(Run(definitions, strict, rest), calls[|calls| - 1], id)
  }

  lemma ProgressOfExtends(progress: seq<Progress>, p: Progress, id: string)
    ensures ProgressOf(progress + [p], id) == ProgressOf(progress, id) + if p.commandID == id then [p] else []
  {
    assert (progress + [p])[..|progress|] == progress;
  }

  lemma ProgressStep(definitions: Definitions, s: Store, call: Call, id: string)
    requires KeyedByID(s)
    ensures ProgressOf(Step(definitions, s, call.op, call.now, call.faults).0.progress, id) ==
            ProgressOf(s.progress, id) + Added(s, call, id)
  {
    hide Step, ProgressOf;
    if call.op.RecordProgress? {
      ProgressMeans(definitions, s, call.op, call.now, call.faults);
      var added := Added(s, call, call.op.id);
      if added == [] {
        assert s.progress + added == s.progress;
      } else {
        ProgressOfExtends(s.progress, added[0], id);
      }
    } else {
      OnlyReportsAddProgress(definitions, s, call.op, call.now, call.faults);
    }
  }

  /** In any run, whatever fails, the progress stored for a command is what was reported for it
      while it was waiting for its end, report by report, in order, nothing lost and nothing twice. */
  lemma {:induction false} ProgressIsWhatWasReported(definitions: Definitions, strict: bool, calls: seq<Call>,
                                                     id: string)
    ensures ProgressOf(Run(definitions, strict, calls).progress, id) == Reports(definitions, strict, calls, id)
  {
    if calls != [] {
      var rest := calls[..|calls| - 1];
      ProgressIsWhatWasReported(definitions, strict, rest, id);
      RunIsKeyed(definitions, strict, rest);
      ProgressStep(definitions, Run(definitions, strict, rest), calls[|calls| - 1], id);
    }
  }

  // ---------------------------------------------------------------- ends

  /** An end of a command: the result is recorded first, and only when that has worked the command
      is saved with the same status; the answer is the command exactly when both have worked. */
  ghost predicate EndsWith(s: Store, t: Store, reply: Reply, id: string, r: Outcome, now: Time, f: Faults)
    requires id in s.commands
  {
    var recorded := f.record.Applied() && (s.strict ==> CountFor(s.results, id) == 0);
    var saved := recorded && f.record.Works? && f.save.Applied();
    var d := s.commands[id].(status := r.status, terminalAt := Some(now), updatedAt := now);
    && t.strict == s.strict && t.progress == s.progress
    && t.results == (if recorded then s.results + [r] else s.results)
    && t.commands == (if saved then s.commands[id := d] else s.commands)
    && reply == (if saved && f.save.Works? then Done(d, true) else Error)
  }

  lemma CarriesAnEnd(s: Store, d: Decision, id: string, now: Time, f: Faults)
    requires id in s.commands && d.Change? && d.progress.None? && d.result.Some? && !d.late
    requires d.result.value.commandID == id == s.commands[id].commandID
    requires d.command == s.commands[id].(status := d.result.value.status, terminalAt := Some(now), updatedAt := now)
    ensures EndsWith(s, Carry(s, d, f).0, Carry(s, d, f).1, id, d.result.value, now, f)
  {
    hide CountFor;
  }

  /** A result is recorded for an accepted or running command exactly when it is a terminal status
      with a type and a valid payload. */
  lemma ResultMeans(definitions: Definitions, s: Store, op: Operation, now: Time, f: Faults)
    requires KeyedByID(s) && op.RecordResult?
    ensures var (t, reply) := Step(definitions, s, op, now, f);
            var terminal := op.status.Succeeded? || op.status.Failed? || op.status.TimedOut? || op.status.Canceled?;
            if !Found(s, op.id, f) || !Answered(s, op.id) || !terminal || op.resultType == "" || !op.payloadValid
            then t == s && reply == Error
            else
              var finished := if op.finishedAt != ZERO_TIME then op.finishedAt else now;
              var r := Outcome(op.id, op.status, op.resultType, op.reasonCode, finished, now);
              EndsWith(s, t, reply, op.id, r, now, f)
  {
    hide CountFor, Carry, EndsWith, DefinitionFor;
    if Found(s, op.id, f) {
      var d := Decide(definitions, op, s.commands[op.id], now);
      if d.Change? { CarriesAnEnd(s, d, op.id, now, f); }
    }
  }

  /** A command that waits for its end is ended exactly when it is checked after its result
      deadline; any other one is answered unchanged. */
  lemma ResultExpiryMeans(definitions: Definitions, s: Store, id: string, now: Time, f: Faults)
    requires KeyedByID(s)
    ensures var (t, reply) := Step(definitions, s, ExpireResult(id), now, f);
            if !Found(s, id, f) then t == s && reply == Error
            else if !Answered(s, id) || s.commands[id].resultDeadlineAt >= now then
              t == s && reply == Done(s.commands[id], false)
            else
              var r := Outcome(id, TimedOut, s.commands[id].commandType, "result_deadline_exceeded", now, now);
              EndsWith(s, t, reply, id, r, now, f)
  {
    hide CountFor, Carry, EndsWith, DefinitionFor;
    if Found(s, id, f) {
      var d := Decide(definitions, ExpireResult(id), s.commands[id], now);
      if d.Change? { CarriesAnEnd(s, d, id, now, f); }
    }
  }

  /** Any command that has not ended can be canceled, from whatever status. */
  lemma CancelMeans(definitions: Definitions, s: Store, id: string, now: Time, f: Faults)
    requires KeyedByID(s)
    ensures var (t, reply) := Step(definitions, s, Cancel(id), now, f);
            if !Found(s, id, f) || Rank(s.commands[id].status) == 4 then t == s && reply == Error
            else
              EndsWith(s, t, reply, id, Outcome(id, Canceled, s.commands[id].commandType, "canceled", now, now), now, f)
  {
    hide CountFor, Carry, EndsWith, DefinitionFor;
    if Found(s, id, f) {
      var d := Decide(definitions, Cancel(id), s.commands[id], now);
      if d.Change? { CarriesAnEnd(s, d, id, now, f); }
    }
  }
}
