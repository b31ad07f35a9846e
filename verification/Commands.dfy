/** The lifecycle of a cloud command: its status, its deadlines and the log of terminal results. */
module Commands {
  import opened Common

  datatype Status =
    | Queued | Sent | AckAccepted | AckRejected | AckTimedOut | Running
    | Succeeded | Failed | TimedOut | Canceled

  predicate Terminal(s: Status) {
    s.Succeeded? || s.Failed? || s.TimedOut? || s.Canceled?
  }

  datatype Definition = Definition(ackWindow: int, resultWindow: int)

  const SECOND := 1_000_000_000
  const MINUTE := 60 * SECOND

  const DEFAULT_DEFINITIONS: map<string, Definition> := map[
    "refresh_publish_policy" := Definition(15 * SECOND, MINUTE),
    "trigger_backup" := Definition(15 * SECOND, 30 * MINUTE),
    "upload_artifact" := Definition(15 * SECOND, 30 * MINUTE),
    "enable_debug_capture" := Definition(15 * SECOND, 5 * MINUTE),
    "disable_debug_capture" := Definition(15 * SECOND, 5 * MINUTE),
    "collect_debug_snapshot" := Definition(15 * SECOND, 10 * MINUTE),
    "request_debug_bundle" := Definition(15 * SECOND, 30 * MINUTE),
    "check_update_status" := Definition(15 * SECOND, 2 * MINUTE),
    "repair_update_state" := Definition(15 * SECOND, 5 * MINUTE)]

  datatype Command = Command(
    commandID: string,
    accountID: string,
    siteID: string,
    deviceID: string,
    commandType: string,
    status: Status,
    ackDeadlineAt: Time,
    resultDeadlineAt: Time,
    queuedAt: Time,
    sentAt: Option<Time>,
    ackedAt: Option<Time>,
    terminalAt: Option<Time>,
    updatedAt: Time)

  datatype Progress = Progress(commandID: string, phase: string, reportedAt: Time, receivedAt: Time)

  datatype Outcome = Outcome(
    commandID: string, status: Status, resultType: string, reasonCode: string, finishedAt: Time, receivedAt: Time)

  /** What the repository holds. A strict one refuses a second result for a command, as the
      unique index on command_results does. */
  datatype Store = Store(strict: bool, commands: map<string, Command>, progress: seq<Progress>, results: seq<Outcome>)

  datatype Operation =
    | Create(id: string, accountID: string, siteID: string, deviceID: string, commandType: string, payloadValid: bool)
    | MarkSent(id: string)
    | RecordAck(id: string, accepted: bool, reportedAt: Time)
    | ExpireMissingAck(id: string)
    | RecordProgress(id: string, phase: string, payloadValid: bool, reportedAt: Time)
    | RecordResult(id: string, status: Status, resultType: string, reasonCode: string, payloadValid: bool,
                   finishedAt: Time)
    | ExpireResult(id: string)
    | Cancel(id: string)

  /** How the repository's calls turn out. */
  datatype Faults = Faults(get: bool, create: Fault, save: Fault, append: Fault, record: Fault)

  const RELIABLE := Faults(false, Works, Works, Works, Works)

  datatype Reply = Error | Done(command: Command, changed: bool)

  function DefinitionFor(definitions: map<string, Definition>, commandType: string): Option<Definition> {
    if commandType !in definitions then None else
    var d := definitions[commandType];
    if d.ackWindow <= 0 || d.resultWindow <= d.ackWindow then None else Some(d)
  }

  predicate ValidNew(c: Command) {
    && c.commandID != "" && c.accountID != "" && c.siteID != "" && c.deviceID != "" && c.commandType != ""
    && c.status == Queued
    && c.ackDeadlineAt != ZERO_TIME
    && c.resultDeadlineAt != ZERO_TIME && c.ackDeadlineAt < c.resultDeadlineAt
  }

  function NewCommand(op: Operation, d: Definition, now: Time): Command
    requires op.Create?
  {
    Command(op.id, op.accountID, op.siteID, op.deviceID, op.commandType, Queued,
            now + d.ackWindow, now + d.resultWindow, now, None, None, None, now)
  }

  function Reported(at: Time, now: Time): Time {
    if at == ZERO_TIME then now else at
  }

  function CountFor(results: seq<Outcome>, id: string): nat {
    if results == [] then 0
    else CountFor(results[..|results| - 1], id) + (if results[|results| - 1].commandID == id then 1 else 0)
  }

  // ---------------------------------------------------------------- one operation

  /** What an operation decides about a loaded command: an error, no change, or a change that
      may first append progress or record a result. `late` is the error of an ack that came
      after its deadline: the command is changed and an error is returned. */
  datatype Decision =
    | Reject
    | Keep
    | Change(command: Command, progress: Option<Progress>, result: Option<Outcome>, late: bool)

  function Finish(c: Command, status: Status, now: Time): Command {
    c.(status := status, terminalAt := Some(now), updatedAt := now)
  }

  function Decide(definitions: map<string, Definition>, op: Operation, c: Command, now: Time): Decision
    requires !op.Create?
  {
    match op
    case MarkSent(_) =>
      if c.status != Queued then Reject else
      var d := DefinitionFor(definitions, c.commandType);
      if d.None? then Reject
      else Change(c.(status := Sent, sentAt := Some(now), ackDeadlineAt := now + d.value.ackWindow, updatedAt := now),
                  None, None, false)
    case RecordAck(_, accepted, reportedAt) =>
      if c.status != Sent then Reject
      else if now > c.ackDeadlineAt then Change(c.(status := AckTimedOut, updatedAt := now), None, None, true)
      else Change(c.(status := if accepted then AckAccepted else AckRejected,
                     ackedAt := Some(Reported(reportedAt, now)), updatedAt := now), None, None, false)
    case ExpireMissingAck(_) =>
      if c.status != Sent || now <= c.ackDeadlineAt then Keep
      else Change(c.(status := AckTimedOut, updatedAt := now), None, None, false)
    case RecordProgress(_, phase, payloadValid, reportedAt) =>
      if (c.status != AckAccepted && c.status != Running) || !payloadValid || phase == "" then Reject
      else Change(c.(status := Running, updatedAt := now),
                  Some(Progress(c.commandID, phase, Reported(reportedAt, now), now)), None, false)
    case RecordResult(_, status, resultType, reasonCode, payloadValid, finishedAt) =>
      if (c.status != AckAccepted && c.status != Running)
         || !Terminal(status) || resultType == "" || !payloadValid then Reject
      else Change(Finish(c, status, now), None,
                  Some(Outcome(c.commandID, status, resultType, reasonCode, Reported(finishedAt, now), now)), false)
    case ExpireResult(_) =>
      if (c.status != AckAccepted && c.status != Running) || now <= c.resultDeadlineAt then Keep
      else Change(Finish(c, TimedOut, now), None,
                  Some(Outcome(c.commandID, TimedOut, c.commandType, "result_deadline_exceeded", now, now)), false)
    case Cancel(_) =>
      if Terminal(c.status) then Reject
      else Change(Finish(c, Canceled, now), None,
                  Some(Outcome(c.commandID, Canceled, c.commandType, "canceled", now, now)), false)
  }

  function TryCreate(s: Store, c: Command, f: Fault): (Store, bool) {
    if c.commandID in s.commands || !f.Applied() then (s, false)
    else (s.(commands := s.commands[c.commandID := c]), !f.Reported())
  }

  function TrySave(s: Store, c: Command, f: Fault): (Store, bool) {
    if c.commandID !in s.commands || !f.Applied() then (s, false)
    else (s.(commands := s.commands[c.commandID := c]), !f.Reported())
  }

  function TryAppend(s: Store, p: Progress, f: Fault): (Store, bool) {
    if !f.Applied() then (s, false) else (s.(progress := s.progress + [p]), !f.Reported())
  }

  function TryRecord(s: Store, r: Outcome, f: Fault): (Store, bool) {
    if (s.strict && CountFor(s.results, r.commandID) > 0) || !f.Applied() then (s, false)
    else (s.(results := s.results + [r]), !f.Reported())
  }

  function Carry(s: Store, d: Decision, f: Faults): (Store, Reply)
    requires d.Change?
  {
    var (s1, appended) := if d.progress.Some? then TryAppend(s, d.progress.value, f.append) else (s, true);
    if !appended then (s1, Error) else
    var (s2, recorded) := if d.result.Some? then TryRecord(s1, d.result.value, f.record) else (s1, true);
    if !recorded then (s2, Error) else
    var (s3, saved) := TrySave(s2, d.command, f.save);
    (s3, if saved && !d.late then Done(d.command, true) else Error)
  }

  function Step(definitions: map<string, Definition>, s: Store, op: Operation, now: Time, f: Faults): (Store, Reply) {
    if op.Create? then
      var d := DefinitionFor(definitions, op.commandType);
      if d.None? || op.id == "" || !op.payloadValid then (s, Error) else
      var c := NewCommand(op, d.value, now);
      if !ValidNew(c) then (s, Error) else
      var (s1, created) := TryCreate(s, c, f.create);
      (s1, if created then Done(c, true) else Error)
    else if op.id == "" || f.get || op.id !in s.commands then (s, Error)
    else
      var c := s.commands[op.id];
      match Decide(definitions, op, c, now)
      case Reject => (s, Error)
      case Keep => (s, Done(c, false))
      case Change(c', p, r, late) => Carry(s, Change(c', p, r, late), f)
  }

  // ---------------------------------------------------------------- the objects

  class Repository {
    const strict: bool
    var commands: map<string, Command>
    var progress: seq<Progress>
    var results: seq<Outcome>

    ghost function View(): Store
      reads this
    {
      Store(strict, commands, progress, results)
    }

    constructor (strict: bool)
      ensures View() == Store(strict, map[], [], [])
    {
      this.strict, commands, progress, results := strict, map[], [], [];
    }

    method CreateCommand(c: Command, f: Fault) returns (ok: bool)
      modifies this
      ensures (View(), ok) == TryCreate(old(View()), c, f)
    {
      if c.commandID in commands || !f.Applied() {
        return false;
      }
      commands := commands[c.commandID := c];
      ok := !f.Reported();
    }

    method GetCommand(id: string, fails: bool) returns (c: Option<Command>)
      ensures c == if !fails && id in commands then Some(commands[id]) else None
    {
      c := if !fails && id in commands then Some(commands[id]) else None;
    }

    method SaveCommand(c: Command, f: Fault) returns (ok: bool)
      modifies this
      ensures (View(), ok) == TrySave(old(View()), c, f)
    {
      if c.commandID !in commands || !f.Applied() {
        return false;
      }
      commands := commands[c.commandID := c];
      ok := !f.Reported();
    }

    method AppendProgressEvent(p: Progress, f: Fault) returns (ok: bool)
      modifies this
      ensures (View(), ok) == TryAppend(old(View()), p, f)
    {
      if !f.Applied() {
        return false;
      }
      progress := progress + [p];
      ok := !f.Reported();
    }

    method RecordResult(r: Outcome, f: Fault) returns (ok: bool)
      modifies this
      ensures (View(), ok) == TryRecord(old(View()), r, f)
    {
      if strict {
        for i := 0 to |results|
          invariant CountFor(results[..i], r.commandID) == 0
          invariant View() == old(View())
        {
          assert results[..i + 1][..i] == results[..i];
          if results[i].commandID == r.commandID {
            CountGrows(results, i + 1, r.commandID);
            return false;
          }
        }
        assert results[..|results|] == results;
      }
      if !f.Applied() {
        return false;
      }
      results := results + [r];
      ok := !f.Reported();
    }
  }

  lemma {:induction false} CountGrows(results: seq<Outcome>, n: nat, id: string)
    requires n <= |results|
    ensures CountFor(results[..n], id) <= CountFor(results, id)
    decreases |results|
  {
    if n < |results| {
      CountGrows(results[..|results| - 1], n, id);
      assert results[..|results| - 1][..n] == results[..n];
    } else {
      assert results[..n] == results;
    }
  }

  class Service {
    const repository: Repository
    const definitions: map<string, Definition>

    constructor (repository: Repository, definitions: map<string, Definition>)
      ensures this.repository == repository && this.definitions == definitions
    {
      this.repository, this.definitions := repository, definitions;
    }

    method CreateCommand(op: Operation, now: Time, f: Faults) returns (reply: Reply)
      requires op.Create?
      modifies repository
      ensures (repository.View(), reply) == Step(definitions, old(repository.View()), op, now, f)
    {
      var d := DefinitionFor(definitions, op.commandType);
      if d.None? || op.id == "" || !op.payloadValid {
        return Error;
      }
      var c := NewCommand(op, d.value, now);
      if !ValidNew(c) {
        return Error;
      }
      var ok := repository.CreateCommand(c, f.create);
      reply := if ok then Done(c, true) else Error;
    }

    method Load(id: string, f: Faults) returns (c: Option<Command>)
      ensures c == if id != "" && !f.get && id in repository.commands then Some(repository.commands[id]) else None
    {
      if id == "" {
        return None;
      }
      c := repository.GetCommand(id, f.get);
    }

    method MarkCommandSent(id: string, now: Time, f: Faults) returns (reply: Reply)
      modifies repository
      ensures (repository.View(), reply) == Step(definitions, old(repository.View()), MarkSent(id), now, f)
    {
      var loaded := Load(id, f);
      if loaded.None? || loaded.value.status != Queued {
        return Error;
      }
      var command := loaded.value;
      var d := DefinitionFor(definitions, command.commandType);
      if d.None? {
        return Error;
      }
      command := command.(status := Sent, sentAt := Some(now));
      command := command.(ackDeadlineAt := now + d.value.ackWindow, updatedAt := now);
      var ok := repository.SaveCommand(command, f.save);
      reply := if ok then Done(command, true) else Error;
    }

    method RecordCommandAck(id: string, accepted: bool, reportedAt: Time, now: Time, f: Faults) returns (reply: Reply)
      modifies repository
      ensures (repository.View(), reply) ==
              Step(definitions, old(repository.View()), RecordAck(id, accepted, reportedAt), now, f)
    {
      var loaded := Load(id, f);
      if loaded.None? || loaded.value.status != Sent {
        return Error;
      }
      var command := loaded.value;
      if now > command.ackDeadlineAt {
        command := command.(status := AckTimedOut, updatedAt := now);
        var _ := repository.SaveCommand(command, f.save);
        return Error;
      }
      command := command.(ackedAt := Some(if reportedAt == ZERO_TIME then now else reportedAt));
      if accepted {
        command := command.(status := AckAccepted);
      } else {
        command := command.(status := AckRejected);
      }
      command := command.(updatedAt := now);
      var ok := repository.SaveCommand(command, f.save);
      reply := if ok then Done(command, true) else Error;
    }

    method ExpireMissingCommandAck(id: string, now: Time, f: Faults) returns (reply: Reply)
      modifies repository
      ensures (repository.View(), reply) == Step(definitions, old(repository.View()), ExpireMissingAck(id), now, f)
    {
      var loaded := Load(id, f);
      if loaded.None? {
        return Error;
      }
      var command := loaded.value;
      if command.status != Sent || now <= command.ackDeadlineAt {
        return Done(command, false);
      }
      command := command.(status := AckTimedOut, updatedAt := now);
      var ok := repository.SaveCommand(command, f.save);
      reply := if ok then Done(command, true) else Error;
    }

    method RecordCommandProgress(id: string, phase: string, payloadValid: bool, reportedAt: Time, now: Time, f: Faults)
      returns (reply: Reply)
      modifies repository
      ensures (repository.View(), reply) ==
              Step(definitions, old(repository.View()), RecordProgress(id, phase, payloadValid, reportedAt), now, f)
      ensures reply.Done? ==>
                var reported := if reportedAt != ZERO_TIME then reportedAt else now;
                && id in old(repository.commands)
                && repository.progress == old(repository.progress) +
                                          [Progress(old(repository.commands)[id].commandID, phase, reported, now)]
    {
      var loaded := Load(id, f);
      if loaded.None? {
        return Error;
      }
      var command := loaded.value;
      if command.status != AckAccepted && command.status != Running {
        return Error;
      }
      if !payloadValid || phase == "" {
        return Error;
      }
      var event := Progress(command.commandID, phase, if reportedAt == ZERO_TIME then now else reportedAt, now);
      var ok := repository.AppendProgressEvent(event, f.append);
      if !ok {
        return Error;
      }
      command := command.(status := Running, updatedAt := now);
      ok := repository.SaveCommand(command, f.save);
      reply := if ok then Done(command, true) else Error;
    }

    method RecordCommandResult(id: string, status: Status, resultType: string, reasonCode: string, payloadValid: bool,
                               finishedAt: Time, now: Time, f: Faults)
      returns (reply: Reply)
      modifies repository
      ensures (repository.View(), reply) ==
              Step(definitions, old(repository.View()),
                   RecordResult(id, status, resultType, reasonCode, payloadValid, finishedAt), now, f)
    {
      var loaded := Load(id, f);
      if loaded.None? {
        return Error;
      }
      var command := loaded.value;
      if command.status != AckAccepted && command.status != Running {
        return Error;
      }
      if !Terminal(status) || resultType == "" || !payloadValid {
        return Error;
      }
      var finished := if finishedAt == ZERO_TIME then now else finishedAt;
      var result := Outcome(command.commandID, status, resultType, reasonCode, finished, now);
      var ok := repository.RecordResult(result, f.record);
      if !ok {
        return Error;
      }
      command := command.(status := status, terminalAt := Some(now), updatedAt := now);
      ok := repository.SaveCommand(command, f.save);
      reply := if ok then Done(command, true) else Error;
    }

    method ExpireCommandResult(id: string, now: Time, f: Faults) returns (reply: Reply)
      modifies repository
      ensures (repository.View(), reply) == Step(definitions, old(repository.View()), ExpireResult(id), now, f)
    {
      var loaded := Load(id, f);
      if loaded.None? {
        return Error;
      }
      var command := loaded.value;
      if command.status != AckAccepted && command.status != Running {
        return Done(command, false);
      }
      if now <= command.resultDeadlineAt {
        return Done(command, false);
      }
      var result := Outcome(command.commandID, TimedOut, command.commandType, "result_deadline_exceeded", now, now);
      var ok := repository.RecordResult(result, f.record);
      if !ok {
        return Error;
      }
      command := command.(status := TimedOut, terminalAt := Some(now), updatedAt := now);
      ok := repository.SaveCommand(command, f.save);
      reply := if ok then Done(command, true) else Error;
    }

    method CancelCommand(id: string, now: Time, f: Faults) returns (reply: Reply)
      modifies repository
      ensures (repository.View(), reply) == Step(definitions, old(repository.View()), Cancel(id), now, f)
    {
      var loaded := Load(id, f);
      if loaded.None? || Terminal(loaded.value.status) {
        return Error;
      }
      var command := loaded.value;
      command := command.(status := Canceled, terminalAt := Some(now), updatedAt := now);
      var result := Outcome(command.commandID, Canceled, command.commandType, "canceled", now, now);
      var ok := repository.RecordResult(result, f.record);
      if !ok {
        return Error;
      }
      ok := repository.SaveCommand(command, f.save);
      reply := if ok then Done(command, true) else Error;
    }
  }
}
