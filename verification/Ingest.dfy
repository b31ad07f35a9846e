/** Telemetry ingest: deduplication by message and by material hash in front of a writer. */
module Ingest {
  import opened Common
  import MaterialHash

  datatype Message = Message(
    deviceID: string, messageID: string, schemaType: string, schemaVersion: int,
    telemetry: bool, material: MaterialHash.Material)

  datatype MessageKey = MessageKey(deviceID: string, messageID: string)
  datatype StateKey = StateKey(deviceID: string, schemaType: string, schemaVersion: int)

  function KeyOf(m: Message): MessageKey {
    MessageKey(m.deviceID, m.messageID)
  }

  function StateOf(m: Message): StateKey {
    StateKey(m.deviceID, m.schemaType, m.schemaVersion)
  }

  datatype Stage = Parsing | Schema | Authority | Dedupe | Persistence

  /** A request after parsing, schema validation and the authority check. */
  datatype Request = Bad(stage: Stage) | Valid(message: Message)

  /** How the calls to the dedupe store, the writer and the failure sink turn out. */
  datatype Faults = Faults(
    seen: bool, lastHash: bool, write: Fault, recordHash: Fault, recordMessage: Fault, sink: bool)

  const NO_FAULTS := Faults(false, false, Works, Works, Works, false)

  datatype Suppression = NotSuppressed | DuplicateMessage | UnchangedMaterial

  datatype Reply = Refused(stage: Stage) | Accepted(written: bool, suppression: Suppression)

  /** The pipeline's parts: the hash of a material, and whether there is a writer and a sink. */
  datatype Setup = Setup(sha256: string -> string, writer: bool, sink: bool)

  ghost function HashOf(p: Setup, m: Message): string {
    p.sha256(MaterialHash.Canonical(m.material))
  }

  datatype State = State(
    seen: set<MessageKey>, hashes: map<StateKey, string>, written: seq<Message>, failures: seq<Stage>)

  const EMPTY := State({}, map[], [], [])

  // ---------------------------------------------------------------- one request

  function Fail(p: Setup, s: State, stage: Stage, f: Faults): (State, Reply) {
    (if p.sink && !f.sink then s.(failures := s.failures + [stage]) else s, Refused(stage))
  }

  function FinishMessage(p: Setup, s: State, m: Message, f: Faults, reply: Reply): (State, Reply) {
    var s1 := if f.recordMessage.Applied() then s.(seen := s.seen + {KeyOf(m)}) else s;
    if f.recordMessage.Reported() then Fail(p, s1, Dedupe, f) else (s1, reply)
  }

  ghost predicate Unchanged(p: Setup, s: State, m: Message, f: Faults) {
    m.telemetry && !f.lastHash && StateOf(m) in s.hashes && s.hashes[StateOf(m)] == HashOf(p, m)
  }

  ghost function Step(p: Setup, s: State, r: Request, f: Faults): (State, Reply) {
    if r.Bad? then Fail(p, s, r.stage, f) else
    var m := r.message;
    if f.seen then Fail(p, s, Dedupe, f) else
    if KeyOf(m) in s.seen then (s, Accepted(false, DuplicateMessage)) else
    if Unchanged(p, s, m, f) then FinishMessage(p, s, m, f, Accepted(false, UnchangedMaterial)) else
    if !p.writer then FinishMessage(p, s, m, f, Accepted(false, NotSuppressed)) else
    var s1 := if f.write.Applied() then s.(written := s.written + [m]) else s;
    if f.write.Reported() then Fail(p, s1, Persistence, f) else
    var s2 := if m.telemetry && f.recordHash.Applied() then s1.(hashes := s1.hashes[StateOf(m) := HashOf(p, m)])
              else s1;
    if m.telemetry && f.recordHash.Reported() then Fail(p, s2, Dedupe, f) else
    FinishMessage(p, s2, m, f, Accepted(true, NotSuppressed))
  }

  // ---------------------------------------------------------------- the objects

  class MemoryDedupeStore {
    var messages: set<MessageKey>
    var materialHashes: map<StateKey, string>

    method SeenMessage(key: MessageKey, fails: bool) returns (seen: Option<bool>)
      ensures seen == if fails then None else Some(key in messages)
    {
      seen := if fails then None else Some(key in messages);
    }

    method RecordMessage(key: MessageKey, f: Fault) returns (ok: bool)
      modifies this`messages
      ensures messages == if f.Applied() then old(messages) + {key} else old(messages)
      ensures ok <==> !f.Reported()
    {
      if f.Applied() {
        messages := messages + {key};
      }
      ok := !f.Reported();
    }

    method LastMaterialHash(key: StateKey, fails: bool) returns (hash: Option<string>)
      ensures hash == if !fails && key in materialHashes then Some(materialHashes[key]) else None
    {
      hash := if !fails && key in materialHashes then Some(materialHashes[key]) else None;
    }

    method RecordMaterialHash(key: StateKey, hash: string, f: Fault) returns (ok: bool)
      modifies this`materialHashes
      ensures materialHashes == if f.Applied() then old(materialHashes)[key := hash] else old(materialHashes)
      ensures ok <==> !f.Reported()
    {
      if f.Applied() {
        materialHashes := materialHashes[key := hash];
      }
      ok := !f.Reported();
    }
  }

  class MemoryWriter {
    var messages: seq<Message>

    method WriteLatest(m: Message, f: Fault) returns (ok: bool)
      modifies this
      ensures messages == if f.Applied() then old(messages) + [m] else old(messages)
      ensures ok <==> !f.Reported()
    {
      if f.Applied() {
        messages := messages + [m];
      }
      ok := !f.Reported();
    }
  }

  class MemoryFailureSink {
    var failures: seq<Stage>

    method RecordFailure(stage: Stage, fails: bool)
      modifies this
      ensures failures == if fails then old(failures) else old(failures) + [stage]
    {
      if !fails {
        failures := failures + [stage];
      }
    }
  }

  class RuntimePipeline {
    const store: MemoryDedupeStore
    const writer: MemoryWriter?
    const sink: MemoryFailureSink?
    const sha256: string -> string

    constructor (store: MemoryDedupeStore, writer: MemoryWriter?, sink: MemoryFailureSink?, sha256: string -> string)
      ensures this.store == store && this.writer == writer && this.sink == sink && this.sha256 == sha256
    {
      this.store, this.writer, this.sink, this.sha256 := store, writer, sink, sha256;
    }

    ghost function Parts(): Setup {
      Setup(sha256, writer != null, sink != null)
    }

    ghost function View(): State
      reads store, writer, sink
    {
      State(store.messages, store.materialHashes,
            if writer == null then [] else writer.messages,
            if sink == null then [] else sink.failures)
    }

    method RecordFailure(stage: Stage, f: Faults) returns (reply: Reply)
      modifies sink
      ensures (View(), reply) == Fail(Parts(), old(View()), stage, f)
    {
      if sink != null {
        sink.RecordFailure(stage, f.sink);
      }
      reply := Refused(stage);
    }

    method ShouldSuppressUnchangedTelemetry(m: Message, hash: string, f: Faults) returns (suppress: bool)
      requires hash == HashOf(Parts(), m)
      ensures suppress <==> Unchanged(Parts(), View(), m, f)
    {
      if !m.telemetry {
        return false;
      }
      var previous := store.LastMaterialHash(StateOf(m), f.lastHash);
      suppress := previous == Some(hash);
    }

    method Ingest(r: Request, f: Faults) returns (reply: Reply)
      modifies store, writer, sink
      ensures (View(), reply) == Step(Parts(), old(View()), r, f)
    {
      if r.Bad? {
        reply := RecordFailure(r.stage, f);
        return;
      }
      var m := r.message;
      var hash := MaterialHash.Hash(m.material, sha256);
      var seen := store.SeenMessage(KeyOf(m), f.seen);
      if seen.None? {
        reply := RecordFailure(Dedupe, f);
        return;
      }
      if seen.value {
        return Accepted(false, DuplicateMessage);
      }
      var written, suppression := false, NotSuppressed;
      var suppress := ShouldSuppressUnchangedTelemetry(m, hash, f);
      if suppress {
        suppression := UnchangedMaterial;
      } else if writer != null {
        var ok := writer.WriteLatest(m, f.write);
        if !ok {
          reply := RecordFailure(Persistence, f);
          return;
        }
        written := true;
        if m.telemetry {
          ok := store.RecordMaterialHash(StateOf(m), hash, f.recordHash);
          if !ok {
            reply := RecordFailure(Dedupe, f);
            return;
          }
        }
      }
      var ok := store.RecordMessage(KeyOf(m), f.recordMessage);
      if !ok {
        reply := RecordFailure(Dedupe, f);
        return;
      }
      reply := Accepted(written, suppression);
    }
  }
}
