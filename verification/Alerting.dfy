/** Alert folding: candidates are folded into at most one active alert for each alert key. */
module Alerting {
  import opened Common

  datatype Family = DeviceDisconnected | BackupFailed | BackupOverdue | AppUpdateAttention | OtherFamily(name: string)
  datatype Severity = Critical | Warning | Info | OtherSeverity(name: string)
  datatype Status = Active | Resolved
  datatype EventType = Created | Updated | ResolvedEvent | Acknowledged | Snoozed

  datatype Candidate = Candidate(
    candidateID: string, eventType: string, accountID: string, siteID: string, deviceID: string, source: string,
    occurredAt: Time, jsonValid: bool)

  datatype Verification = Verification(
    healthy: bool, alertKey: string, family: Family, severity: Severity, title: string, detail: string,
    reasonCode: string, metadataValid: bool)

  datatype Alert = Alert(
    alertID: string, alertKey: string, accountID: string, siteID: string, deviceID: string,
    family: Family, severity: Severity, status: Status, title: string, detail: string, reasonCode: string,
    firstCandidateID: string, lastCandidateID: string, occurrenceCount: int,
    acknowledgedBy: string, acknowledgedAt: Option<Time>, snoozedUntil: Option<Time>, resolvedAt: Option<Time>,
    updatedAt: Time)

  datatype AlertEvent = AlertEvent(
    alertID: string, candidateID: string, eventType: EventType, actorType: string, actorID: string, occurredAt: Time)

  /** What the repository holds; `active` is its index of alerts by key where the status is active. */
  datatype Store = Store(
    candidates: set<string>, alerts: map<string, Alert>, active: map<string, string>, events: seq<AlertEvent>)

  datatype Operation =
    | Intake(candidate: Candidate, verification: Option<Verification>, newID: string)
    | Acknowledge(id: string, actorType: string, actorID: string)
    | Snooze(id: string, until: Time, actorType: string, actorID: string)
    | Resolve(id: string, reasonCode: string, actorType: string, actorID: string)

  datatype Reply = Error | Duplicate | Ignored | Folded(alert: Alert, resolved: bool) | Acted(alert: Alert)

  // ---------------------------------------------------------------- validation

  predicate ValidCandidate(c: Candidate) {
    && c.candidateID != "" && c.eventType != "" && c.accountID != "" && c.siteID != "" && c.source != ""
    && c.occurredAt != ZERO_TIME && c.jsonValid
  }

  predicate ValidVerification(v: Verification) {
    && v.alertKey != ""
    && (v.healthy ||
        (v.family != OtherFamily("") && v.severity != OtherSeverity("") && v.title != "" && v.detail != ""
            && v.metadataValid))
  }

  predicate ValidAlert(a: Alert) {
    && a.alertID != "" && a.alertKey != "" && a.accountID != "" && a.siteID != ""
    && !a.family.OtherFamily? && !a.severity.OtherSeverity?
    && a.title != "" && a.detail != "" && a.reasonCode != "" && a.occurrenceCount > 0
  }

  function OrSystem(s: string): string {
    if s == "" then "system" else s
  }

  // ---------------------------------------------------------------- the repository

  function ActiveByKey(s: Store, key: string): Option<Alert> {
    if key in s.active && s.active[key] in s.alerts && s.alerts[s.active[key]].status == Active
    then Some(s.alerts[s.active[key]]) else None
  }

  function Saved(s: Store, a: Alert): Store {
    s.(alerts := s.alerts[a.alertID := a],
    active := if a.status == Active then s.active[a.alertKey := a.alertID]
              else if a.alertKey in s.active && s.active[a.alertKey] == a.alertID then s.active - {a.alertKey}
              else s.active)
  }

  function WithEvent(s: Store, id: string, candidateID: string, t: EventType, actorType: string,
      actorID: string, now: Time): Store {
    s.(events := s.events + [AlertEvent(id, candidateID, t, OrSystem(actorType), OrSystem(actorID), now)])
  }

  // ---------------------------------------------------------------- operations

  function NewAlert(c: Candidate, v: Verification, id: string, now: Time): Alert {
    Alert(id, v.alertKey, c.accountID, c.siteID, c.deviceID, v.family, v.severity, Active, v.title, v.detail,
          v.reasonCode, c.candidateID, c.candidateID, 1, "", None, None, None, now)
  }

  function CreateAlert(s: Store, c: Candidate, v: Verification, id: string, now: Time): (Store, Reply) {
    var a := NewAlert(c, v, id, now);
    if id == "" || !ValidAlert(a) || id in s.alerts then (s, Error)
    else (WithEvent(Saved(s, a), id, c.candidateID, Created, "system", "system", now), Folded(a, false))
  }

  function UpdatedAlert(a: Alert, c: Candidate, v: Verification, now: Time): Alert {
    a.(severity := v.severity, title := v.title, detail := v.detail, reasonCode := v.reasonCode,
    lastCandidateID := c.candidateID, occurrenceCount := a.occurrenceCount + 1, updatedAt := now)
  }

  function ResolvedAlert(a: Alert, candidateID: string, reasonCode: string, now: Time): Alert {
    a.(status := Resolved, resolvedAt := Some(now), updatedAt := now,
    lastCandidateID := if candidateID != "" then candidateID else a.lastCandidateID,
    reasonCode := if reasonCode != "" then reasonCode else a.reasonCode)
  }

  function ResolveAlert(s: Store, a: Alert, candidateID: string, reasonCode: string, actorType: string, actorID: string,
                        now: Time): (Store, Alert) {
    if a.status == Resolved then (s, a) else
    var r := ResolvedAlert(a, candidateID, reasonCode, now);
    (WithEvent(Saved(s, r), a.alertID, candidateID, ResolvedEvent, actorType, actorID, now), r)
  }

  function IntakeCandidate(s: Store, c: Candidate, verification: Option<Verification>, newID: string,
      now: Time): (Store, Reply) {
    if !ValidCandidate(c) then (s, Error) else
    if c.candidateID in s.candidates then (s, Duplicate) else
    var s1 := s.(candidates := s.candidates + {c.candidateID});
    if verification.None? || !ValidVerification(verification.value) then (s1, Error) else
    var v := verification.value;
    var active := ActiveByKey(s1, v.alertKey);
    if v.healthy then
      if active.None? then (s1, Ignored) else
      var (s2, r) := ResolveAlert(s1, active.value, c.candidateID, "candidate_recovered", "system", "system", now);
      (s2, Folded(r, true))
    else if active.None? then CreateAlert(s1, c, v, newID, now)
    else
      var a := UpdatedAlert(active.value, c, v, now);
      (WithEvent(Saved(s1, a), a.alertID, c.candidateID, Updated, "system", "system", now), Folded(a, false))
  }

  function Step(s: Store, op: Operation, now: Time): (Store, Reply) {
    if op.Intake? then IntakeCandidate(s, op.candidate, op.verification, op.newID, now) else
    if op.id == "" || op.id !in s.alerts then (s, Error) else
    var a := s.alerts[op.id];
    match op
    case Acknowledge(id, actorType, actorID) =>
      var b := a.(acknowledgedAt := Some(now), acknowledgedBy := actorID, updatedAt := now);
      (WithEvent(Saved(s, b), a.alertID, "", Acknowledged, actorType, actorID, now), Acted(b))
    case Snooze(id, until, actorType, actorID) =>
      if until <= now then (s, Error) else
      var b := a.(snoozedUntil := Some(until), updatedAt := now);
      (WithEvent(Saved(s, b), a.alertID, "", Snoozed, actorType, actorID, now), Acted(b))
    case Resolve(id, reasonCode, actorType, actorID) =>
      var (t, r) := ResolveAlert(s, a, "", reasonCode, actorType, actorID, now);
      (t, Acted(r))
  }

  // ---------------------------------------------------------------- the objects

  class Repository {
    var candidates: set<string>
    var alerts: map<string, Alert>
    var activeByKey: map<string, string>
    var events: seq<AlertEvent>

    ghost function View(): Store
      reads this
    {
      Store(candidates, alerts, activeByKey, events)
    }

    constructor ()
      ensures View() == Store({}, map[], map[], [])
    {
      candidates, alerts, activeByKey, events := {}, map[], map[], [];
    }

    method TryRecordCandidate(id: string) returns (recorded: bool)
      modifies this`candidates
      ensures recorded <==> id !in old(candidates)
      ensures candidates == old(candidates) + {id}
    {
      recorded := id !in candidates;
      candidates := candidates + {id};
    }

    method GetActiveAlertByKey(key: string) returns (a: Option<Alert>)
      ensures a == ActiveByKey(View(), key)
    {
      if key !in activeByKey || activeByKey[key] !in alerts {
        return None;
      }
      var alert := alerts[activeByKey[key]];
      a := if alert.status != Active then None else Some(alert);
    }

    method InsertAlert(a: Alert) returns (ok: bool)
      requires a.status == Active
      modifies this`alerts, this`activeByKey
      ensures ok <==> a.alertID !in old(alerts)
      ensures View() == if ok then Saved(old(View()), a) else old(View())
    {
      if a.alertID in alerts {
        return false;
      }
      alerts := alerts[a.alertID := a];
      activeByKey := activeByKey[a.alertKey := a.alertID];
      ok := true;
    }

    method SaveAlert(a: Alert)
      modifies this`alerts, this`activeByKey
      ensures View() == Saved(old(View()), a)
    {
      alerts := alerts[a.alertID := a];
      if a.status == Active {
        activeByKey := activeByKey[a.alertKey := a.alertID];
      } else if a.alertKey in activeByKey && activeByKey[a.alertKey] == a.alertID {
        activeByKey := activeByKey - {a.alertKey};
      }
    }

    method RecordAlertEvent(e: AlertEvent)
      modifies this`events
      ensures events == old(events) + [e]
    {
      events := events + [e];
    }
  }

  class Service {
    const repository: Repository

    constructor (repository: Repository)
      ensures this.repository == repository
    {
      this.repository := repository;
    }

    method RecordEvent(a: Alert, candidateID: string, t: EventType, actorType: string, actorID: string, now: Time)
      modifies repository`events
      ensures repository.View() == WithEvent(old(repository.View()), a.alertID, candidateID, t, actorType, actorID, now)
    {
      repository.RecordAlertEvent(AlertEvent(a.alertID, candidateID, t, OrSystem(actorType), OrSystem(actorID), now));
    }

    method Intake(c: Candidate, verification: Option<Verification>, newID: string, now: Time) returns (reply: Reply)
      modifies repository
      ensures (repository.View(), reply) == IntakeCandidate(old(repository.View()), c, verification, newID, now)
    {
      if !ValidCandidate(c) {
        return Error;
      }
      var recorded := repository.TryRecordCandidate(c.candidateID);
      if !recorded {
        assert repository.View() == old(repository.View());
        return Duplicate;
      }
      if verification.None? || !ValidVerification(verification.value) {
        return Error;
      }
      var v := verification.value;
      var active := repository.GetActiveAlertByKey(v.alertKey);
      if v.healthy {
        if active.None? {
          return Ignored;
        }
        var resolved := ResolveOne(active.value, c.candidateID, "candidate_recovered", "system", "system", now);
        return Folded(resolved, true);
      }
      if active.None? {
        reply := CreateOne(c, v, newID, now);
        return;
      }
      var alert := active.value;
      alert := alert.(severity := v.severity, title := v.title, detail := v.detail, reasonCode := v.reasonCode);
      alert := alert.(lastCandidateID := c.candidateID, occurrenceCount := alert.occurrenceCount + 1, updatedAt := now);
      repository.SaveAlert(alert);
      RecordEvent(alert, c.candidateID, Updated, "system", "system", now);
      reply := Folded(alert, false);
    }

    method CreateOne(c: Candidate, v: Verification, newID: string, now: Time) returns (reply: Reply)
      modifies repository
      ensures (repository.View(), reply) == CreateAlert(old(repository.View()), c, v, newID, now)
    {
      if newID == "" {
        return Error;
      }
      var alert := NewAlert(c, v, newID, now);
      if !ValidAlert(alert) {
        return Error;
      }
      var ok := repository.InsertAlert(alert);
      if !ok {
        return Error;
      }
      RecordEvent(alert, c.candidateID, Created, "system", "system", now);
      reply := Folded(alert, false);
    }

    method ResolveOne(alert: Alert, candidateID: string, reasonCode: string, actorType: string, actorID: string,
                      now: Time)
      returns (resolved: Alert)
      modifies repository
      ensures (repository.View(), resolved) ==
              ResolveAlert(old(repository.View()), alert, candidateID, reasonCode, actorType, actorID, now)
    {
      if alert.status == Resolved {
        return alert;
      }
      resolved := alert.(status := Resolved, resolvedAt := Some(now), updatedAt := now);
      if candidateID != "" {
        resolved := resolved.(lastCandidateID := candidateID);
      }
      if reasonCode != "" {
        resolved := resolved.(reasonCode := reasonCode);
      }
      repository.SaveAlert(resolved);
      RecordEvent(resolved, candidateID, ResolvedEvent, actorType, actorID, now);
    }

    method Act(op: Operation, now: Time) returns (reply: Reply)
      requires !op.Intake?
      modifies repository
      ensures (repository.View(), reply) == Step(old(repository.View()), op, now)
    {
      if op.id == "" || op.id !in repository.alerts {
        return Error;
      }
      var alert := repository.alerts[op.id];
      match op {
        case Acknowledge(_, actorType, actorID) =>
          alert := alert.(acknowledgedAt := Some(now), acknowledgedBy := actorID);
          alert := alert.(updatedAt := now);
          repository.SaveAlert(alert);
          RecordEvent(alert, "", Acknowledged, actorType, actorID, now);
        case Snooze(_, until, actorType, actorID) =>
          if until <= now {
            return Error;
          }
          alert := alert.(snoozedUntil := Some(until), updatedAt := now);
          repository.SaveAlert(alert);
          RecordEvent(alert, "", Snoozed, actorType, actorID, now);
        case Resolve(_, reasonCode, actorType, actorID) =>
          alert := ResolveOne(alert, "", reasonCode, actorType, actorID, now);
      }
      reply := Acted(alert);
    }
  }

  // ---------------------------------------------------------------- what every run keeps

  function CountOf(events: seq<AlertEvent>, id: string, t: EventType): nat {
    if events == [] then 0
    else
      var last := events[|events| - 1];
      CountOf(events[..|events| - 1], id, t) + (if last.alertID == id && last.eventType == t then 1 else 0)
  }

  /** The index names exactly the active alerts. */
  predicate IndexExact(s: Store) {
    && (forall id :: id in s.alerts ==> s.alerts[id].alertID == id && id != "")
    && (forall key :: key in s.active ==>
          s.active[key] in s.alerts
          && s.alerts[s.active[key]].status == Active && s.alerts[s.active[key]].alertKey == key)
    && (forall id :: id in s.alerts && s.alerts[id].status == Active ==>
          s.alerts[id].alertKey in s.active && s.active[s.alerts[id].alertKey] == id)
  }

  /** The events tell the count and the status of every alert. */
  predicate EventsTell(s: Store, id: string) {
    if id !in s.alerts then forall t :: CountOf(s.events, id, t) == 0 else
    var a := s.alerts[id];
    && a.occurrenceCount == CountOf(s.events, id, Created) + CountOf(s.events, id, Updated)
    && CountOf(s.events, id, Created) == 1
    && CountOf(s.events, id, ResolvedEvent) == (if a.status == Resolved then 1 else 0)
    && (a.status == Resolved <==> a.resolvedAt.Some?)
  }

  predicate CandidatesOnce(s: Store) {
    && (forall i :: 0 <= i < |s.events| && s.events[i].candidateID != "" ==> s.events[i].candidateID in s.candidates)
    && (forall i, j :: 0 <= i < j < |s.events| && s.events[i].candidateID != "" ==>
          s.events[i].candidateID != s.events[j].candidateID)
  }

  /** What one operation may do to an alert. */
  predicate AlertAdvances(s: Store, t: Store, id: string) {
    id in s.alerts ==>
      && id in t.alerts
      && var a, b := s.alerts[id], t.alerts[id];
         && (a.status == Resolved ==> b.status == Resolved && b.resolvedAt == a.resolvedAt
                                      && b.occurrenceCount == a.occurrenceCount && b.reasonCode == a.reasonCode)
         && a.occurrenceCount <= b.occurrenceCount <= a.occurrenceCount + 1
         && b.alertKey == a.alertKey && b.firstCandidateID == a.firstCandidateID
         && b.(severity := a.severity, status := a.status, title := a.title, detail := a.detail,
               reasonCode := a.reasonCode, lastCandidateID := a.lastCandidateID, occurrenceCount := a.occurrenceCount,
               acknowledgedBy := a.acknowledgedBy, acknowledgedAt := a.acknowledgedAt,
               snoozedUntil := a.snoozedUntil, resolvedAt := a.resolvedAt, updatedAt := a.updatedAt) == a
  }

  /** The two shapes of a step: nothing but perhaps a new candidate, or one alert saved together
      with one event. */
  ghost predicate OneAlertOneEvent(s: Store, t: Store, a: Alert, e: AlertEvent) {
    && t == Saved(s, a).(candidates := t.candidates, events := s.events + [e])
    && e.alertID == a.alertID
    && (if a.alertID in s.alerts then
          var b := s.alerts[a.alertID];
          && e.eventType != Created
          && (a.status == Resolved && b.status == Active <==> e.eventType == ResolvedEvent)
          && (b.status == Resolved ==>
                a.status == Resolved && a.resolvedAt == b.resolvedAt && a.reasonCode == b.reasonCode)
          && (e.eventType == Updated ==> b.status == Active)
          && (a.status == Resolved && b.status == Active ==> a.resolvedAt.Some?)
          && (a.status == Active ==> a.resolvedAt == b.resolvedAt)
          && a.alertKey == b.alertKey
          && a.occurrenceCount == b.occurrenceCount + (if e.eventType == Updated then 1 else 0)
        else
          && e.eventType == Created && a.status == Active && a.occurrenceCount == 1 && a.resolvedAt.None?
          && ActiveByKey(s, a.alertKey).None?)
    && (e.candidateID != "" ==> e.candidateID !in s.candidates && t.candidates == s.candidates + {e.candidateID})
    && (e.candidateID == "" ==> t.candidates == s.candidates)
  }

  ghost predicate GoodShape(s: Store, t: Store, a: Alert, e: AlertEvent) {
    OneAlertOneEvent(s, t, a, e) && AlertAdvances(s, t, a.alertID) && a.alertID != ""
  }

  lemma ResolveShape(s: Store, a: Alert, candidateID: string, reasonCode: string, actorType: string,
                     actorID: string, now: Time, before: Store)
    requires a.alertID in s.alerts && s.alerts[a.alertID] == a && a.alertID != "" && a.status == Active
    requires s == before.(candidates := s.candidates)
    requires if candidateID == "" then s.candidates == before.candidates
             else candidateID !in before.candidates && s.candidates == before.candidates + {candidateID}
    ensures var (t, r) := ResolveAlert(s, a, candidateID, reasonCode, actorType, actorID, now);
            GoodShape(before, t, r,
                      AlertEvent(a.alertID, candidateID, ResolvedEvent, OrSystem(actorType), OrSystem(actorID), now))
  {}

  lemma IntakeShape(s: Store, c: Candidate, verification: Option<Verification>, newID: string, now: Time)
    returns (a: Alert, e: AlertEvent)
    requires IndexExact(s)
    ensures var t := IntakeCandidate(s, c, verification, newID, now).0;
            (t == s.(candidates := t.candidates) && s.candidates <= t.candidates) || GoodShape(s, t, a, e)
  {
    a, e := *, *;
    if ValidCandidate(c) && c.candidateID !in s.candidates && verification.Some?
       && ValidVerification(verification.value) {
      hide ValidVerification, ValidCandidate;
      var v := verification.value;
      var s1 := s.(candidates := s.candidates + {c.candidateID});
      var active := ActiveByKey(s1, v.alertKey);
      if active.Some? && v.healthy {
        a := ResolvedAlert(active.value, c.candidateID, "candidate_recovered", now);
        e := AlertEvent(a.alertID, c.candidateID, ResolvedEvent, "system", "system", now);
        ResolveShape(s1, active.value, c.candidateID, "candidate_recovered", "system", "system", now, s);
      } else if active.Some? {
        a := UpdatedAlert(active.value, c, v, now);
        e := AlertEvent(a.alertID, c.candidateID, Updated, "system", "system", now);
      } else {
        a := NewAlert(c, v, newID, now);
        e := AlertEvent(newID, c.candidateID, Created, "system", "system", now);
      }
    }
  }

  lemma ActionShape(s: Store, op: Operation, now: Time) returns (a: Alert, e: AlertEvent)
    requires IndexExact(s) && !op.Intake?
    ensures var t := Step(s, op, now).0; t == s || GoodShape(s, t, a, e)
  {
    a, e := *, *;
    if op.id in s.alerts {
      var b := s.alerts[op.id];
      match op
      case Acknowledge(_, actorType, actorID) =>
        a := b.(acknowledgedAt := Some(now), acknowledgedBy := actorID, updatedAt := now);
        e := AlertEvent(b.alertID, "", Acknowledged, OrSystem(actorType), OrSystem(actorID), now);
      case Snooze(_, until, actorType, actorID) =>
        a := b.(snoozedUntil := Some(until), updatedAt := now);
        e := AlertEvent(b.alertID, "", Snoozed, OrSystem(actorType), OrSystem(actorID), now);
      case Resolve(_, reasonCode, actorType, actorID) =>
        if b.status == Active {
          a := ResolvedAlert(b, "", reasonCode, now);
          e := AlertEvent(b.alertID, "", ResolvedEvent, OrSystem(actorType), OrSystem(actorID), now);
          ResolveShape(s, b, "", reasonCode, actorType, actorID, now, s);
        }
    }
  }

  lemma StepShape(s: Store, op: Operation, now: Time) returns (a: Alert, e: AlertEvent)
    requires IndexExact(s)
    ensures var t := Step(s, op, now).0;
            (t == s.(candidates := t.candidates) && s.candidates <= t.candidates) || GoodShape(s, t, a, e)
  {
    hide IntakeCandidate, GoodShape, IndexExact;
    if op.Intake? {
      a, e := IntakeShape(s, op.candidate, op.verification, op.newID, now);
    } else {
      a, e := ActionShape(s, op, now);
    }
  }

  lemma SavedKeepsIndex(s: Store, a: Alert)
    requires IndexExact(s) && a.alertID != ""
    requires if a.alertID in s.alerts
             then a.alertKey == s.alerts[a.alertID].alertKey && (s.alerts[a.alertID].status == Resolved ==>
                 a.status == Resolved)
             else a.status == Active && ActiveByKey(s, a.alertKey).None?
    ensures IndexExact(Saved(s, a))
  {
    var t := Saved(s, a);
    assert t.alerts == s.alerts[a.alertID := a];
    assert a.status == Active ==> a.alertKey !in s.active || s.active[a.alertKey] == a.alertID;
    forall key | key in t.active
      ensures t.active[key] in t.alerts
      ensures t.alerts[t.active[key]].status == Active && t.alerts[t.active[key]].alertKey == key
    {
      if key != a.alertKey {
        assert key in s.active && t.active[key] == s.active[key];
      }
    }
    forall id | id in t.alerts && t.alerts[id].status == Active
      ensures t.alerts[id].alertKey in t.active && t.active[t.alerts[id].alertKey] == id
    {
      if id != a.alertID {
        assert t.alerts[id] == s.alerts[id];
      }
    }
  }

  lemma ShapeKeepsIndex(s: Store, t: Store, a: Alert, e: AlertEvent)
    requires IndexExact(s) && OneAlertOneEvent(s, t, a, e) && a.alertID != ""
    ensures IndexExact(t)
  {
    SavedKeepsIndex(s, a);
    hide ActiveByKey;
  }

  lemma CountExtends(events: seq<AlertEvent>, e: AlertEvent, id: string)
    ensures forall t :: CountOf(events + [e], id, t) == CountOf(events, id, t) + (if e.alertID == id
        && e.eventType == t then 1 else 0)
  {
    assert (events + [e])[..|events|] == events;
  }

  lemma ShapeKeepsEvents(s: Store, t: Store, a: Alert, e: AlertEvent, id: string)
    requires EventsTell(s, id) && OneAlertOneEvent(s, t, a, e)
    ensures EventsTell(t, id)
  {
    CountExtends(s.events, e, id);
  }

  lemma ShapeKeepsCandidates(s: Store, t: Store, a: Alert, e: AlertEvent)
    requires CandidatesOnce(s) && OneAlertOneEvent(s, t, a, e)
    ensures CandidatesOnce(t)
  {}

  /** Every operation: alerts keep their identity, a resolved alert stays as it was resolved, and
      the index, the events and the candidates stay consistent. */
  lemma StepKeeps(s: Store, op: Operation, now: Time, id: string)
    requires IndexExact(s) && EventsTell(s, id) && CandidatesOnce(s)
    ensures var t := Step(s, op, now).0;
            IndexExact(t) && EventsTell(t, id) && CandidatesOnce(t) && AlertAdvances(s, t, id)
  {
    hide Step, CountOf;
    var a, e := StepShape(s, op, now);
    var t := Step(s, op, now).0;
    if t != s.(candidates := t.candidates) || !(s.candidates <= t.candidates) {
      ShapeKeepsIndex(s, t, a, e);
      ShapeKeepsEvents(s, t, a, e, id);
      ShapeKeepsCandidates(s, t, a, e);
    }
  }

  datatype Call = Call(op: Operation, now: Time)

  function Run(calls: seq<Call>): Store {
    if calls == [] then Store({}, map[], map[], [])
    else Step(Run(calls[..|calls| - 1]), calls[|calls| - 1].op, calls[|calls| - 1].now).0
  }

  lemma {:induction false} RunKeeps(calls: seq<Call>, id: string)
    ensures IndexExact(Run(calls)) && EventsTell(Run(calls), id) && CandidatesOnce(Run(calls))
  {
    if calls != [] {
      RunKeeps(calls[..|calls| - 1], id);
      hide Step;
      StepKeeps(Run(calls[..|calls| - 1]), calls[|calls| - 1].op, calls[|calls| - 1].now, id);
    }
  }

  /** In every reachable state an alert key has at most one active alert, and the lookup by key
      finds exactly that one. */
  lemma AtMostOneActiveAlert(calls: seq<Call>, id: string, other: string)
    requires var s := Run(calls);
             id in s.alerts && other in s.alerts && s.alerts[id].status == Active
                 && s.alerts[id].alertKey == s.alerts[other].alertKey
    ensures Run(calls).alerts[other].status == Active ==> id == other
    ensures ActiveByKey(Run(calls), Run(calls).alerts[id].alertKey) == Some(Run(calls).alerts[id])
  {
    RunKeeps(calls, id);
  }

  /** The occurrence count is the number of created and updated events; a resolved alert has
      exactly one resolved event, an active one has none. */
  lemma EventsCountOccurrences(calls: seq<Call>, id: string)
    requires id in Run(calls).alerts
    ensures var s := Run(calls);
            && s.alerts[id].occurrenceCount == CountOf(s.events, id, Created) + CountOf(s.events, id, Updated)
            && CountOf(s.events, id, Created) == 1
            && CountOf(s.events, id, ResolvedEvent) == (if s.alerts[id].status == Resolved then 1 else 0)
  {
    RunKeeps(calls, id);
  }

  /** Each candidate is behind at most one alert event. */
  lemma CandidateInAtMostOneEvent(calls: seq<Call>, i: nat, j: nat)
    requires var s := Run(calls);
             i < |s.events| && j < |s.events| && s.events[i].candidateID == s.events[j].candidateID != ""
    ensures i == j
    ensures Run(calls).events[i].candidateID in Run(calls).candidates
  {
    RunKeeps(calls, "");
  }

  /** A resolved alert never becomes active again, however the run goes on. */
  lemma {:induction false} ResolvedForever(calls: seq<Call>, n: nat, id: string)
    requires n <= |calls| && id in Run(calls[..n]).alerts && Run(calls[..n]).alerts[id].status == Resolved
    ensures id in Run(calls).alerts
    ensures var a, b := Run(calls[..n]).alerts[id], Run(calls).alerts[id];
            b.status == Resolved && b.resolvedAt == a.resolvedAt && b.occurrenceCount == a.occurrenceCount
    decreases |calls|
  {
    if n < |calls| {
      var rest := calls[..|calls| - 1];
      assert rest[..n] == calls[..n];
      ResolvedForever(rest, n, id);
      RunKeeps(rest, id);
      hide Step;
      StepKeeps(Run(rest), calls[|calls| - 1].op, calls[|calls| - 1].now, id);
    } else {
      assert calls[..n] == calls;
    }
  }

  /** What a valid unseen candidate does, by its verification and the state before: it resolves
      the active alert of its key, raises the count of that alert, opens a new one, or nothing. */
  lemma IntakeDecides(calls: seq<Call>, c: Candidate, v: Verification, newID: string, now: Time)
    requires var s := Run(calls); ValidCandidate(c) && c.candidateID !in s.candidates && ValidVerification(v)
    ensures var s := Run(calls);
            var (t, reply) := IntakeCandidate(s, c, Some(v), newID, now);
            var before, after := ActiveByKey(s, v.alertKey), ActiveByKey(t, v.alertKey);
            && c.candidateID in t.candidates
            && (v.healthy ==> after.None? && (reply == Ignored <==> before.None?))
            && (v.healthy && before.Some? ==> t.alerts[before.value.alertID].status == Resolved)
            && (!v.healthy && before.Some? ==>
                  after.Some? && after.value.alertID == before.value.alertID
                  && after.value.occurrenceCount == before.value.occurrenceCount + 1
                  && after.value.lastCandidateID == c.candidateID)
            && (!v.healthy && before.None? && reply.Folded? ==>
                  newID !in s.alerts && after == Some(reply.alert) && reply.alert.alertID == newID)
  {
    RunKeeps(calls, "");
  }

  predicate HasEventFor(s: Store, candidateID: string) {
    exists i :: 0 <= i < |s.events| && s.events[i].candidateID == candidateID
  }

  lemma StepKeepsFate(s: Store, op: Operation, now: Time, candidateID: string)
    requires IndexExact(s) && candidateID != "" && candidateID in s.candidates
    ensures var t := Step(s, op, now).0;
            candidateID in t.candidates && (HasEventFor(t, candidateID) <==> HasEventFor(s, candidateID))
  {
    hide Step, IndexExact;
    var a, e := StepShape(s, op, now);
    var t := Step(s, op, now).0;
    if HasEventFor(s, candidateID) {
      var i :| 0 <= i < |s.events| && s.events[i].candidateID == candidateID;
      assert i < |t.events| && t.events[i] == s.events[i];
    }
  }

  /** Once a candidate is recorded its fate is settled: no continuation of the run brings an event
      for it if there is none yet, and every retry is answered as a duplicate. */
  lemma {:induction false} RecordedCandidatesAreSettled(calls: seq<Call>, n: nat, candidateID: string)
    requires n <= |calls| && candidateID != "" && candidateID in Run(calls[..n]).candidates
    ensures candidateID in Run(calls).candidates
    ensures HasEventFor(Run(calls), candidateID) <==> HasEventFor(Run(calls[..n]), candidateID)
    decreases |calls|
  {
    hide Step, HasEventFor;
    if n < |calls| {
      var rest := calls[..|calls| - 1];
      assert rest[..n] == calls[..n];
      RecordedCandidatesAreSettled(rest, n, candidateID);
      RunKeeps(rest, "");
      StepKeepsFate(Run(rest), calls[|calls| - 1].op, calls[|calls| - 1].now, candidateID);
    } else {
      assert calls[..n] == calls;
    }
  }

  /** A first intake is folded: it is verified, and it finds its alert or can open one. */
  predicate FoldedAtOnce(s: Store, verification: Option<Verification>, newID: string) {
    && verification.Some? && ValidVerification(verification.value)
    && var v := verification.value;
       || ActiveByKey(s, v.alertKey).Some?
       || (!v.healthy && newID != "" && newID !in s.alerts && !v.family.OtherFamily? && !v.severity.OtherSeverity?
           && v.reasonCode != "")
  }

  lemma FirstIntake(s: Store, c: Candidate, verification: Option<Verification>, newID: string, now: Time)
    requires IndexExact(s) && CandidatesOnce(s) && ValidCandidate(c) && c.candidateID !in s.candidates
    ensures var t := IntakeCandidate(s, c, verification, newID, now).0;
            && c.candidateID in t.candidates
            && (HasEventFor(t, c.candidateID) <==> FoldedAtOnce(s, verification, newID))
  {
    assert !HasEventFor(s, c.candidateID);
    var t := IntakeCandidate(s, c, verification, newID, now).0;
    assert t.events == s.events || (|t.events| == |s.events| + 1 && t.events[|s.events|].candidateID == c.candidateID);
  }

  /** A candidate is recorded before it is verified. So, at any time of any run, there is an event
      for it exactly when its first intake was folded at once; a first intake whose verification
      failed is never made up for. */
  lemma CandidateIsFoldedExactlyWhenAtOnce(calls: seq<Call>, n: nat)
    requires n < |calls| && calls[n].op.Intake? && ValidCandidate(calls[n].op.candidate)
    requires calls[n].op.candidate.candidateID !in Run(calls[..n]).candidates
    ensures var op, s := calls[n].op, Run(calls[..n]);
            HasEventFor(Run(calls), op.candidate.candidateID) <==>
            FoldedAtOnce(s, op.verification, op.newID)
    ensures forall retry, verification, newID, now ::
              ValidCandidate(retry) && retry.candidateID == calls[n].op.candidate.candidateID ==>
                IntakeCandidate(Run(calls), retry, verification, newID, now) == (Run(calls), Duplicate)
  {
    var op, s := calls[n].op, Run(calls[..n]);
    RunKeeps(calls[..n], "");
    assert calls[..n + 1][..n] == calls[..n];
    FirstIntake(s, op.candidate, op.verification, op.newID, calls[n].now);
    RecordedCandidatesAreSettled(calls, n + 1, op.candidate.candidateID);
  }
}
