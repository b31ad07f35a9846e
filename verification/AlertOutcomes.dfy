/** What every operation on alerts comes to in a reachable state: the answer, the one alert that is
    saved, field by field, and the one event that is recorded with it. */
module AlertOutcomes {
  import opened Common
  import opened Alerting

  /** One alert is saved and one event is recorded; the index stays exact. */
  ghost predicate Records(s: Store, t: Store, a: Alert, e: AlertEvent) {
    t.alerts == s.alerts[a.alertID := a] && t.events == s.events + [e] && IndexExact(t)
  }

  // ---------------------------------------------------------------- candidates

  /** A candidate leaves no trace exactly when something is missing in it, or it is a duplicate. One
      whose verification fails, has no key, or tells of a problem without saying what it is, is
      recorded, and nothing else happens. */
  lemma IntakeRefuses(s: Store, c: Candidate, verification: Option<Verification>, newID: string, now: Time)
    ensures var (t, reply) := IntakeCandidate(s, c, verification, newID, now);
            var incomplete := || c.candidateID == "" || c.eventType == "" || c.accountID == "" || c.siteID == ""
                              || c.source == "" || c.occurredAt == ZERO_TIME || !c.jsonValid;
            var unusable := verification.None? ||
                            var v := verification.value;
                            || v.alertKey == ""
                            || (!v.healthy && (|| v.family == OtherFamily("") || v.severity == OtherSeverity("")
                                               || v.title == "" || v.detail == "" || !v.metadataValid));
            && (incomplete <==> !ValidCandidate(c))
            && (unusable <==> verification.None? || !ValidVerification(verification.value))
            && if incomplete then t == s && reply == Error
               else if c.candidateID in s.candidates then t == s && reply == Duplicate
               else
                 && t.candidates == s.candidates + {c.candidateID}
                 && (unusable ==> t == s.(candidates := t.candidates) && reply == Error)
  {}

  /** A first intake that finds the active alert of its key: it resolves the alert if all is well
      again, and takes over the severity, the texts and the reason otherwise. Who acknowledged or
      snoozed the alert is not touched. */
  lemma IntakeFolds(calls: seq<Call>, c: Candidate, v: Verification, newID: string, now: Time, a: Alert)
    requires ValidCandidate(c) && c.candidateID !in Run(calls).candidates && ValidVerification(v)
    requires ActiveByKey(Run(calls), v.alertKey) == Some(a)
    ensures var s := Run(calls);
            var (t, reply) := IntakeCandidate(s, c, Some(v), newID, now);
            && a.alertID in s.alerts && s.alerts[a.alertID] == a && a.alertID in t.alerts
            && var b := t.alerts[a.alertID];
               && reply == Folded(b, v.healthy)
               && Records(s, t, b, AlertEvent(a.alertID, c.candidateID, if v.healthy then ResolvedEvent else Updated,
                                              "system", "system", now))
               && b.lastCandidateID == c.candidateID && b.updatedAt == now
               && a == b.(lastCandidateID := a.lastCandidateID, updatedAt := a.updatedAt, reasonCode := a.reasonCode,
                          severity := a.severity, title := a.title, detail := a.detail, status := a.status,
                          resolvedAt := a.resolvedAt, occurrenceCount := a.occurrenceCount)
               && if v.healthy then
                    && b.status == Resolved && b.resolvedAt == Some(now) && b.reasonCode == "candidate_recovered"
                    && b.severity == a.severity && b.title == a.title && b.detail == a.detail
                    && b.occurrenceCount == a.occurrenceCount
                  else
                    && b.status == Active && b.resolvedAt == a.resolvedAt && b.reasonCode == v.reasonCode
                    && b.severity == v.severity && b.title == v.title && b.detail == v.detail
                    && b.occurrenceCount == a.occurrenceCount + 1
  {
    RunKeeps(calls, a.alertID);
    StepKeeps(Run(calls), Intake(c, Some(v), newID), now, a.alertID);
  }

  /** A first intake that finds no active alert of its key: nothing happens if all is well; otherwise
      an alert is opened exactly when its id is new and its family, severity and reason are known. */
  lemma IntakeOpens(calls: seq<Call>, c: Candidate, v: Verification, newID: string, now: Time)
    requires ValidCandidate(c) && c.candidateID !in Run(calls).candidates && ValidVerification(v)
    requires ActiveByKey(Run(calls), v.alertKey).None?
    ensures var s := Run(calls);
            var (t, reply) := IntakeCandidate(s, c, Some(v), newID, now);
            var opens := !v.healthy && newID != "" && newID !in s.alerts && !v.family.OtherFamily?
                         && !v.severity.OtherSeverity? && v.reasonCode != "";
            && (!opens ==> t == s.(candidates := t.candidates) && reply == if v.healthy then Ignored else Error)
            && (opens ==>
                  newID in t.alerts
                  && var a := t.alerts[newID];
                     && reply == Folded(a, false) && ActiveByKey(t, v.alertKey) == Some(a)
                     && Records(s, t, a, AlertEvent(newID, c.candidateID, Created, "system", "system", now))
                     && a.alertID == newID && a.alertKey == v.alertKey
                     && a.accountID == c.accountID && a.siteID == c.siteID && a.deviceID == c.deviceID
                     && a.family == v.family && a.severity == v.severity && a.status == Active
                     && a.title == v.title && a.detail == v.detail && a.reasonCode == v.reasonCode
                     && a.firstCandidateID == c.candidateID == a.lastCandidateID && a.occurrenceCount == 1
                     && a.acknowledgedBy == "" && a.acknowledgedAt.None? && a.snoozedUntil.None?
                     && a.resolvedAt.None? && a.updatedAt == now)
  {
    RunKeeps(calls, newID);
    StepKeeps(Run(calls), Intake(c, Some(v), newID), now, newID);
  }

  // ---------------------------------------------------------------- actions

  /** An action on an alert that does not exist, a snooze that is over already and the resolution of
      a resolved alert change nothing; only the last is answered with the alert. */
  predicate HasNoEffect(s: Store, op: Operation, now: Time)
    requires !op.Intake?
  {
    || op.id == "" || op.id !in s.alerts
    || (op.Snooze? && op.until <= now)
    || (op.Resolve? && s.alerts[op.id].status == Resolved)
  }

  /** Any other action changes its own fields of the alert and the time of its last change, and
      records one event with its actor, or the system where none is given. */
  lemma ActionMeans(calls: seq<Call>, op: Operation, now: Time)
    requires !op.Intake?
    ensures var s := Run(calls);
            var (t, reply) := Step(s, op, now);
            if HasNoEffect(s, op, now) then
              && t == s
              && reply == if op.Resolve? && op.id != "" && op.id in s.alerts then Acted(s.alerts[op.id]) else Error
            else
              && op.id in t.alerts
              && var a, b := s.alerts[op.id], t.alerts[op.id];
                 && reply == Acted(b) && b.updatedAt == now && t.candidates == s.candidates
                 && Records(s, t, b, AlertEvent(op.id, "",
                                                if op.Acknowledge? then Acknowledged
                                                else if op.Snooze? then Snoozed else ResolvedEvent,
                                                if op.actorType != "" then op.actorType else "system",
                                                if op.actorID != "" then op.actorID else "system", now))
                 && (op.Acknowledge? ==>
                       && b.acknowledgedAt == Some(now) && b.acknowledgedBy == op.actorID
                       && b.(acknowledgedAt := a.acknowledgedAt, acknowledgedBy := a.acknowledgedBy,
                             updatedAt := a.updatedAt) == a)
                 && (op.Snooze? ==>
                       b.snoozedUntil == Some(op.until)
                       && b.(snoozedUntil := a.snoozedUntil, updatedAt := a.updatedAt) == a)
                 && (op.Resolve? ==>
                       && b.status == Resolved && b.resolvedAt == Some(now)
                       && b.reasonCode == (if op.reasonCode != "" then op.reasonCode else a.reasonCode)
                       && b.(status := a.status, resolvedAt := a.resolvedAt, reasonCode := a.reasonCode,
                             updatedAt := a.updatedAt) == a)
  {
    RunKeeps(calls, "");
    StepKeeps(Run(calls), op, now, "");
  }
}
