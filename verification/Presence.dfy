/** The presence row of a device under lifecycle events that arrive in any order. */
module Presence {
  import opened Common
  import opened Strings

  datatype ConnectionState = Online | Disconnected | Unknown

  datatype Row = Row(
    state: ConnectionState, lastConnectedAt: Option<Time>, lastDisconnectedAt: Option<Time>, lastSeenAt: Option<Time>)

  function StateOf(eventType: string): ConnectionState {
    if eventType == "connected" then Online
    else if eventType == "disconnected" || eventType == "connect_failed" then Disconnected
    else Unknown
  }

  /** GREATEST(COALESCE(known, at), at). */
  function Latest(known: Option<Time>, at: Time): Option<Time> {
    if known.Some? && known.value > at then known else Some(at)
  }

  /** What reaches the presence row: a connect or disconnect, or telemetry that was received. */
  datatype Event = Lifecycle(online: bool, at: Time) | Telemetry(at: Time)

  function Upsert(row: Option<Row>, e: Event): Row {
    match e
    case Lifecycle(online, at) =>
      var state := if online then Online else Disconnected;
      if row.None? then Row(state, if online then Some(at) else None, if online then None else Some(at), Some(at)) else
      var r := row.value;
      Row(if r.lastSeenAt.None? || r.lastSeenAt.value <= at then state else r.state,
          if online then Latest(r.lastConnectedAt, at) else r.lastConnectedAt,
          if online then r.lastDisconnectedAt else Latest(r.lastDisconnectedAt, at),
          Latest(r.lastSeenAt, at))
    case Telemetry(at) =>
      if row.None? then Row(Unknown, None, None, Some(at))
      else row.value.(lastSeenAt := Latest(row.value.lastSeenAt, at))
  }

  // ---------------------------------------------------------------- the writer

  datatype LifecycleEvent = LifecycleEvent(eventType: string, clientID: string, sessionID: string, observedAt: Time)

  datatype Written = NotWritten | Accepted(deviceID: string, state: ConnectionState, observedAt: Time)

  class Writer {
    var claimed: set<string> // devices that are claimed and not revoked
    var events: seq<LifecycleEvent>
    var rows: map<string, Row>
    var failures: seq<string>

    /** `commits` says whether the transaction goes through; a transaction that does not leaves
        neither the event nor the presence change behind. */
    method WriteLifecycle(event: LifecycleEvent, now: Time, commits: bool) returns (w: Written)
      modifies this`events, this`rows, this`failures
      ensures var id, kind := TrimSpace(event.clientID), TrimSpace(event.eventType);
              var at := if event.observedAt == ZERO_TIME then now else event.observedAt;
              var row := if id in old(rows) then Some(old(rows)[id]) else None;
              var online := kind == "connected";
              var known := online || kind == "disconnected" || kind == "connect_failed";
              && (w.Accepted? <==> id in claimed && id != "" && known && commits)
              && (w.Accepted? ==>
                    && w == Accepted(id, if online then Online else Disconnected, at)
                    && rows == old(rows)[id := Upsert(row, Lifecycle(online, at))]
                    && events == old(events) + [LifecycleEvent(kind, id, event.sessionID, at)])
              && (w.NotWritten? ==> rows == old(rows) && events == old(events))
              && failures == if kind != "" && id != "" && id !in claimed then old(failures) + [id] else old(failures)
    {
      var e := event.(eventType := TrimSpace(event.eventType), clientID := TrimSpace(event.clientID));
      if e.eventType == "" || e.clientID == "" {
        return NotWritten;
      }
      if e.observedAt == ZERO_TIME {
        e := e.(observedAt := now);
      }
      if e.clientID !in claimed {
        failures := failures + [e.clientID];
        return NotWritten;
      }
      var id := e.clientID;
      var txEvents, txRows := events + [e], rows;
      match StateOf(e.eventType) {
        case Online =>
          if id in txRows {
            var r := txRows[id];
            if r.lastSeenAt.None? || r.lastSeenAt.value <= e.observedAt {
              r := r.(state := Online);
            }
            r := r.(lastConnectedAt := Latest(r.lastConnectedAt, e.observedAt));
            r := r.(lastSeenAt := Latest(r.lastSeenAt, e.observedAt));
            txRows := txRows[id := r];
          } else {
            txRows := txRows[id := Row(Online, Some(e.observedAt), None, Some(e.observedAt))];
          }
        case Disconnected =>
          if id in txRows {
            var r := txRows[id];
            if r.lastSeenAt.None? || r.lastSeenAt.value <= e.observedAt {
              r := r.(state := Disconnected);
            }
            r := r.(lastDisconnectedAt := Latest(r.lastDisconnectedAt, e.observedAt));
            r := r.(lastSeenAt := Latest(r.lastSeenAt, e.observedAt));
            txRows := txRows[id := r];
          } else {
            txRows := txRows[id := Row(Disconnected, None, Some(e.observedAt), Some(e.observedAt))];
          }
        case Unknown =>
          return NotWritten;
      }
      if !commits {
        return NotWritten;
      }
      events, rows := txEvents, txRows;
      w := Accepted(id, StateOf(e.eventType), e.observedAt);
    }
  }

  // ---------------------------------------------------------------- runs

  /** The row after events, starting from nothing. */
  function Fold(events: seq<Event>): Option<Row> {
    if events == [] then None else Some(Upsert(Fold(events[..|events| - 1]), events[|events| - 1]))
  }

  predicate Before(a: Option<Time>, b: Option<Time>) {
    a.None? || (b.Some? && a.value <= b.value)
  }

  /** Whatever arrives, lifecycle events and telemetry mixed, the device is never seen earlier. */
  lemma {:induction false} LastSeenNeverDecreases(events: seq<Event>, n: nat)
    requires 0 < n <= |events|
    ensures Fold(events).Some? && Fold(events[..n]).Some?
    ensures Before(Fold(events[..n]).value.lastSeenAt, Fold(events).value.lastSeenAt)
    ensures Before(Fold(events[..n]).value.lastConnectedAt, Fold(events).value.lastConnectedAt)
    ensures Before(Fold(events[..n]).value.lastDisconnectedAt, Fold(events).value.lastDisconnectedAt)
    decreases |events|
  {
    if n < |events| {
      assert events[..|events| - 1][..n] == events[..n];
      LastSeenNeverDecreases(events[..|events| - 1], n);
    } else {
      assert events[..n] == events;
    }
  }

  // ---------------------------------------------------------------- what the row says

  datatype Kind = Connect | Disconnect | Heard

  function KindOf(e: Event): Kind {
    match e
    case Lifecycle(online, _) => if online then Connect else Disconnect
    case Telemetry(_) => Heard
  }

  const ALL: set<Kind> := {Connect, Disconnect, Heard}

  /** t is the latest time among the events of the given kinds. */
  ghost predicate IsLatest(events: seq<Event>, kinds: set<Kind>, t: Option<Time>) {
    if t.None? then forall e :: e in events ==> KindOf(e) !in kinds
    else
      && (exists e :: e in events && KindOf(e) in kinds && e.at == t.value)
      && (forall e :: e in events && KindOf(e) in kinds ==> e.at <= t.value)
  }

  lemma LatestIsUnique(a: seq<Event>, b: seq<Event>, kinds: set<Kind>, t: Option<Time>, u: Option<Time>)
    requires SameEvents(a, b) && IsLatest(a, kinds, t) && IsLatest(b, kinds, u)
    ensures t == u
  {}

  lemma LatestExtends(events: seq<Event>, e: Event, kinds: set<Kind>, t: Option<Time>)
    requires IsLatest(events, kinds, t)
    ensures IsLatest(events + [e], kinds,
                     if KindOf(e) !in kinds then t else if t.Some? && t.value > e.at then t else Some(e.at))
  {
    var more := events + [e];
    assert e in more && forall x :: x in more <==> x in events || x == e;
    if KindOf(e) in kinds && (t.None? || t.value <= e.at) {
      assert e in more && KindOf(e) in kinds && e.at == Some(e.at).value;
    }
  }

  /** The times in the row, in whatever order lifecycle events and telemetry came: the latest of
      all, of the connects and of the disconnects. */
  lemma {:induction false} RowMeans(events: seq<Event>)
    requires events != []
    ensures var r := Fold(events).value;
            && IsLatest(events, ALL, r.lastSeenAt) && r.lastSeenAt.Some?
            && IsLatest(events, {Connect}, r.lastConnectedAt)
            && IsLatest(events, {Disconnect}, r.lastDisconnectedAt)
  {
    var rest, e := events[..|events| - 1], events[|events| - 1];
    assert events == rest + [e] && e in events;
    if rest == [] {
      assert events == [e];
    } else {
      RowMeans(rest);
      var r := Fold(rest).value;
      LatestExtends(rest, e, ALL, r.lastSeenAt);
      LatestExtends(rest, e, {Connect}, r.lastConnectedAt);
      LatestExtends(rest, e, {Disconnect}, r.lastDisconnectedAt);
    }
  }

  /** Event i is a lifecycle event that was not delivered after a later event. */
  predicate Decides(events: seq<Event>, i: nat) {
    i < |events| && events[i].Lifecycle? && forall j :: 0 <= j < i ==> events[j].at <= events[i].at
  }

  /** Event i is the last of these. */
  predicate DecidesLast(events: seq<Event>, i: nat) {
    Decides(events, i) && forall j :: i < j < |events| ==> !Decides(events, j)
  }

  lemma DecidesInPrefix(events: seq<Event>, n: nat)
    requires n <= |events|
    ensures forall i :: 0 <= i < n ==> (Decides(events[..n], i) <==> Decides(events, i))
  {}

  lemma NewestDecides(events: seq<Event>)
    requires events != [] && events[|events| - 1].Lifecycle?
    ensures var rest, last := events[..|events| - 1], events[|events| - 1];
            Decides(events, |events| - 1) <==> rest == [] || Fold(rest).value.lastSeenAt.value <= last.at
  {
    var rest, last := events[..|events| - 1], events[|events| - 1];
    if rest != [] {
      RowMeans(rest);
      hide Fold;
      if Fold(rest).value.lastSeenAt.value <= last.at {
        forall j | 0 <= j < |rest| ensures events[j].at <= last.at { assert rest[j] in rest; }
      } else {
        var e :| e in rest && e.at == Fold(rest).value.lastSeenAt.value;
        var j :| 0 <= j < |rest| && rest[j] == e;
        assert events[j].at > last.at;
      }
    }
  }

  lemma NewestState(events: seq<Event>)
    requires events != []
    ensures var rest, n := events[..|events| - 1], |events| - 1;
            Fold(events).value.state ==
            if Decides(events, n) then if events[n].online then Online else Disconnected
            else if rest == [] then Unknown else Fold(rest).value.state
  {
    var rest, n := events[..|events| - 1], |events| - 1;
    if rest != [] { RowMeans(rest); }
    if events[n].Lifecycle? {
      NewestDecides(events);
    }
    hide Decides, IsLatest;
  }

  /** The state in the row: that of the last lifecycle event that was not delivered after a later
      event, be it a lifecycle event or telemetry; unknown if there is none. */
  lemma {:induction false} StateMeans(events: seq<Event>) returns (last: Option<nat>)
    requires events != []
    ensures last.None? ==> forall i :: 0 <= i < |events| ==> !Decides(events, i)
    ensures last.Some? ==> DecidesLast(events, last.value)
    ensures Fold(events).value.state ==
            if last.None? then Unknown else if events[last.value].online then Online else Disconnected
  {
    var rest, n := events[..|events| - 1], |events| - 1;
    DecidesInPrefix(events, n);
    NewestState(events);
    if rest == [] {
      last := if Decides(events, n) then Some(n) else None;
    } else {
      last := StateMeans(rest);
      hide Fold, Decides;
      if Decides(events, n) {
        last := Some(n);
      }
    }
  }

  // ---------------------------------------------------------------- convergence

  ghost predicate SameEvents(a: seq<Event>, b: seq<Event>) {
    forall e :: e in a <==> e in b
  }

  /** A connect and a disconnect share the latest time of all. */
  ghost predicate ClashAtTheEnd(events: seq<Event>) {
    exists t :: IsLatest(events, ALL, Some(t)) && Lifecycle(true, t) in events && Lifecycle(false, t) in events
  }

  /** There are lifecycle events, but telemetry is later than all of them. */
  ghost predicate OvertakenAtTheEnd(events: seq<Event>) {
    && (exists e :: e in events && e.Lifecycle?)
    && (exists t :: IsLatest(events, ALL, Some(t)) && Lifecycle(true, t) !in events && Lifecycle(false, t) !in events)
  }

  /** A lifecycle event at the latest time of all decides, whenever it is delivered. */
  lemma LatestDecides(events: seq<Event>, t: Time)
    requires IsLatest(events, ALL, Some(t)) && (Lifecycle(true, t) in events || Lifecycle(false, t) in events)
    ensures var state := Fold(events).value.state;
            || (state == Online && Lifecycle(true, t) in events)
            || (state == Disconnected && Lifecycle(false, t) in events)
  {
    NothingIsLater(events, t);
    var e := if Lifecycle(true, t) in events then Lifecycle(true, t) else Lifecycle(false, t);
    var k :| 0 <= k < |events| && events[k] == e;
    assert Decides(events, k);
    var last := StateMeans(events);
    hide Fold, IsLatest;
    var i := last.value;
    assert k <= i && events[i].at == t;
    assert events[i] in events && events[i] == Lifecycle(events[i].online, t);
  }

  lemma NothingIsLater(events: seq<Event>, t: Time)
    requires IsLatest(events, ALL, Some(t))
    ensures forall j :: 0 <= j < |events| ==> events[j].at <= t
  {
    forall j | 0 <= j < |events| ensures events[j].at <= t {
      assert events[j] in events && KindOf(events[j]) in ALL;
    }
  }

  lemma WithoutLifecycle(events: seq<Event>)
    requires events != [] && forall e :: e in events ==> !e.Lifecycle?
    ensures Fold(events).value.state == Unknown
  {
    var last := StateMeans(events);
  }

  /** Any two deliveries of the same events, lifecycle and telemetry, in any order and with any
      repetitions, end in the same row, unless a connect and a disconnect share the latest time or
      telemetry is later than all lifecycle events. */
  lemma PresenceConverges(a: seq<Event>, b: seq<Event>)
    requires a != [] && SameEvents(a, b) && !ClashAtTheEnd(a) && !OvertakenAtTheEnd(a)
    ensures Fold(a) == Fold(b)
  {
    assert a[0] in b;
    RowMeans(a);
    RowMeans(b);
    var r, q := Fold(a).value, Fold(b).value;
    LatestIsUnique(a, b, ALL, r.lastSeenAt, q.lastSeenAt);
    LatestIsUnique(a, b, {Connect}, r.lastConnectedAt, q.lastConnectedAt);
    LatestIsUnique(a, b, {Disconnect}, r.lastDisconnectedAt, q.lastDisconnectedAt);
    hide Fold;
    var t := r.lastSeenAt.value;
    assert IsLatest(a, ALL, Some(t)) && IsLatest(b, ALL, Some(t));
    if Lifecycle(true, t) in a || Lifecycle(false, t) in a {
      LatestDecides(a, t);
      LatestDecides(b, t);
    } else {
      WithoutLifecycle(a);
      WithoutLifecycle(b);
    }
  }

  /** Of two that share the latest time, the one delivered last wins. */
  lemma ClashMatters(events: seq<Event>, t: Time)
    requires IsLatest(events, ALL, Some(t)) && Lifecycle(true, t) in events && Lifecycle(false, t) in events
    ensures SameEvents(events, events + [Lifecycle(true, t)]) && SameEvents(events, events + [Lifecycle(false, t)])
    ensures Fold(events + [Lifecycle(true, t)]).value.state == Online
    ensures Fold(events + [Lifecycle(false, t)]).value.state == Disconnected
  {
    RowMeans(events);
    LatestIsUnique(events, events, ALL, Fold(events).value.lastSeenAt, Some(t));
    var on, off := events + [Lifecycle(true, t)], events + [Lifecycle(false, t)];
    assert on[..|events|] == events == off[..|events|];
  }

  /** Telemetry that comes first hides the lifecycle events before it in time; a lifecycle event that
      comes first is not forgotten. */
  lemma OvertakingMatters(events: seq<Event>, t: Time, e: Event)
    requires IsLatest(events, ALL, Some(t)) && Lifecycle(true, t) !in events && Lifecycle(false, t) !in events
    requires e in events && e.Lifecycle?
    ensures SameEvents(events, [Telemetry(t)] + events) && SameEvents(events, [e] + events)
    ensures Fold([Telemetry(t)] + events).value.state == Unknown
    ensures Fold([e] + events).value.state != Unknown
  {
    var x :| x in events && x.at == t;
    assert x == Telemetry(t);
    var late, early := [Telemetry(t)] + events, [e] + events;
    var lastLate := StateMeans(late);
    var lastEarly := StateMeans(early);
    hide Fold;
    assert Decides(early, 0);
    forall i | 0 <= i < |late| ensures !Decides(late, i) {
      assert i > 0 ==> late[i] in events && late[0].at == t;
      assert late[i].Lifecycle? ==> late[i].at < t;
    }
  }

  /** All deliveries of the same events agree exactly when neither is the case. */
  lemma ConvergesExactlyWhen(events: seq<Event>)
    requires events != []
    ensures (forall a, b :: SameEvents(events, a) && SameEvents(events, b) ==> Fold(a) == Fold(b)) <==>
            !ClashAtTheEnd(events) && !OvertakenAtTheEnd(events)
  {
    hide Fold, IsLatest;
    if ClashAtTheEnd(events) {
      var t :| IsLatest(events, ALL, Some(t)) && Lifecycle(true, t) in events && Lifecycle(false, t) in events;
      ClashMatters(events, t);
      var on, off := events + [Lifecycle(true, t)], events + [Lifecycle(false, t)];
      assert SameEvents(events, on) && SameEvents(events, off) && Fold(on) != Fold(off);
    } else if OvertakenAtTheEnd(events) {
      var t :| IsLatest(events, ALL, Some(t)) && Lifecycle(true, t) !in events && Lifecycle(false, t) !in events;
      var e :| e in events && e.Lifecycle?;
      OvertakingMatters(events, t, e);
      var late, early := [Telemetry(t)] + events, [e] + events;
      assert SameEvents(events, late) && SameEvents(events, early) && Fold(late) != Fold(early);
    } else {
      forall a, b | SameEvents(events, a) && SameEvents(events, b) ensures Fold(a) == Fold(b) {
        PresenceConverges(events, a);
        PresenceConverges(events, b);
      }
    }
  }

  /** Distinct times are enough if a lifecycle event is the latest, and then the state is its. */
  lemma DistinctTimesConverge(a: seq<Event>, b: seq<Event>, last: Event)
    requires SameEvents(a, b) && last in a && last.Lifecycle?
    requires forall x, y :: x in a && y in a && x.at == y.at ==> x == y
    requires forall e :: e in a ==> e.at <= last.at
    ensures Fold(a) == Fold(b) && Fold(a).Some?
    ensures Fold(a).value.state == (if last.online then Online else Disconnected)
    ensures Fold(a).value.lastSeenAt == Some(last.at)
  {
    assert IsLatest(a, ALL, Some(last.at));
    assert last == Lifecycle(last.online, last.at);
    LatestDecides(a, last.at);
    RowMeans(a);
    hide Fold;
    LatestIsUnique(a, a, ALL, Fold(a).value.lastSeenAt, Some(last.at));
    forall t | IsLatest(a, ALL, Some(t)) ensures t == last.at { LatestIsUnique(a, a, ALL, Some(t), Some(last.at)); }
    assert Lifecycle(!last.online, last.at) !in a;
    PresenceConverges(a, b);
  }
}
