/** The in-memory surveillance repository: debounced, idempotent alerts, triage by compare and
    swap on the revision, and an event log read by cursor. */
module AlertStore {
  import opened Options
  import opened Orders
  import opened Keys

  datatype Status = Pending | Confirmed | FalsePositive | Ignored

  datatype Alert = Alert(id: string, space: Space, idempotencyKey: string, triggeredAt: real, lastSeenAt: real,
                         matchScore: real, maxScore: real, count: int, updatedAt: real, revision: int, status: Status)

  datatype Debounce = Debounce(key: string, cooldownUntil: real, lastAlert: Option<string>, lastSeenAt: real,
                               maxScore: real, count: int, revision: int)

  datatype Event = Event(cursor: int, alert: string, status: Status)

  datatype Candidate = Candidate(alert: Alert, event: Event, debounce: Debounce)

  datatype Written = Written(alert: Alert, event: Option<Event>, emitted: bool)

  datatype Result = Ok(written: Written) | Conflict(reason: string)

  datatype Store = Store(alerts: map<Key, Alert>, events: map<Space, seq<Event>>, debounce: map<Key, Debounce>, idempotency: map<Key, string>)

  const EMPTY := Store(map[], map[], map[], map[])

  function Log(events: map<Space, seq<Event>>, space: Space): seq<Event> {
    if space in events then events[space] else []
  }

  // ----- recording

  function DebounceKey(c: Candidate): Key {
    Key(c.alert.space, c.debounce.key)
  }

  /** The alert that a candidate only repeats: the last one of its debounce key, still cooling down. */
  function Repeated(s: Store, c: Candidate): Option<Key> {
    if DebounceKey(c) in s.debounce then
      var d := s.debounce[DebounceKey(c)];
      if d.cooldownUntil > c.alert.triggeredAt && d.lastAlert.Some? && Key(c.alert.space, d.lastAlert.value) in s.alerts
      then Some(Key(c.alert.space, d.lastAlert.value)) else None
    else None
  }

  function Duplicated(s: Store, c: Candidate): Option<Key> {
    var k := Key(c.alert.space, c.alert.idempotencyKey);
    if k in s.idempotency && Key(c.alert.space, s.idempotency[k]) in s.alerts then Some(Key(c.alert.space, s.idempotency[k])) else None
  }

  predicate Emits(s: Store, c: Candidate) {
    Repeated(s, c).None? && Duplicated(s, c).None?
  }

  function Again(seen: Alert, now: Alert): Alert {
    seen.(lastSeenAt := RealMax(seen.lastSeenAt, now.lastSeenAt), matchScore := now.matchScore, maxScore := RealMax(seen.maxScore, now.maxScore),
          count := seen.count + 1, updatedAt := now.updatedAt, revision := seen.revision + 1)
  }

  function AgainDebounced(d: Debounce, now: Alert): Debounce {
    d.(lastSeenAt := RealMax(d.lastSeenAt, now.lastSeenAt), maxScore := RealMax(d.maxScore, now.maxScore), count := d.count + 1, revision := d.revision + 1)
  }

  function Numbered(events: map<Space, seq<Event>>, space: Space, e: Event): Event {
    e.(cursor := |Log(events, space)| + 1)
  }

  function Recorded(s: Store, c: Candidate): Store {
    var a := c.alert;
    match Repeated(s, c)
    case Some(k) =>
      if k in s.alerts && DebounceKey(c) in s.debounce then
        s.(alerts := s.alerts[k := Again(s.alerts[k], a)],
           debounce := s.debounce[DebounceKey(c) := AgainDebounced(s.debounce[DebounceKey(c)], a)])
      else s
    case None =>
      if Duplicated(s, c).Some? then s
      else
        Store(s.alerts[Key(a.space, a.id) := a],
              s.events[a.space := Log(s.events, a.space) + [Numbered(s.events, a.space, c.event)]],
              s.debounce[DebounceKey(c) := c.debounce.(lastAlert := Some(a.id))],
              s.idempotency[Key(a.space, a.idempotencyKey) := a.id])
  }

  // ----- triage

  predicate CanTriage(s: Store, k: Key, expected: int) {
    k in s.alerts && s.alerts[k].revision == expected && s.alerts[k].status == Pending
  }

  function Triaged(s: Store, alert: Alert, event: Event, expected: int): Store {
    var k := Key(alert.space, alert.id);
    if CanTriage(s, k, expected) then
      s.(alerts := s.alerts[k := alert.(revision := expected + 1)],
         events := s.events[alert.space := Log(s.events, alert.space) + [Numbered(s.events, alert.space, event)]])
    else s
  }

  // ----- reading the log

  /** Events past a cursor, in order, at most `limit` of them. */
  function Past(log: seq<Event>, cursor: int): seq<Event> {
    if log == [] then []
    else Past(log[..|log| - 1], cursor) + if log[|log| - 1].cursor > cursor then [log[|log| - 1]] else []
  }

  function FirstOf(s: seq<Event>, limit: nat): seq<Event> {
    if limit <= |s| then s[..limit] else s
  }

  class AlertRepository {
    var alerts: map<Key, Alert>
    var events: map<Space, seq<Event>>
    var debounce: map<Key, Debounce>
    var idempotency: map<Key, string>

    ghost function View(): Store
      reads this
    {
      Store(alerts, events, debounce, idempotency)
    }

    constructor ()
      ensures View() == EMPTY
    {
      alerts, events, debounce, idempotency := map[], map[], map[], map[];
    }

    method AppendEvent(space: Space, event: Event) returns (stored: Event)
      modifies this`events
      ensures stored == Numbered(old(events), space, event)
      ensures events == old(events)[space := Log(old(events), space) + [stored]]
    {
      if space !in events {
        events := events[space := []];
      }
      stored := event.(cursor := |events[space]| + 1);
      events := events[space := events[space] + [stored]];
    }

    /** Counts a repeat on the alert that is cooling down, returns a duplicate, or emits. */
    method RecordAlert(c: Candidate) returns (w: Written)
      modifies this
      ensures View() == Recorded(old(View()), c)
      ensures w.emitted <==> Emits(old(View()), c)
      ensures w.emitted ==> w.alert == c.alert && w.event == Some(Numbered(old(events), c.alert.space, c.event))
      ensures !w.emitted ==> w.event.None?
      ensures !w.emitted && Repeated(old(View()), c).None? ==> w.alert == old(alerts)[Duplicated(old(View()), c).value]
      ensures Repeated(old(View()), c).Some? ==> w.alert == Again(old(alerts)[Repeated(old(View()), c).value], c.alert)
    {
      var alert := c.alert;
      var debounceKey := Key(alert.space, c.debounce.key);
      if debounceKey in debounce {
        var state := debounce[debounceKey];
        if state.cooldownUntil > alert.triggeredAt && state.lastAlert.Some? {
          var k := Key(alert.space, state.lastAlert.value);
          if k in alerts {
            var updated := Again(alerts[k], alert);
            alerts := alerts[k := updated];
            debounce := debounce[debounceKey := AgainDebounced(state, alert)];
            return Written(updated, None, false);
          }
        }
      }
      var idempotencyKey := Key(alert.space, alert.idempotencyKey);
      if idempotencyKey in idempotency {
        var k := Key(alert.space, idempotency[idempotencyKey]);
        if k in alerts {
          return Written(alerts[k], None, false);
        }
      }
      alerts := alerts[Key(alert.space, alert.id) := alert];
      idempotency := idempotency[idempotencyKey := alert.id];
      var event := AppendEvent(alert.space, c.event);
      debounce := debounce[debounceKey := c.debounce.(lastAlert := Some(alert.id))];
      return Written(alert, Some(event), true);
    }

    /** Stores a triaged alert if nobody changed it since the expected revision. */
    method TriageAlert(alert: Alert, event: Event, expected: int) returns (r: Result)
      modifies this`alerts, this`events
      ensures View() == Triaged(old(View()), alert, event, expected)
      ensures r.Ok? <==> CanTriage(old(View()), Key(alert.space, alert.id), expected)
      ensures r.Ok? ==> r.written == Written(alert.(revision := expected + 1), Some(Numbered(old(events), alert.space, event)), true)
    {
      var k := Key(alert.space, alert.id);
      if k !in alerts {
        return Conflict("alert does not exist");
      }
      if alerts[k].revision != expected {
        return Conflict("alert revision conflict");
      }
      if alerts[k].status != Pending {
        return Conflict("alert has already been triaged");
      }
      var stored := alert.(revision := expected + 1);
      alerts := alerts[k := stored];
      var storedEvent := AppendEvent(stored.space, event);
      return Ok(Written(stored, Some(storedEvent), true));
    }

    method EventsAfter(space: Space, cursor: int, limit: nat) returns (r: seq<Event>)
      ensures r == FirstOf(Past(Log(events, space), cursor), limit)
    {
      var log := if space in events then events[space] else [];
      var found: seq<Event> := [];
      for i := 0 to |log|
        invariant found == Past(log[..i], cursor)
      {
        assert log[..i + 1][..i] == log[..i];
        if log[i].cursor > cursor {
          found := found + [log[i]];
        }
      }
      assert log[..|log|] == log;
      r := if limit <= |found| then found[..limit] else found;
    }
  }

  // ----- what every write keeps

  ghost predicate Cursors(log: seq<Event>) {
    forall i | 0 <= i < |log| :: log[i].cursor == i + 1
  }

  ghost predicate Keyed(alerts: map<Key, Alert>) {
    forall k | k in alerts :: alerts[k].space == k.space && alerts[k].id == k.id
  }

  ghost predicate Debounced(debounce: map<Key, Debounce>, alerts: map<Key, Alert>) {
    forall k | k in debounce :: debounce[k].lastAlert.Some? && Key(k.space, debounce[k].lastAlert.value) in alerts
  }

  ghost predicate Entries(idempotency: map<Key, string>, alerts: map<Key, Alert>) {
    forall k | k in idempotency :: Key(k.space, idempotency[k]) in alerts
  }

  predicate Indexed(idempotency: map<Key, string>, k: Key, a: Alert) {
    Key(k.space, a.idempotencyKey) in idempotency && idempotency[Key(k.space, a.idempotencyKey)] == k.id
  }

  ghost predicate AllIndexed(idempotency: map<Key, string>, alerts: map<Key, Alert>) {
    forall k | k in alerts :: Indexed(idempotency, k, alerts[k])
  }

  ghost predicate Logs(events: map<Space, seq<Event>>) {
    forall space | space in events :: Cursors(events[space])
  }

  /** Keys lead to alerts, alerts to their idempotency entries, and logs are numbered from one. */
  ghost predicate Sound(s: Store) {
    && Keyed(s.alerts) && Debounced(s.debounce, s.alerts) && Entries(s.idempotency, s.alerts)
    && AllIndexed(s.idempotency, s.alerts) && Logs(s.events)
  }

  lemma {:induction false} AppendKeepsLogs(events: map<Space, seq<Event>>, space: Space, e: Event)
    requires Logs(events)
    ensures Logs(events[space := Log(events, space) + [Numbered(events, space, e)]])
  {
    assert Cursors(Log(events, space));
  }

  lemma {:induction false} EmitIndexes(idempotency: map<Key, string>, alerts: map<Key, Alert>, a: Alert)
    requires AllIndexed(idempotency, alerts) && Key(a.space, a.idempotencyKey) !in idempotency
    ensures AllIndexed(idempotency[Key(a.space, a.idempotencyKey) := a.id], alerts[Key(a.space, a.id) := a])
  {
    var more := alerts[Key(a.space, a.id) := a];
    forall k | k in more ensures Indexed(idempotency[Key(a.space, a.idempotencyKey) := a.id], k, more[k]) {
      assert k == Key(a.space, a.id) || Indexed(idempotency, k, alerts[k]);
    }
  }

  lemma {:induction false} EmitSound(s: Store, c: Candidate)
    requires Sound(s) && Emits(s, c)
    ensures Sound(Recorded(s, c))
  {
    var a := c.alert;
    assert Key(a.space, a.idempotencyKey) !in s.idempotency by {
      assert Duplicated(s, c).None?;
    }
    EmitIndexes(s.idempotency, s.alerts, a);
    AppendKeepsLogs(s.events, a.space, c.event);
  }

  lemma {:induction false} ReplaceSound(s: Store, k: Key, a: Alert, debounce: map<Key, Debounce>)
    requires Sound(s) && k in s.alerts && a.space == k.space && a.id == k.id && a.idempotencyKey == s.alerts[k].idempotencyKey
    requires Debounced(debounce, s.alerts)
    ensures Sound(s.(alerts := s.alerts[k := a], debounce := debounce))
  {
    assert Indexed(s.idempotency, k, s.alerts[k]);
  }

  lemma {:induction false} RecordSound(s: Store, c: Candidate)
    requires Sound(s)
    ensures Sound(Recorded(s, c))
  {
    if Emits(s, c) {
      EmitSound(s, c);
    } else if Repeated(s, c).Some? {
      var k, d := Repeated(s, c).value, DebounceKey(c);
      ReplaceSound(s, k, Again(s.alerts[k], c.alert), s.debounce[d := AgainDebounced(s.debounce[d], c.alert)]);
    }
  }

  lemma {:induction false} TriageSound(s: Store, alert: Alert, event: Event, expected: int)
    requires Sound(s)
    requires var k := Key(alert.space, alert.id); k in s.alerts ==> s.alerts[k].idempotencyKey == alert.idempotencyKey
    ensures Sound(Triaged(s, alert, event, expected))
  {
    var k := Key(alert.space, alert.id);
    if CanTriage(s, k, expected) {
      ReplaceSound(s, k, alert.(revision := expected + 1), s.debounce);
      AppendKeepsLogs(s.events, alert.space, event);
    }
  }

  /** No two alerts of the store share an idempotency key. */
  lemma {:induction false} IdempotencyKeysDiffer(s: Store, a: Key, b: Key)
    requires Sound(s) && a in s.alerts && b in s.alerts && a.space == b.space && a != b
    ensures s.alerts[a].idempotencyKey != s.alerts[b].idempotencyKey
  {
    assert Indexed(s.idempotency, a, s.alerts[a]) && Indexed(s.idempotency, b, s.alerts[b]);
  }
}
