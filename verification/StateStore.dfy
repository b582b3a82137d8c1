/** The in-memory state store: idempotent creation of runs, optimistic updates, numbered run
    events and webhook deliveries claimed under a lease. */
module StateStore {
  import opened Orders
  import opened Keys
  import opened Sorting
  import opened Sums

  datatype Run = Run(id: string, space: Space, revision: int, body: string)
  datatype RunEvent = RunEvent(id: int, kind: string)

  /** The request an idempotency key was used for, and the run it made. */
  datatype Entry = Entry(hash: string, run: string)

  datatype Status = Pending | Delivering | Delivered | DeadLetter
  datatype Delivery = Delivery(id: string, space: Space, endpoint: string, status: Status, nextAttemptAt: real, createdAt: real, updatedAt: real)

  datatype Outcome = Created(run: Run, isNew: bool) | Conflict(reason: string)
  datatype Saved = Saved(run: Run) | SaveConflict(reason: string)
  datatype Appended = Appended(event: RunEvent) | NoRun

  datatype Store = Store(runs: map<Key, Run>, events: map<Key, seq<RunEvent>>, idempotency: map<Key, Entry>, deliveries: map<Key, Delivery>)

  const EMPTY := Store(map[], map[], map[], map[])

  function KeyOf(run: Run): Key {
    Key(run.space, run.id)
  }

  // ----- what the operations do

  function Creation(s: Store, run: Run, key: string, hash: string): Outcome {
    var k := Key(run.space, key);
    if k in s.idempotency then
      if s.idempotency[k].hash != hash then Conflict("idempotency key was already used for a different request")
      else if Key(run.space, s.idempotency[k].run) in s.runs then Created(s.runs[Key(run.space, s.idempotency[k].run)], false)
      else Conflict("missing run")
    else if KeyOf(run) in s.runs then Conflict("run already exists")
    else Created(run, true)
  }

  function AfterCreation(s: Store, run: Run, key: string, hash: string): Store {
    if Creation(s, run, key, hash) == Created(run, true) then
      s.(runs := s.runs[KeyOf(run) := run], events := s.events[KeyOf(run) := []],
         idempotency := s.idempotency[Key(run.space, key) := Entry(hash, run.id)])
    else s
  }

  predicate Stale(k: Key, e: Entry, run: Key) {
    k.space == run.space && e.run == run.id
  }

  function AfterDeletion(s: Store, run: Key): Store {
    s.(runs := s.runs - {run}, events := s.events - {run},
       idempotency := map k | k in s.idempotency && !Stale(k, s.idempotency[k], run) :: s.idempotency[k])
  }

  predicate CanSave(s: Store, k: Key, expected: int) {
    k in s.runs && s.runs[k].revision == expected
  }

  function AfterSave(s: Store, run: Run, expected: int): Store {
    if CanSave(s, KeyOf(run), expected) then s.(runs := s.runs[KeyOf(run) := run.(revision := expected + 1)]) else s
  }

  function AfterEvent(s: Store, k: Key, event: RunEvent): Store {
    if k in s.events then s.(events := s.events[k := s.events[k] + [event.(id := |s.events[k]| + 1)]]) else s
  }

  // ----- claiming deliveries

  predicate Sooner(a: Delivery, b: Delivery) {
    || a.nextAttemptAt < b.nextAttemptAt
    || (a.nextAttemptAt == b.nextAttemptAt && (a.createdAt < b.createdAt || (a.createdAt == b.createdAt && StringLess(a.id, b.id))))
  }

  lemma {:induction false} SoonerIsOrder()
    ensures WeakOrder(Sooner)
  {
    forall a, b | Sooner(a, b) ensures !Sooner(b, a) {
      StringOrder(a.id, b.id, a.id);
    }
    forall a, b, c | !Sooner(a, b) && !Sooner(b, c) ensures !Sooner(a, c) {
      StringOrder(a.id, b.id, c.id);
    }
  }

  predicate Due(d: Delivery, before: real) {
    (d.status == Pending || d.status == Delivering) && d.nextAttemptAt <= before
  }

  function Leased(d: Delivery, before: real, until: real): Delivery {
    d.(status := Delivering, nextAttemptAt := until, updatedAt := before)
  }

  function KeyFor(d: Delivery): Key {
    Key(d.space, d.id)
  }

  predicate Holds(deliveries: map<Key, Delivery>, d: Delivery) {
    KeyFor(d) in deliveries && deliveries[KeyFor(d)] == d
  }

  /** The claimed deliveries are the `limit` most urgent due ones in order, or all of them. */
  ghost predicate Claims(deliveries: map<Key, Delivery>, before: real, limit: nat, claimed: seq<Delivery>) {
    && (forall d | d in claimed :: Holds(deliveries, d) && Due(d, before))
    && Distinct(claimed) && |claimed| <= limit && Ordered(Sooner, claimed)
    && forall d | Holds(deliveries, d) && Due(d, before) && d !in claimed ::
         |claimed| == limit && forall c | c in claimed :: !Sooner(d, c)
  }

  function AfterClaim(deliveries: map<Key, Delivery>, claimed: seq<Delivery>, before: real, until: real): map<Key, Delivery> {
    map k | k in deliveries :: if deliveries[k] in claimed then Leased(deliveries[k], before, until) else deliveries[k]
  }

  function AfterDelivery(s: Store, d: Delivery): Store {
    if Key(d.space, d.id) in s.deliveries then s.(deliveries := s.deliveries[Key(d.space, d.id) := d]) else s
  }

  ghost predicate Keyed(deliveries: map<Key, Delivery>) {
    forall k | k in deliveries :: KeyFor(deliveries[k]) == k
  }

  class MemoryStateStore {
    var runs: map<Key, Run>
    var events: map<Key, seq<RunEvent>>
    var idempotency: map<Key, Entry>
    var deliveries: map<Key, Delivery>

    ghost function View(): Store
      reads this
    {
      Store(runs, events, idempotency, deliveries)
    }

    constructor ()
      ensures View() == EMPTY
    {
      runs, events, idempotency, deliveries := map[], map[], map[], map[];
    }

    method CreateRunIdempotent(run: Run, key: string, hash: string) returns (r: Outcome)
      requires forall k | k in idempotency :: Key(k.space, idempotency[k].run) in runs
      modifies this
      ensures r == Creation(old(View()), run, key, hash) && View() == AfterCreation(old(View()), run, key, hash)
    {
      var entry := Key(run.space, key);
      if entry in idempotency {
        if idempotency[entry].hash != hash {
          return Conflict("idempotency key was already used for a different request");
        }
        return Created(runs[Key(run.space, idempotency[entry].run)], false);
      }
      if KeyOf(run) in runs {
        return Conflict("run already exists");
      }
      runs := runs[KeyOf(run) := run];
      events := events[KeyOf(run) := []];
      idempotency := idempotency[entry := Entry(hash, run.id)];
      return Created(run, true);
    }

    method DeleteRun(run: Key)
      modifies this
      ensures View() == AfterDeletion(old(View()), run)
    {
      runs := runs - {run};
      events := events - {run};
      var stale := set k | k in idempotency && Stale(k, idempotency[k], run);
      while stale != {}
        invariant runs == old(runs) - {run} && events == old(events) - {run} && deliveries == old(deliveries)
        invariant forall k :: k in idempotency <==> k in old(idempotency) && (k in stale || !Stale(k, old(idempotency)[k], run))
        invariant forall k | k in idempotency :: idempotency[k] == old(idempotency)[k]
        invariant forall k | k in stale :: k in idempotency && Stale(k, idempotency[k], run)
        decreases |stale|
      {
        var k :| k in stale;
        idempotency := idempotency - {k};
        stale := stale - {k};
      }
      assert idempotency == AfterDeletion(old(View()), run).idempotency;
    }

    method SaveRun(run: Run, expected: int) returns (r: Saved)
      modifies this`runs
      ensures View() == AfterSave(old(View()), run, expected)
      ensures r.Saved? <==> CanSave(old(View()), KeyOf(run), expected)
      ensures r.Saved? ==> r.run == run.(revision := expected + 1)
    {
      if KeyOf(run) !in runs {
        return SaveConflict("run does not exist");
      }
      if runs[KeyOf(run)].revision != expected {
        return SaveConflict("run revision conflict");
      }
      var saved := run.(revision := expected + 1);
      runs := runs[KeyOf(run) := saved];
      return Saved(saved);
    }

    method AppendEvent(k: Key, event: RunEvent) returns (r: Appended)
      modifies this`events
      ensures View() == AfterEvent(old(View()), k, event)
      ensures r.Appended? <==> k in old(events)
      ensures r.Appended? ==> r.event.id == |old(events)[k]| + 1 && r.event.kind == event.kind
    {
      if k !in events {
        return NoRun;
      }
      var stored := event.(id := |events[k]| + 1);
      events := events[k := events[k] + [stored]];
      return Appended(stored);
    }

    method SaveWebhookDelivery(d: Delivery) returns (ok: bool)
      modifies this`deliveries
      ensures View() == AfterDelivery(old(View()), d) && (ok <==> Key(d.space, d.id) in old(deliveries))
    {
      ok := Key(d.space, d.id) in deliveries;
      if ok {
        deliveries := deliveries[Key(d.space, d.id) := d];
      }
    }

    /** Collects the due deliveries, in any order. */
    method DueItems(before: real) returns (due: seq<Delivery>)
      requires Keyed(deliveries)
      ensures Distinct(due) && forall d :: d in due <==> Holds(deliveries, d) && Due(d, before)
    {
      due := [];
      var left := deliveries.Keys;
      while left != {}
        invariant left <= deliveries.Keys && Distinct(due)
        invariant forall d :: d in due <==> Holds(deliveries, d) && KeyFor(d) !in left && Due(d, before)
        decreases |left|
      {
        var k :| k in left;
        left := left - {k};
        assert KeyFor(deliveries[k]) == k;
        if Due(deliveries[k], before) {
          due := due + [deliveries[k]];
        }
      }
    }

    /** Puts the most urgent due deliveries under a lease. */
    method ClaimWebhookDeliveries(before: real, until: real, limit: nat) returns (r: seq<Delivery>, ghost claimed: seq<Delivery>)
      requires Keyed(deliveries)
      modifies this`deliveries
      ensures Claims(old(deliveries), before, limit, claimed)
      ensures deliveries == AfterClaim(old(deliveries), claimed, before, until) && Keyed(deliveries)
      ensures |r| == |claimed| && forall i | 0 <= i < |r| :: r[i] == Leased(claimed[i], before, until)
    {
      var due := DueItems(before);
      var sorted := SortBy(Sooner, due);
      var first := if limit <= |sorted| then sorted[..limit] else sorted;
      TakesMostUrgent(deliveries, before, limit, due, first);
      claimed := first;
      r := Lease(first, before, until);
    }

    method Lease(claimed: seq<Delivery>, before: real, until: real) returns (r: seq<Delivery>)
      requires Keyed(deliveries) && Distinct(claimed) && forall d | d in claimed :: Holds(deliveries, d)
      modifies this`deliveries
      ensures deliveries == AfterClaim(old(deliveries), claimed, before, until) && Keyed(deliveries)
      ensures |r| == |claimed| && forall i | 0 <= i < |r| :: r[i] == Leased(claimed[i], before, until)
    {
      ghost var was := deliveries;
      r := [];
      for i := 0 to |claimed|
        invariant deliveries == AfterClaim(was, claimed[..i], before, until)
        invariant |r| == i && forall j | 0 <= j < i :: r[j] == Leased(claimed[j], before, until)
      {
        var updated := Leased(claimed[i], before, until);
        ClaimStep(was, claimed, i, before, until);
        deliveries := deliveries[KeyFor(claimed[i]) := updated];
        r := r + [updated];
      }
      assert claimed[..|claimed|] == claimed;
    }
  }

  lemma {:induction false} ClaimStep(was: map<Key, Delivery>, claimed: seq<Delivery>, i: nat, before: real, until: real)
    requires Keyed(was) && i < |claimed| && Holds(was, claimed[i])
    ensures AfterClaim(was, claimed[..i + 1], before, until)
         == AfterClaim(was, claimed[..i], before, until)[KeyFor(claimed[i]) := Leased(claimed[i], before, until)]
  {
    assert claimed[..i + 1] == claimed[..i] + [claimed[i]];
  }

  lemma {:induction false} TakesMostUrgent(deliveries: map<Key, Delivery>, before: real, limit: nat, due: seq<Delivery>, claimed: seq<Delivery>)
    requires Distinct(due) && forall d :: d in due <==> Holds(deliveries, d) && Due(d, before)
    requires var sorted := SortBy(Sooner, due); claimed == if limit <= |sorted| then sorted[..limit] else sorted
    ensures Claims(deliveries, before, limit, claimed)
  {
    var sorted := SortBy(Sooner, due);
    SoonerIsOrder();
    SortByOrders(Sooner, due);
    SortByDistinct(Sooner, due);
    forall d | Holds(deliveries, d) && Due(d, before) && d !in claimed
      ensures |claimed| == limit && forall c | c in claimed :: !Sooner(d, c)
    {
      assert d in sorted;
      var j :| 0 <= j < |sorted| && sorted[j] == d;
      forall c | c in claimed ensures !Sooner(d, c) {
        var i :| 0 <= i < |claimed| && claimed[i] == c;
        assert sorted[i] == c && i < j;
      }
    }
  }
}
