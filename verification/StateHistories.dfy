/** Histories of the state store: any interleaving of its operations. */
module StateHistories {
  import opened Keys
  import opened StateStore
  import opened Orders

  datatype Op =
    | Create(run: Run, key: string, hash: string)
    | Delete(runKey: Key)
    | Save(saved: Run, expected: int)
    | Append(target: Key, event: RunEvent)
    | Enqueue(added: map<Key, Delivery>)
    | Forget(endpoint: string, space: Space)
    | Claim(before: real, until: real, limit: nat, claimed: seq<Delivery>)
    | Deliver(delivery: Delivery)

  /** Removing an endpoint removes its deliveries. */
  function AfterForget(s: Store, endpoint: string, space: Space): Store {
    s.(deliveries := map k | k in s.deliveries && !(s.deliveries[k].endpoint == endpoint && s.deliveries[k].space == space) :: s.deliveries[k])
  }

  function After(s: Store, op: Op): Store {
    match op
    case Create(run, key, hash) => AfterCreation(s, run, key, hash)
    case Delete(k) => AfterDeletion(s, k)
    case Save(run, expected) => AfterSave(s, run, expected)
    case Append(k, event) => AfterEvent(s, k, event)
    case Enqueue(added) => s.(deliveries := s.deliveries + added)
    case Forget(endpoint, space) => AfterForget(s, endpoint, space)
    case Claim(before, until, limit, claimed) => s.(deliveries := AfterClaim(s.deliveries, claimed, before, until))
    case Deliver(d) => AfterDelivery(s, d)
  }

  /** Claims take what the store offers, and new deliveries have names never used before. */
  ghost predicate Performs(states: seq<Store>, i: nat, op: Op)
    requires i + 1 < |states|
  {
    && states[i + 1] == After(states[i], op)
    && (op.Claim? ==> Claims(states[i].deliveries, op.before, op.limit, op.claimed))
    && (op.Enqueue? ==> Keyed(op.added) && forall k, j | k in op.added && 0 <= j <= i :: k !in states[j].deliveries)
  }

  ghost predicate IsHistory(states: seq<Store>, ops: seq<Op>) {
    && |states| == |ops| + 1 && states[0] == EMPTY
    && forall i {:trigger Performs(states, i, ops[i])} | 0 <= i < |ops| :: Performs(states, i, ops[i])
  }

  lemma {:induction false} StepOf(states: seq<Store>, ops: seq<Op>, i: nat)
    requires IsHistory(states, ops) && i < |ops|
    ensures Performs(states, i, ops[i])
  {
  }

  // ----- what every operation keeps

  ghost predicate Numbered(events: seq<RunEvent>) {
    forall i | 0 <= i < |events| :: events[i].id == i + 1
  }

  ghost predicate Entries(s: Store) {
    forall k | k in s.idempotency :: Key(k.space, s.idempotency[k].run) in s.runs
  }

  /** Idempotency entries lead to runs, and runs have an event list numbered from one and are
      stored under their own names. */
  ghost predicate RunsSound(s: Store) {
    && Entries(s) && s.events.Keys == s.runs.Keys && (forall k | k in s.events :: Numbered(s.events[k]))
    && (forall k | k in s.runs :: KeyOf(s.runs[k]) == k)
  }

  /** So are deliveries. */
  ghost predicate Sound(s: Store) {
    RunsSound(s) && Keyed(s.deliveries)
  }

  lemma {:induction false} CreationSound(s: Store, run: Run, key: string, hash: string)
    requires RunsSound(s)
    ensures RunsSound(AfterCreation(s, run, key, hash))
  {
  }

  lemma {:induction false} DeletionSound(s: Store, k: Key)
    requires RunsSound(s)
    ensures RunsSound(AfterDeletion(s, k))
  {
  }

  lemma {:induction false} RunStepSound(s: Store, op: Op)
    requires RunsSound(s)
    ensures RunsSound(After(s, op))
  {
    if op.Create? {
      CreationSound(s, op.run, op.key, op.hash);
    } else if op.Delete? {
      DeletionSound(s, op.runKey);
    }
  }

  lemma {:induction false} DeliveryStepSound(s: Store, op: Op)
    requires Keyed(s.deliveries) && (op.Enqueue? ==> Keyed(op.added))
    ensures Keyed(After(s, op).deliveries)
  {
  }

  lemma {:induction false} StepSound(s: Store, op: Op)
    requires Sound(s) && (op.Enqueue? ==> Keyed(op.added))
    ensures Sound(After(s, op))
  {
    RunStepSound(s, op);
    DeliveryStepSound(s, op);
  }

  lemma {:induction false} HistorySound(states: seq<Store>, ops: seq<Op>, i: nat)
    requires IsHistory(states, ops) && i < |states|
    ensures Sound(states[i])
  {
    if i > 0 {
      HistorySound(states, ops, i - 1);
      StepOf(states, ops, i - 1);
      StepSound(states[i - 1], ops[i - 1]);
    }
  }

  // ----- idempotent creation

  ghost predicate NoDelete(ops: seq<Op>, k: Key, i: nat, j: nat) {
    forall t | i <= t < j && t < |ops| :: ops[t] != Delete(k)
  }

  lemma {:induction false} EntryStep(s: Store, op: Op, k: Key, e: Entry)
    requires k in s.idempotency && s.idempotency[k] == e && op != Delete(Key(k.space, e.run))
    ensures k in After(s, op).idempotency && After(s, op).idempotency[k] == e
  {
  }

  /** An entry lasts until its run is deleted. */
  lemma {:induction false} EntryLasts(states: seq<Store>, ops: seq<Op>, i: nat, j: nat, k: Key, e: Entry)
    requires IsHistory(states, ops) && i <= j < |states| && k in states[i].idempotency && states[i].idempotency[k] == e
    requires NoDelete(ops, Key(k.space, e.run), i, j)
    ensures k in states[j].idempotency && states[j].idempotency[k] == e
  {
    if i < j {
      EntryLasts(states, ops, i, j - 1, k, e);
      StepOf(states, ops, j - 1);
      EntryStep(states[j - 1], ops[j - 1], k, e);
    }
  }

  /** Until the run is deleted, the same request returns it and changes nothing, and another
      request under the same key is refused. */
  lemma {:induction false} ReplayReturnsRun(states: seq<Store>, ops: seq<Op>, i: nat, j: nat, again: Run, hash: string)
    requires IsHistory(states, ops) && i < j < |states| && ops[i].Create? && again.space == ops[i].run.space
    requires Creation(states[i], ops[i].run, ops[i].key, ops[i].hash) == Created(ops[i].run, true)
    requires NoDelete(ops, KeyOf(ops[i].run), i + 1, j)
    ensures KeyOf(ops[i].run) in states[j].runs
    ensures AfterCreation(states[j], again, ops[i].key, hash) == states[j]
    ensures if hash == ops[i].hash then Creation(states[j], again, ops[i].key, hash) == Created(states[j].runs[KeyOf(ops[i].run)], false)
            else Creation(states[j], again, ops[i].key, hash).Conflict?
  {
    var (k, e) := (Key(ops[i].run.space, ops[i].key), Entry(ops[i].hash, ops[i].run.id));
    StepOf(states, ops, i);
    assert states[i + 1].idempotency[k] == e;
    EntryLasts(states, ops, i + 1, j, k, e);
    HistorySound(states, ops, j);
  }

  /** After the deletion of a run its keys make new runs again. */
  lemma {:induction false} DeletionFrees(states: seq<Store>, ops: seq<Op>, i: nat, k: Key, run: Run, hash: string)
    requires IsHistory(states, ops) && i < |ops| && ops[i].Delete? && k in states[i].idempotency
    requires ops[i].runKey == Key(k.space, states[i].idempotency[k].run)
    requires run.space == k.space && (KeyOf(run) !in states[i].runs || KeyOf(run) == ops[i].runKey)
    ensures Creation(states[i + 1], run, k.id, hash) == Created(run, true)
  {
    StepOf(states, ops, i);
  }

  // ----- optimistic updates

  lemma {:induction false} RevisionStep(s: Store, op: Op, k: Key)
    requires Sound(s) && k in s.runs && op != Delete(k)
    ensures k in After(s, op).runs && s.runs[k].revision <= After(s, op).runs[k].revision
    ensures op.Save? && KeyOf(op.saved) == k && CanSave(s, k, op.expected) ==> s.runs[k].revision < After(s, op).runs[k].revision
  {
  }

  lemma {:induction false} RevisionsGrow(states: seq<Store>, ops: seq<Op>, i: nat, j: nat, k: Key)
    requires IsHistory(states, ops) && i <= j < |states| && k in states[i].runs && NoDelete(ops, k, i, j)
    ensures k in states[j].runs && states[i].runs[k].revision <= states[j].runs[k].revision
  {
    if i < j {
      RevisionsGrow(states, ops, i, j - 1, k);
      StepOf(states, ops, j - 1);
      HistorySound(states, ops, j - 1);
      RevisionStep(states[j - 1], ops[j - 1], k);
    }
  }

  /** Of two saves that expect the same revision of a run, the later one is refused. */
  lemma {:induction false} NoLostUpdate(states: seq<Store>, ops: seq<Op>, i: nat, j: nat)
    requires IsHistory(states, ops) && i < j < |ops| && ops[i].Save? && ops[j].Save?
    requires KeyOf(ops[i].saved) == KeyOf(ops[j].saved) && ops[i].expected == ops[j].expected
    requires CanSave(states[i], KeyOf(ops[i].saved), ops[i].expected) && NoDelete(ops, KeyOf(ops[i].saved), i, j)
    ensures !CanSave(states[j], KeyOf(ops[j].saved), ops[j].expected) && states[j + 1] == states[j]
  {
    var k := KeyOf(ops[i].saved);
    StepOf(states, ops, i);
    StepOf(states, ops, j);
    HistorySound(states, ops, i);
    RevisionStep(states[i], ops[i], k);
    RevisionsGrow(states, ops, i + 1, j, k);
  }

  // ----- leases

  predicate Takes(op: Op, k: Key) {
    op.Claim? && exists d :: d in op.claimed && KeyFor(d) == k
  }

  /** From step i to step j the delivery is neither saved nor claimed. */
  ghost predicate LeftAlone(ops: seq<Op>, k: Key, i: nat, j: nat) {
    forall t | i <= t < j && t < |ops| :: (ops[t].Deliver? ==> KeyFor(ops[t].delivery) != k) && !Takes(ops[t], k)
  }

  ghost predicate UnderLease(s: Store, k: Key, until: real) {
    k in s.deliveries ==> s.deliveries[k].nextAttemptAt == until
  }

  lemma {:induction false} LeaseStep(s: Store, op: Op, k: Key, until: real)
    requires UnderLease(s, k, until) && Keyed(s.deliveries) && !Takes(op, k)
    requires op.Deliver? ==> KeyFor(op.delivery) != k
    requires op.Enqueue? ==> k !in op.added
    ensures UnderLease(After(s, op), k, until)
  {
    assert op.Claim? && k in s.deliveries ==> s.deliveries[k] !in op.claimed;
  }

  lemma {:induction false} LeaseLasts(states: seq<Store>, ops: seq<Op>, i: nat, j: nat, k: Key, until: real)
    requires IsHistory(states, ops) && i <= j < |states| && k in states[i].deliveries && states[i].deliveries[k].nextAttemptAt == until
    requires LeftAlone(ops, k, i, j)
    ensures UnderLease(states[j], k, until)
  {
    if i < j {
      LeaseLasts(states, ops, i, j - 1, k, until);
      StepOf(states, ops, j - 1);
      HistorySound(states, ops, j - 1);
      LeaseStep(states[j - 1], ops[j - 1], k, until);
    }
  }

  /** A delivery that was not saved in between is claimed again only by a claim whose clock has
      reached the end of the lease. */
  lemma {:induction false} NotClaimedTwice(states: seq<Store>, ops: seq<Op>, i: nat, j: nat, k: Key)
    requires IsHistory(states, ops) && i < j < |ops| && Takes(ops[i], k) && Takes(ops[j], k) && LeftAlone(ops, k, i + 1, j)
    ensures ops[j].before >= ops[i].until
  {
    StepOf(states, ops, i);
    StepOf(states, ops, j);
    HistorySound(states, ops, i);
    var d :| d in ops[i].claimed && KeyFor(d) == k;
    assert Holds(states[i].deliveries, d);
    LeaseLasts(states, ops, i + 1, j, k, ops[i].until);
    var e :| e in ops[j].claimed && KeyFor(e) == k;
    assert Holds(states[j].deliveries, e) && Due(e, ops[j].before);
  }

  // ----- what claims and saves do, told from the stored fields

  /** Waiting to be delivered, and its time has come. */
  predicate Awaits(d: Delivery, before: real) {
    (d.status == Pending || d.status == Delivering) && d.nextAttemptAt <= before
  }

  /** Attempted later, or at the same time and created later, or under a later id. */
  predicate NotSooner(a: Delivery, b: Delivery) {
    || a.nextAttemptAt > b.nextAttemptAt
    || (a.nextAttemptAt == b.nextAttemptAt && a.createdAt > b.createdAt)
    || (a.nextAttemptAt == b.nextAttemptAt && a.createdAt == b.createdAt && !StringLess(a.id, b.id))
  }

  lemma {:induction false} NotSoonerIff(a: Delivery, b: Delivery)
    ensures NotSooner(a, b) <==> !Sooner(a, b)
  {
  }

  /** Over every history: a claim takes deliveries that await it and puts them under the lease, in
      the order of their attempts, and leaves an awaiting one only when its limit is reached by
      others no later. */
  lemma {:induction false} ClaimsAreDue(states: seq<Store>, ops: seq<Op>, i: nat, k: Key)
    requires IsHistory(states, ops) && i < |ops| && ops[i].Claim? && k in states[i].deliveries
    ensures k in states[i + 1].deliveries
    ensures var (d, d', op) := (states[i].deliveries[k], states[i + 1].deliveries[k], ops[i]);
      if Takes(op, k) then Awaits(d, op.before) && d' == d.(status := Delivering, nextAttemptAt := op.until, updatedAt := op.before)
      else d' == d && (Awaits(d, op.before) ==> |op.claimed| == op.limit && forall c | c in op.claimed :: NotSooner(d, c))
    ensures |ops[i].claimed| <= ops[i].limit && forall a, b | 0 <= a < b < |ops[i].claimed| :: NotSooner(ops[i].claimed[b], ops[i].claimed[a])
  {
    StepOf(states, ops, i);
    HistorySound(states, ops, i);
    var (d, op) := (states[i].deliveries[k], ops[i]);
    assert KeyFor(d) == k && Holds(states[i].deliveries, d);
    if Takes(op, k) {
      var c :| c in op.claimed && KeyFor(c) == k;
      assert Holds(states[i].deliveries, c);
    } else if Awaits(d, op.before) {
      forall c | c in op.claimed ensures NotSooner(d, c) {
        NotSoonerIff(d, c);
      }
    }
    forall a, b | 0 <= a < b < |op.claimed| ensures NotSooner(op.claimed[b], op.claimed[a]) {
      NotSoonerIff(op.claimed[b], op.claimed[a]);
    }
  }

  /** Over every history: a save at the current revision stores what it was given under the next
      revision, any other save changes nothing, and no save touches anything else. */
  lemma {:induction false} SavesAreStored(states: seq<Store>, ops: seq<Op>, i: nat)
    requires IsHistory(states, ops) && i < |ops| && ops[i].Save?
    ensures var (s, s', run, expected) := (states[i], states[i + 1], ops[i].saved, ops[i].expected);
      && s'.events == s.events && s'.idempotency == s.idempotency && s'.deliveries == s.deliveries && s'.runs.Keys == s.runs.Keys
      && (forall k | k in s.runs && k != KeyOf(run) :: s'.runs[k] == s.runs[k])
      && (KeyOf(run) in s.runs ==>
            s'.runs[KeyOf(run)] == if s.runs[KeyOf(run)].revision == expected then Run(run.id, run.space, expected + 1, run.body) else s.runs[KeyOf(run)])
  {
    StepOf(states, ops, i);
  }
}
