/** Histories of the alert store: any interleaving of recorded candidates and triage. A caller
    who triages has read the alert at some earlier moment and sends back its copy, together
    with the revision it expects. */
module AlertHistories {
  import opened Options
  import opened Orders
  import opened Keys
  import opened AlertStore

  datatype Op =
    | Record(candidate: Candidate)
    | Triage(key: Key, read: nat, status: Status, now: real, expected: int, event: Event)

  /** The copy that is sent back: what was read, with the verdict. */
  function Verdict(a: Alert, status: Status, now: real): Alert {
    a.(status := status, updatedAt := now)
  }

  ghost predicate Performs(states: seq<Store>, i: nat, op: Op)
    requires i + 1 < |states|
  {
    match op
    case Record(c) =>
      && Key(c.alert.space, c.alert.id) !in states[i].alerts && c.alert.status == Pending
      && states[i + 1] == Recorded(states[i], c)
    case Triage(k, read, status, now, expected, event) =>
      && read <= i && k in states[read].alerts && states[read].alerts[k].status == Pending && status != Pending
      && states[i + 1] == Triaged(states[i], Verdict(states[read].alerts[k], status, now), event, expected)
  }

  ghost predicate IsHistory(states: seq<Store>, ops: seq<Op>) {
    && |states| == |ops| + 1 && states[0] == EMPTY
    && forall i {:trigger Performs(states, i, ops[i])} | 0 <= i < |ops| :: Performs(states, i, ops[i])
  }

  lemma {:induction false} StepOf(states: seq<Store>, ops: seq<Op>, i: nat)
    requires IsHistory(states, ops) && i < |ops|
    ensures Performs(states, i, ops[i])
  {
  }

  // ----- one step

  /** What never changes about an alert. */
  ghost predicate Lives(s: Store, s': Store) {
    forall k | k in s.alerts ::
      && k in s'.alerts && s'.alerts[k].idempotencyKey == s.alerts[k].idempotencyKey
      && s'.alerts[k].space == s.alerts[k].space && s'.alerts[k].id == s.alerts[k].id
  }

  lemma {:induction false} RecordLives(s: Store, c: Candidate)
    requires Key(c.alert.space, c.alert.id) !in s.alerts
    ensures Lives(s, Recorded(s, c))
  {
  }

  lemma {:induction false} TriageLives(s: Store, alert: Alert, event: Event, expected: int)
    requires var k := Key(alert.space, alert.id);
      k in s.alerts ==> s.alerts[k].idempotencyKey == alert.idempotencyKey && s.alerts[k].space == alert.space && s.alerts[k].id == alert.id
    ensures Lives(s, Triaged(s, alert, event, expected))
  {
  }

  lemma {:induction false} LivesOn(a: Store, b: Store, c: Store)
    requires Lives(a, b) && Lives(b, c)
    ensures Lives(a, c)
  {
  }

  lemma {:induction false} StepSound(states: seq<Store>, i: nat, op: Op)
    requires i + 1 < |states| && Performs(states, i, op) && Sound(states[i])
    requires op.Triage? ==> Sound(states[op.read]) && Lives(states[op.read], states[i])
    ensures Sound(states[i + 1]) && Lives(states[i], states[i + 1])
  {
    match op
    case Record(c) =>
      RecordSound(states[i], c);
      RecordLives(states[i], c);
    case Triage(k, read, status, now, expected, event) =>
      var copy := Verdict(states[read].alerts[k], status, now);
      TriageSound(states[i], copy, event, expected);
      TriageLives(states[i], copy, event, expected);
  }

  ghost predicate SoundUpTo(states: seq<Store>, n: nat) {
    n < |states| && Sound(states[n]) && (n > 0 ==> SoundUpTo(states, n - 1) && Lives(states[n - 1], states[n]))
  }

  lemma {:induction false} LivesAcross(states: seq<Store>, i: nat, j: nat)
    requires SoundUpTo(states, j) && i <= j
    ensures Sound(states[i]) && Lives(states[i], states[j])
  {
    if i < j {
      LivesAcross(states, i, j - 1);
      LivesOn(states[i], states[j - 1], states[j]);
    }
  }

  lemma {:induction false} NextSound(states: seq<Store>, ops: seq<Op>, n: nat)
    requires IsHistory(states, ops) && n < |ops| && SoundUpTo(states, n)
    ensures SoundUpTo(states, n + 1)
  {
    StepOf(states, ops, n);
    if ops[n].Triage? {
      LivesAcross(states, ops[n].read, n);
    }
    StepSound(states, n, ops[n]);
  }

  lemma {:induction false} EmptySound()
    ensures Sound(EMPTY)
  {
  }

  lemma {:induction false} AllSound(states: seq<Store>, ops: seq<Op>, n: nat)
    requires IsHistory(states, ops) && n < |states|
    ensures SoundUpTo(states, n)
  {
    if n == 0 {
      EmptySound();
    } else {
      AllSound(states, ops, n - 1);
      NextSound(states, ops, n - 1);
    }
  }

  /** Every state is sound, and alerts live on from state to state. */
  lemma {:induction false} HistorySound(states: seq<Store>, ops: seq<Op>, i: nat, j: nat)
    requires IsHistory(states, ops) && i <= j < |states|
    ensures Sound(states[i]) && Sound(states[j]) && Lives(states[i], states[j])
  {
    AllSound(states, ops, j);
    LivesAcross(states, i, j);
  }

  // ----- counts

  predicate Counts(s: Store, op: Op, k: Key) {
    op.Record? && Repeated(s, op.candidate) == Some(k)
  }

  predicate Triages(s: Store, op: Op, k: Key) {
    op.Triage? && op.key == k && CanTriage(s, k, op.expected)
  }

  /** One step changes an alert by counting a repeat, by a verdict, or not at all. */
  lemma {:induction false} StepCounts(states: seq<Store>, ops: seq<Op>, i: nat, k: Key)
    requires IsHistory(states, ops) && i < |ops| && k in states[i].alerts
    ensures k in states[i + 1].alerts
    ensures Counts(states[i], ops[i], k) ==> states[i + 1].alerts[k] == Again(states[i].alerts[k], ops[i].candidate.alert)
    ensures Triages(states[i], ops[i], k) ==>
      && ops[i].read <= i && k in states[ops[i].read].alerts && ops[i].status != Pending
      && states[i + 1].alerts[k] == Verdict(states[ops[i].read].alerts[k], ops[i].status, ops[i].now).(revision := ops[i].expected + 1)
    ensures !Counts(states[i], ops[i], k) && !Triages(states[i], ops[i], k) ==> states[i + 1].alerts[k] == states[i].alerts[k]
  {
    StepOf(states, ops, i);
    if ops[i].Triage? {
      CopyKeepsKey(states, ops, ops[i].read, i, ops[i].key);
    }
  }

  lemma {:induction false} CopyKeepsKey(states: seq<Store>, ops: seq<Op>, read: nat, i: nat, k: Key)
    requires IsHistory(states, ops) && read <= i < |states| && k in states[read].alerts
    ensures states[read].alerts[k].space == k.space && states[read].alerts[k].id == k.id
  {
    HistorySound(states, ops, read, i);
  }

  /** While an alert is pending its revision counts its repeats. */
  lemma {:induction false} PendingCounts(states: seq<Store>, ops: seq<Op>, i: nat, j: nat, k: Key)
    requires IsHistory(states, ops) && i <= j < |states| && k in states[i].alerts
    ensures k in states[j].alerts
    ensures states[j].alerts[k].status == Pending ==>
      && states[i].alerts[k].status == Pending && states[i].alerts[k].revision <= states[j].alerts[k].revision
      && states[j].alerts[k].count - states[i].alerts[k].count == states[j].alerts[k].revision - states[i].alerts[k].revision
  {
    if i < j {
      PendingCounts(states, ops, i, j - 1, k);
      StepCounts(states, ops, j - 1, k);
    }
  }

  /** What a verdict costs: the repeats counted between the copy's revision and the expected one. */
  lemma {:induction false} TriageLoses(states: seq<Store>, ops: seq<Op>, j: nat, k: Key)
    requires IsHistory(states, ops) && j < |ops| && Triages(states[j], ops[j], k)
    ensures ops[j].read <= j && k in states[ops[j].read].alerts && k in states[j + 1].alerts
    ensures var copy := states[ops[j].read].alerts[k];
      && copy.revision <= ops[j].expected
      && states[j].alerts[k].count - states[j + 1].alerts[k].count == ops[j].expected - copy.revision
  {
    StepCounts(states, ops, j, k);
    PendingCounts(states, ops, ops[j].read, j, k);
  }

  /** Repeats counted on an alert from state i to state j. */
  ghost function Repeats(states: seq<Store>, ops: seq<Op>, k: Key, i: nat, j: nat): nat
    requires i <= j < |states| && |states| == |ops| + 1
    decreases j
  {
    if i == j then 0 else Repeats(states, ops, k, i, j - 1) + if Counts(states[j - 1], ops[j - 1], k) then 1 else 0
  }

  /** Each verdict on the alert expected the revision of the copy it sent back. */
  ghost predicate Careful(states: seq<Store>, ops: seq<Op>, k: Key, i: nat, j: nat)
    requires i <= j < |states| && |states| == |ops| + 1
  {
    forall t {:trigger ops[t]} | i <= t < j :: CarefulAt(states, k, states[t], ops[t])
  }

  ghost predicate CarefulAt(states: seq<Store>, k: Key, s: Store, op: Op) {
    Triages(s, op, k) ==> op.read < |states| && k in states[op.read].alerts && states[op.read].alerts[k].revision == op.expected
  }

  /** Counts never run ahead of the repeats; they agree exactly when every verdict was careful. */
  lemma {:induction false} CountIsRepeats(states: seq<Store>, ops: seq<Op>, k: Key, i: nat, j: nat)
    requires IsHistory(states, ops) && i <= j < |states| && k in states[i].alerts
    ensures k in states[j].alerts
    ensures states[j].alerts[k].count <= states[i].alerts[k].count + Repeats(states, ops, k, i, j)
    ensures states[j].alerts[k].count == states[i].alerts[k].count + Repeats(states, ops, k, i, j) <==> Careful(states, ops, k, i, j)
    decreases j
  {
    if i < j {
      CountIsRepeats(states, ops, k, i, j - 1);
      CountStep(states, ops, k, j - 1);
      CarefulStep(states, ops, k, i, j);
    }
  }

  lemma {:induction false} CountStep(states: seq<Store>, ops: seq<Op>, k: Key, j: nat)
    requires IsHistory(states, ops) && j < |ops| && k in states[j].alerts
    ensures k in states[j + 1].alerts
    ensures var count := states[j].alerts[k].count + if Counts(states[j], ops[j], k) then 1 else 0;
      && states[j + 1].alerts[k].count <= count
      && (states[j + 1].alerts[k].count == count <==> CarefulAt(states, k, states[j], ops[j]))
  {
    StepCounts(states, ops, j, k);
    if Triages(states[j], ops[j], k) {
      TriageLoses(states, ops, j, k);
    }
  }

  lemma {:induction false} CarefulStep(states: seq<Store>, ops: seq<Op>, k: Key, i: nat, j: nat)
    requires i < j < |states| && |states| == |ops| + 1
    ensures Careful(states, ops, k, i, j) <==> Careful(states, ops, k, i, j - 1) && CarefulAt(states, k, states[j - 1], ops[j - 1])
  {
    assert ops[j - 1] == ops[j - 1];
  }

  /** The largest of some values: none exceeds it and it is one of them. */
  ghost predicate IsPeak(peak: real, first: real, repeats: set<real>) {
    first <= peak && (forall x | x in repeats :: x <= peak) && (peak == first || peak in repeats)
  }

  ghost function RepeatScores(states: seq<Store>, ops: seq<Op>, k: Key, i: nat, j: nat): set<real>
    requires i <= j < |states| && |states| == |ops| + 1
  {
    set t: nat | i <= t < j && Counts(states[t], ops[t], k) :: ops[t].candidate.alert.maxScore
  }

  ghost function RepeatTimes(states: seq<Store>, ops: seq<Op>, k: Key, i: nat, j: nat): set<real>
    requires i <= j < |states| && |states| == |ops| + 1
  {
    set t: nat | i <= t < j && Counts(states[t], ops[t], k) :: ops[t].candidate.alert.lastSeenAt
  }

  lemma {:induction false} RepeatsGrow(states: seq<Store>, ops: seq<Op>, k: Key, i: nat, j: nat)
    requires i < j < |states| && |states| == |ops| + 1
    ensures var (counts, op) := (Counts(states[j - 1], ops[j - 1], k), ops[j - 1]);
      && RepeatScores(states, ops, k, i, j)
         == RepeatScores(states, ops, k, i, j - 1) + (if counts then {op.candidate.alert.maxScore} else {})
      && RepeatTimes(states, ops, k, i, j)
         == RepeatTimes(states, ops, k, i, j - 1) + (if counts then {op.candidate.alert.lastSeenAt} else {})
  {
    var times, before := RepeatTimes(states, ops, k, i, j), RepeatTimes(states, ops, k, i, j - 1);
    var scores, earlier := RepeatScores(states, ops, k, i, j), RepeatScores(states, ops, k, i, j - 1);
    if Counts(states[j - 1], ops[j - 1], k) {
      assert ops[j - 1].candidate.alert.maxScore in scores && ops[j - 1].candidate.alert.lastSeenAt in times;
    }
    assert forall x | x in earlier :: x in scores;
    assert forall x | x in before :: x in times;
  }

  lemma {:induction false} PeakGrows(peak: real, first: real, repeats: set<real>, x: real)
    requires IsPeak(peak, first, repeats)
    ensures IsPeak(RealMax(peak, x), first, repeats + {x})
  {
  }

  /** One step counts a repeat on a pending alert, leaves it as it is, or ends its waiting. */
  ghost predicate Repeating(s: Store, op: Op, s': Store, k: Key) {
    && k in s.alerts && k in s'.alerts
    && (s'.alerts[k].status == Pending ==>
          && s.alerts[k].status == Pending
          && (if Counts(s, op, k)
              then s'.alerts[k].maxScore == RealMax(s.alerts[k].maxScore, op.candidate.alert.maxScore)
                   && s'.alerts[k].lastSeenAt == RealMax(s.alerts[k].lastSeenAt, op.candidate.alert.lastSeenAt)
              else s'.alerts[k].maxScore == s.alerts[k].maxScore && s'.alerts[k].lastSeenAt == s.alerts[k].lastSeenAt))
  }

  lemma {:induction false} StepRepeats(states: seq<Store>, ops: seq<Op>, j: nat, k: Key)
    requires IsHistory(states, ops) && j < |ops| && k in states[j].alerts
    ensures Repeating(states[j], ops[j], states[j + 1], k)
  {
    StepCounts(states, ops, j, k);
  }

  ghost predicate Peaks(states: seq<Store>, ops: seq<Op>, k: Key, i: nat, j: nat)
    requires i <= j < |states| && |states| == |ops| + 1
  {
    && k in states[i].alerts && k in states[j].alerts
    && (states[j].alerts[k].status == Pending ==>
          && IsPeak(states[j].alerts[k].maxScore, states[i].alerts[k].maxScore, RepeatScores(states, ops, k, i, j))
          && IsPeak(states[j].alerts[k].lastSeenAt, states[i].alerts[k].lastSeenAt, RepeatTimes(states, ops, k, i, j)))
  }

  lemma {:induction false} PeaksStep(states: seq<Store>, ops: seq<Op>, k: Key, i: nat, j: nat)
    requires i < j < |states| && |states| == |ops| + 1 && Peaks(states, ops, k, i, j - 1)
    requires Repeating(states[j - 1], ops[j - 1], states[j], k)
    ensures Peaks(states, ops, k, i, j)
  {
    RepeatsGrow(states, ops, k, i, j);
    if states[j].alerts[k].status == Pending && Counts(states[j - 1], ops[j - 1], k) {
      var (was, a, b) := (states[j - 1].alerts[k], states[i].alerts[k], ops[j - 1].candidate.alert);
      PeakGrows(was.maxScore, a.maxScore, RepeatScores(states, ops, k, i, j - 1), b.maxScore);
      PeakGrows(was.lastSeenAt, a.lastSeenAt, RepeatTimes(states, ops, k, i, j - 1), b.lastSeenAt);
    }
  }

  /** While an alert is pending, its best score and its last sighting are the peaks over itself
      and its repeats. */
  lemma {:induction false} PendingPeaks(states: seq<Store>, ops: seq<Op>, k: Key, i: nat, j: nat)
    requires IsHistory(states, ops) && i <= j < |states| && k in states[i].alerts
    ensures Peaks(states, ops, k, i, j)
    decreases j
  {
    if i < j {
      PendingPeaks(states, ops, k, i, j - 1);
      StepRepeats(states, ops, j - 1, k);
      PeaksStep(states, ops, k, i, j);
    }
  }

  /** A caller who read the alert before a repeat and expects the revision after it wipes the
      repeat out: two sightings, one counted. */
  lemma {:induction false} CarelessVerdict() returns (states: seq<Store>, ops: seq<Op>, k: Key)
    ensures IsHistory(states, ops) && |states| == 4 && k in states[1].alerts && k in states[3].alerts
    ensures Repeats(states, ops, k, 1, 3) == 1 && states[3].alerts[k].count == states[1].alerts[k].count
  {
    var space := Space("t", "p");
    var a := Alert("a", space, "i", 0.0, 0.0, 0.5, 0.5, 1, 0.0, 1, Pending);
    var b := a.(id := "b", idempotencyKey := "j", triggeredAt := 1.0, lastSeenAt := 1.0);
    var (d, e) := (Debounce("d", 10.0, None, 0.0, 0.5, 1, 1), Event(0, "a", Pending));
    k := Key(space, "a");
    var (first, second) := (Candidate(a, e, d), Candidate(b, e, d));
    var s1 := Recorded(EMPTY, first);
    assert s1.alerts[k] == a;
    var s2 := Recorded(s1, second);
    assert Repeated(s1, second) == Some(k);
    assert s2.alerts[k].count == 2 && s2.alerts[k].revision == 2;
    var verdict := Triage(k, 1, Confirmed, 2.0, 2, e);
    var s3 := Triaged(s2, Verdict(a, Confirmed, 2.0), e, 2);
    states, ops := [EMPTY, s1, s2, s3], [Record(first), Record(second), verdict];
    assert Performs(states, 0, ops[0]) && Performs(states, 1, ops[1]) && Performs(states, 2, ops[2]);
    assert Repeats(states, ops, k, 1, 2) == 1;
  }

  // ----- emissions

  predicate EmittedAt(states: seq<Store>, ops: seq<Op>, i: nat) {
    i < |states| && i < |ops| && ops[i].Record? && Emits(states[i], ops[i].candidate)
  }

  /** Two emitted alerts of one project have different idempotency keys. */
  lemma {:induction false} EmittedOnce(states: seq<Store>, ops: seq<Op>, i: nat, j: nat)
    requires IsHistory(states, ops) && i < j && EmittedAt(states, ops, i) && EmittedAt(states, ops, j)
    requires ops[i].candidate.alert.space == ops[j].candidate.alert.space
    ensures ops[i].candidate.alert.idempotencyKey != ops[j].candidate.alert.idempotencyKey
  {
    EmittedStays(states, ops, i, j);
    EmittedStays(states, ops, i, j + 1);
    EmittedStays(states, ops, j, j + 1);
    PresentDiffer(states, ops, j + 1, ops[i].candidate.alert, ops[j].candidate.alert);
  }

  predicate Present(s: Store, a: Alert) {
    Key(a.space, a.id) in s.alerts && s.alerts[Key(a.space, a.id)].idempotencyKey == a.idempotencyKey
  }

  lemma {:induction false} PresentDiffer(states: seq<Store>, ops: seq<Op>, j: nat, a: Alert, b: Alert)
    requires IsHistory(states, ops) && j < |states| && Present(states[j], a) && Present(states[j], b) && a.space == b.space && a.id != b.id
    ensures a.idempotencyKey != b.idempotencyKey
  {
    HistorySound(states, ops, j, j);
    IdempotencyKeysDiffer(states[j], Key(a.space, a.id), Key(b.space, b.id));
  }

  lemma {:induction false} EmittedStays(states: seq<Store>, ops: seq<Op>, i: nat, j: nat)
    requires IsHistory(states, ops) && i < j < |states| && EmittedAt(states, ops, i)
    ensures !Present(states[i], ops[i].candidate.alert) && Present(states[j], ops[i].candidate.alert)
    ensures Key(ops[i].candidate.alert.space, ops[i].candidate.alert.id) !in states[i].alerts
  {
    var a := ops[i].candidate.alert;
    StepOf(states, ops, i);
    assert states[i + 1].alerts[Key(a.space, a.id)] == a;
    HistorySound(states, ops, i + 1, j);
  }

  /** No alert of the debounce key is emitted strictly between two steps. */
  ghost predicate QuietBetween(states: seq<Store>, ops: seq<Op>, d: Key, i: nat, j: nat) {
    forall t | i < t < j && EmittedAt(states, ops, t) :: DebounceKey(ops[t].candidate) != d
  }

  predicate Cooling(s: Store, c: Candidate) {
    DebounceKey(c) in s.debounce && s.debounce[DebounceKey(c)].cooldownUntil == c.debounce.cooldownUntil
    && s.debounce[DebounceKey(c)].lastAlert == Some(c.alert.id)
  }

  lemma {:induction false} StepCools(s: Store, c: Candidate, other: Candidate)
    requires Cooling(s, c) && (Emits(s, other) ==> DebounceKey(other) != DebounceKey(c))
    ensures Cooling(Recorded(s, other), c)
  {
  }

  lemma {:induction false} StaysCooling(states: seq<Store>, ops: seq<Op>, i: nat, j: nat)
    requires IsHistory(states, ops) && i < j < |states| && EmittedAt(states, ops, i) && QuietBetween(states, ops, DebounceKey(ops[i].candidate), i, j)
    ensures Cooling(states[j], ops[i].candidate)
  {
    StepOf(states, ops, j - 1);
    if i < j - 1 {
      StaysCooling(states, ops, i, j - 1);
      if ops[j - 1].Record? {
        StepCools(states[j - 1], ops[i].candidate, ops[j - 1].candidate);
      }
    }
  }

  /** The next alert of a debounce key comes no earlier than the cooldown of the one before; a
      candidate during the cooldown counts as a repeat of exactly that alert. */
  lemma {:induction false} EmissionsSpaced(states: seq<Store>, ops: seq<Op>, i: nat, j: nat)
    requires IsHistory(states, ops) && i < j < |ops| && EmittedAt(states, ops, i) && QuietBetween(states, ops, DebounceKey(ops[i].candidate), i, j)
    requires ops[j].Record? && DebounceKey(ops[j].candidate) == DebounceKey(ops[i].candidate)
    ensures EmittedAt(states, ops, j) ==> ops[j].candidate.alert.triggeredAt >= ops[i].candidate.debounce.cooldownUntil
    ensures Repeated(states[j], ops[j].candidate)
         == if ops[j].candidate.alert.triggeredAt < ops[i].candidate.debounce.cooldownUntil
            then Some(Key(ops[i].candidate.alert.space, ops[i].candidate.alert.id)) else None
  {
    StaysCooling(states, ops, i, j);
    HistorySound(states, ops, 0, j);
  }

  // ----- verdicts

  /** A verdict is taken exactly when the alert is pending under the expected revision; it is stored
      with the next revision and logged once. */
  lemma {:induction false} VerdictsAreExact(states: seq<Store>, ops: seq<Op>, i: nat)
    requires IsHistory(states, ops) && i < |ops| && ops[i].Triage?
    ensures var (s, s', op) := (states[i], states[i + 1], ops[i]);
      && op.key in s.alerts && op.key in s'.alerts
      && if s.alerts[op.key].status == Pending && s.alerts[op.key].revision == op.expected then
           && s'.alerts[op.key].status == op.status && s'.alerts[op.key].revision == op.expected + 1
           && |Log(s'.events, op.key.space)| == |Log(s.events, op.key.space)| + 1
         else s' == s
  {
    StepOf(states, ops, i);
    HistorySound(states, ops, ops[i].read, i);
    HistorySound(states, ops, ops[i].read, ops[i].read);
  }

  /** Once an alert has a verdict its status never changes. */
  lemma {:induction false} VerdictsStand(states: seq<Store>, ops: seq<Op>, i: nat, j: nat, k: Key)
    requires IsHistory(states, ops) && i <= j < |states| && k in states[i].alerts && states[i].alerts[k].status != Pending
    ensures k in states[j].alerts && states[j].alerts[k].status == states[i].alerts[k].status
  {
    if i < j {
      VerdictsStand(states, ops, i, j - 1, k);
      StepOf(states, ops, j - 1);
      VerdictStands(states, j - 1, ops[j - 1], k);
    }
  }

  lemma {:induction false} VerdictStands(states: seq<Store>, i: nat, op: Op, k: Key)
    requires i + 1 < |states| && Performs(states, i, op) && k in states[i].alerts && states[i].alerts[k].status != Pending
    ensures k in states[i + 1].alerts && states[i + 1].alerts[k].status == states[i].alerts[k].status
  {
  }

  // ----- reading the log by cursor

  lemma {:induction false} PastIsSuffix(log: seq<Event>, cursor: nat)
    requires Cursors(log)
    ensures Past(log, cursor) == if cursor <= |log| then log[cursor..] else []
  {
    if log != [] {
      var init, last := log[..|log| - 1], log[|log| - 1];
      PastIsSuffix(init, cursor);
      assert log == init + [last];
    }
  }

  lemma {:induction false} LogGrows(states: seq<Store>, ops: seq<Op>, i: nat, j: nat, space: Space)
    requires IsHistory(states, ops) && i <= j < |states|
    ensures Log(states[i].events, space) <= Log(states[j].events, space)
  {
    if i < j {
      LogGrows(states, ops, i, j - 1, space);
      StepOf(states, ops, j - 1);
      StepGrows(states, j - 1, ops[j - 1], space);
    }
  }

  lemma {:induction false} StepGrows(states: seq<Store>, i: nat, op: Op, space: Space)
    requires i + 1 < |states| && Performs(states, i, op)
    ensures Log(states[i].events, space) <= Log(states[i + 1].events, space)
  {
  }

  /** What a reader has after n polls, the m-th made in the state of number polls[m]: each poll
      asks for what follows the cursor of the last event received. */
  ghost function Received(states: seq<Store>, polls: seq<nat>, limits: seq<nat>, space: Space, start: nat, n: nat): seq<Event>
    requires n <= |polls| == |limits| && forall m | 0 <= m < n :: polls[m] < |states|
  {
    if n == 0 then []
    else
      var got := Received(states, polls, limits, space, start, n - 1);
      got + FirstOf(Past(Log(states[polls[n - 1]].events, space), CursorOf(got, start)), limits[n - 1])
  }

  function CursorOf(got: seq<Event>, start: nat): int {
    if got == [] then start else got[|got| - 1].cursor
  }

  ghost predicate InOrder(states: seq<Store>, polls: seq<nat>) {
    forall m | 0 <= m < |polls| :: polls[m] < |states| && (m > 0 ==> polls[m - 1] <= polls[m])
  }

  /** The reader has a stretch of the log from its start cursor, and knows where it ended. */
  ghost predicate Replays(log: seq<Event>, start: nat, got: seq<Event>) {
    && CursorOf(got, start) == start + |got|
    && if start + |got| <= |log| then got == log[start..start + |got|] else got == []
  }

  /** How many events a poll brings: as many as are left, up to its limit. */
  function Brought(limit: nat, left: int): int {
    if left <= 0 then 0 else if limit <= left then limit else left
  }

  /** A poll after some events received, and what is received then. */
  ghost predicate Polled(log: seq<Event>, start: nat, before: seq<Event>, limit: nat, got: seq<Event>) {
    Replays(log, start, got) && |got| == |before| + Brought(limit, |log| - start - |before|)
  }

  /** Polling replays the log from the start cursor on, every event once and in order, and every
      poll brings as many events as its limit allows. */
  lemma {:induction false} PollingReplays(states: seq<Store>, ops: seq<Op>, polls: seq<nat>, limits: seq<nat>, space: Space, start: nat, n: nat)
    requires IsHistory(states, ops) && InOrder(states, polls) && 0 < n <= |polls| == |limits|
    ensures Polled(Log(states[polls[n - 1]].events, space), start, Received(states, polls, limits, space, start, n - 1), limits[n - 1],
                   Received(states, polls, limits, space, start, n))
  {
    var before := Received(states, polls, limits, space, start, n - 1);
    var log := Log(states[polls[n - 1]].events, space);
    LogCursors(states, ops, polls[n - 1], space);
    if n > 1 {
      PollingReplays(states, ops, polls, limits, space, start, n - 1);
      LogGrows(states, ops, polls[n - 2], polls[n - 1], space);
      ReplaysOn(Log(states[polls[n - 2]].events, space), log, start, before);
    }
    PollStep(log, before, start, limits[n - 1], Received(states, polls, limits, space, start, n));
  }

  lemma {:induction false} LogCursors(states: seq<Store>, ops: seq<Op>, i: nat, space: Space)
    requires IsHistory(states, ops) && i < |states|
    ensures Cursors(Log(states[i].events, space))
  {
    HistorySound(states, ops, i, i);
  }

  lemma {:induction false} ReplaysOn(log: seq<Event>, longer: seq<Event>, start: nat, got: seq<Event>)
    requires Replays(log, start, got) && log <= longer
    ensures Replays(longer, start, got)
  {
    if start + |got| <= |log| {
      assert log[start..start + |got|] == longer[start..start + |got|];
    }
  }

  lemma {:induction false} PollStep(log: seq<Event>, before: seq<Event>, start: nat, limit: nat, got: seq<Event>)
    requires Cursors(log) && Replays(log, start, before) && got == before + FirstOf(Past(log, CursorOf(before, start)), limit)
    ensures Polled(log, start, before, limit, got)
  {
    var p := start + |before|;
    var past := Past(log, CursorOf(before, start));
    PastIsSuffix(log, p);
    assert past == if p <= |log| then log[p..] else [];
    if p <= |log| {
      PollSome(log, start, p, limit, before, got);
    } else {
      PollNone(log, start, before, limit, past, got);
    }
  }

  lemma {:induction false} PollNone(log: seq<Event>, start: nat, before: seq<Event>, limit: nat, past: seq<Event>, got: seq<Event>)
    requires start + |before| > |log| && Replays(log, start, before) && past == [] && got == before + FirstOf(past, limit)
    ensures Polled(log, start, before, limit, got)
  {
    assert got == before;
  }

  lemma {:induction false} PollSome(log: seq<Event>, start: nat, p: nat, limit: nat, before: seq<Event>, got: seq<Event>)
    requires Cursors(log) && start <= p <= |log| && before == log[start..p] && got == before + FirstOf(log[p..], limit)
    ensures Polled(log, start, before, limit, got)
  {
    var q := FirstOfSuffix(log, p, limit);
    Stretch(log, start, p, q);
  }

  lemma {:induction false} FirstOfSuffix(log: seq<Event>, p: nat, limit: nat) returns (q: nat)
    requires p <= |log|
    ensures p <= q <= |log| && FirstOf(log[p..], limit) == log[p..q] && q == p + Brought(limit, |log| - p)
  {
    q := if limit <= |log| - p then p + limit else |log|;
  }

  lemma {:induction false} Stretch(log: seq<Event>, start: nat, p: nat, q: nat)
    requires start <= p <= q <= |log| && Cursors(log)
    ensures log[start..p] + log[p..q] == log[start..q] && CursorOf(log[start..q], start) == q
  {
  }
}
