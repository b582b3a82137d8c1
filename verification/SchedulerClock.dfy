/** What the clock does to requests over whole runs, told from their deadlines, priorities and
    the clock readings of the events alone. */
module SchedulerClock {
  import opened Options
  import opened FairScopes
  import opened FairTurns
  import opened FairBatch
  import opened SchedulerRuns

  /** Events that begin with a sweep of the queue. */
  predicate Sweeps(e: Event) {
    e.Submit? || e.Work?
  }

  /** What a sweep must do to a queued request: a cancelled one and one whose deadline has come
      leave, the latter settled if it was pending; any other stays, in the queue or in the batch
      just taken, with its status. */
  ghost predicate Swept(s: State, clock: real, s': State, x: Request) {
    x.id in s.futures && x.id in s'.futures &&
    if s.futures[x.id] == Cancelled then s'.futures[x.id] == Cancelled && x !in s'.queue && x !in InFlight(s')
    else if x.deadline.Some? && x.deadline.value <= clock then s'.futures[x.id] == Settled && x !in s'.queue && x !in InFlight(s')
    else s'.futures[x.id] == s.futures[x.id] && (x in s'.queue || x in InFlight(s'))
  }

  /** A change of status is a timeout: a queued, pending request whose deadline has come is settled. */
  ghost predicate TimesOut(s: State, clock: real, s': State, id: nat) {
    && id in s.futures && s.futures[id] == Pending && id in s'.futures && s'.futures[id] == Settled
    && exists x :: x in s.queue && x.id == id && x.deadline.Some? && x.deadline.value <= clock
  }

  /** The second list has members of the first, in the same order. */
  ghost predicate KeepsOrder(a: seq<Request>, b: seq<Request>) {
    forall i, j | 0 <= i < j < |b| :: Earlier(a, b[i], b[j])
  }

  ghost predicate Earlier(a: seq<Request>, x: Request, y: Request) {
    exists p, q :: 0 <= p < q < |a| && a[p] == x && a[q] == y
  }

  // ----- the sweep

  lemma {:induction false} SweptFutures(limits: Limits, s: State, clock: real)
    requires Safe(limits, s)
    ensures Discarded(s, clock).futures.Keys == s.futures.Keys
    ensures forall x | x in s.queue ::
      Discarded(s, clock).futures[x.id]
      == if s.futures[x.id] != Cancelled && x.deadline.Some? && x.deadline.value <= clock then Settled else s.futures[x.id]
    ensures forall id | id in s.futures && Discarded(s, clock).futures[id] != s.futures[id] :: TimesOut(s, clock, Discarded(s, clock), id)
  {
    forall x | x in s.queue && s.futures[x.id] != Cancelled && x.id in Late(s.queue, s.futures, clock) ensures Expired(x, clock) {
      var y :| y in s.queue && y.id == x.id && Expired(y, clock);
      SameId(s.queue, x, y);
    }
  }

  lemma {:induction false} SweptQueue(limits: Limits, s: State, clock: real, x: Request)
    requires Safe(limits, s)
    ensures x in Discarded(s, clock).queue <==>
            x in s.queue && s.futures[x.id] != Cancelled && !(x.deadline.Some? && x.deadline.value <= clock)
  {
  }

  lemma {:induction false} TakenSplits(limits: Limits, d: State, s': State, seed: Request, x: Request)
    requires Safe(limits, d) && Taken(limits, d, s', seed)
    ensures x in d.queue <==> x in s'.queue || x in InFlight(s')
  {
    if x in d.queue && x.id in IdsOf(s'.worker.batch) {
      var y :| y in s'.worker.batch && y.id == x.id;
      SameId(d.queue, x, y);
    }
  }

  lemma {:induction false} WorkedSplits(limits: Limits, d: State, later: real, s': State, x: Request)
    requires Safe(limits, d) && d.worker == Looping && Worked(limits, d, later, s')
    ensures x in d.queue <==> x in s'.queue || x in InFlight(s')
  {
    if d.queue != [] {
      var seed :| IsSeed(d.queue, seed) && Handled(limits, d, later, s', seed);
      if s'.worker.Dispatching? {
        TakenSplits(limits, d, s', seed, x);
      }
    }
  }

  lemma {:induction false} WorkedKeepsFutures(limits: Limits, d: State, later: real, s': State)
    requires Worked(limits, d, later, s')
    ensures s'.futures == d.futures
  {
  }

  lemma {:induction false} WorkSweeps(limits: Limits, s: State, now: real, later: real, s': State, x: Request)
    requires Safe(limits, s) && Next(limits, s, Work(now, later), s')
    ensures x in s.queue ==> Swept(s, now, s', x)
    ensures x in s'.queue || x in InFlight(s') ==> x in s.queue && !(x.deadline.Some? && x.deadline.value <= now)
  {
    DiscardSafe(limits, s, now);
    SweptFutures(limits, s, now);
    SweptQueue(limits, s, now, x);
    WorkedSplits(limits, Discarded(s, now), later, s', x);
    WorkedKeepsFutures(limits, Discarded(s, now), later, s');
  }

  lemma {:induction false} SubmitSweeps(limits: Limits, s: State, r: Request, now: real, s': State, x: Request)
    requires Safe(limits, s) && Next(limits, s, Submit(r, now), s')
    ensures x in s.queue ==> Swept(s, now, s', x)
    ensures x in s'.queue && x != r ==> x in s.queue && !(x.deadline.Some? && x.deadline.value <= now)
  {
    SweptFutures(limits, s, now);
    SweptQueue(limits, s, now, x);
    assert InFlight(s') == InFlight(s);
  }

  lemma {:induction false} SweepTimesOut(limits: Limits, s: State, e: Event, s': State, id: nat)
    requires Safe(limits, s) && Next(limits, s, e, s') && Sweeps(e) && id in s.futures && id in s'.futures && s'.futures[id] != s.futures[id]
    ensures TimesOut(s, e.now, s', id)
  {
    SweptFutures(limits, s, e.now);
    if e.Work? {
      WorkedKeepsFutures(limits, Discarded(s, e.now), e.later, s');
    }
  }

  // ----- order

  lemma {:induction false} LiveKeepsOrder(queue: seq<Request>, futures: map<nat, Status>, now: real)
    requires forall x | x in queue :: x.id in futures
    ensures KeepsOrder(queue, Live(queue, futures, now))
  {
    if queue != [] {
      LiveKeepsOrder(queue[..|queue| - 1], futures, now);
      OrderGrows(queue, Live(queue[..|queue| - 1], futures, now));
    }
  }

  lemma {:induction false} OrderGrows(a: seq<Request>, b: seq<Request>)
    requires a != [] && KeepsOrder(a[..|a| - 1], b) && forall x | x in b :: x in a[..|a| - 1]
    ensures KeepsOrder(a, b) && KeepsOrder(a, b + [a[|a| - 1]])
  {
    var (init, more) := (a[..|a| - 1], b + [a[|a| - 1]]);
    forall i, j | 0 <= i < j < |b| ensures Earlier(a, b[i], b[j]) {
      assert Earlier(init, b[i], b[j]);
      var p, q :| 0 <= p < q < |init| && init[p] == b[i] && init[q] == b[j];
      assert a[p] == b[i] && a[q] == b[j];
    }
    forall i, j | 0 <= i < j < |more| ensures Earlier(a, more[i], more[j]) {
      if j < |b| {
        assert Earlier(a, b[i], b[j]);
      } else {
        assert b[i] in b;
        var p :| 0 <= p < |init| && init[p] == b[i];
        assert a[p] == more[i] && a[|a| - 1] == more[j];
      }
    }
  }

  lemma {:induction false} RestKeepsOrder(queue: seq<Request>, gone: set<nat>)
    ensures KeepsOrder(queue, Rest(queue, gone))
  {
    if queue != [] {
      RestKeepsOrder(queue[..|queue| - 1], gone);
      OrderGrows(queue, Rest(queue[..|queue| - 1], gone));
    }
  }

  /** The queue as it stands after a sweep: what is neither cancelled nor overdue, in order. */
  ghost predicate Remain(s: State, clock: real, q: seq<Request>) {
    && (forall x | x in s.queue :: x.id in s.futures)
    && (forall x :: x in q <==> x in s.queue && s.futures[x.id] != Cancelled && !(x.deadline.Some? && x.deadline.value <= clock))
    && KeepsOrder(s.queue, q) && DistinctIds(q)
  }

  lemma {:induction false} DiscardRemains(limits: Limits, s: State, clock: real)
    requires Safe(limits, s)
    ensures Remain(s, clock, Discarded(s, clock).queue)
  {
    LiveKeepsOrder(s.queue, s.futures, clock);
    LiveDistinct(s.queue, s.futures, clock);
    forall x ensures x in Discarded(s, clock).queue <==>
                     x in s.queue && s.futures[x.id] != Cancelled && !(x.deadline.Some? && x.deadline.value <= clock) {
      SweptQueue(limits, s, clock, x);
    }
  }

  // ----- waiting

  /** The request may wait for company: the wait of its priority is not over and its deadline has
      not come. */
  predicate MayWait(limits: Limits, x: Request, clock: real) {
    && (if x.priority == 0 then clock < x.enqueuedAt + limits.syncWait else clock < x.enqueuedAt + limits.backgroundWait)
    && (x.deadline.Some? ==> clock < x.deadline.value)
  }

  /** The size of all requests of one priority and group. */
  function SizeOfKind(q: seq<Request>, priority: int, group: string): nat {
    if q == [] then 0
    else
      var last := q[|q| - 1];
      SizeOfKind(q[..|q| - 1], priority, group) + if last.priority == priority && last.group == group then last.size else 0
  }

  lemma {:induction false} SizeOfKindIs(q: seq<Request>, seed: Request)
    ensures SizeOfKind(q, seed.priority, seed.group) == Total(Candidates(q, seed))
  {
    if q != [] {
      SizeOfKindIs(q[..|q| - 1], seed);
      TotalOne(Candidates(q[..|q| - 1], seed), q[|q| - 1]);
    }
  }

  lemma {:induction false} TotalOne(a: seq<Request>, x: Request)
    ensures Total(a + [x]) == Total(a) + x.size
  {
    assert (a + [x])[..|a|] == a;
  }

  /** The request that the worker looks at: of the most urgent priority, the one that came first. */
  ghost predicate First(q: seq<Request>, seed: Request) {
    && seed in q
    && forall x | x in q :: seed.priority < x.priority || (seed.priority == x.priority && seed.enqueuedAt <= x.enqueuedAt)
  }

  /** What the worker decides with a swept queue: it ends when there is nothing to do, waits
      while the seed may wait and a batch is not full, and takes a batch otherwise. */
  ghost predicate Decides(limits: Limits, q: seq<Request>, last: Option<string>, later: real, s': State) {
    if q == [] then s'.worker == NoWorker && s'.queue == [] && s'.lastScope == last
    else exists seed :: First(q, seed) && DecidesFor(limits, q, last, seed, later, s')
  }

  ghost predicate DecidesFor(limits: Limits, q: seq<Request>, last: Option<string>, seed: Request, later: real, s': State) {
    if MayWait(limits, seed, later) && SizeOfKind(q, seed.priority, seed.group) < limits.maxBatch
    then s'.worker == Waiting && s'.queue == q && s'.lastScope == last
    else
      && s'.worker.Dispatching? && KeepsOrder(q, s'.queue) && FairTake(q, seed, limits.maxBatch, last, s'.worker.batch, s'.queue)
      && (forall x | x in s'.worker.batch :: x in q && x.priority == seed.priority && x.group == seed.group)
      && s'.lastScope == Some(s'.worker.batch[|s'.worker.batch| - 1].scope)
  }

  /** What a submission does to a swept queue: the request joins the end of it unless it is full. */
  ghost predicate Joins(limits: Limits, q: seq<Request>, s: State, r: Request, s': State) {
    && s'.lastScope == s.lastScope
    && if |q| >= limits.maxQueue then s'.queue == q && r.id !in s'.futures && s'.worker == s.worker
       else && s'.queue == q + [r] && r.id in s'.futures && s'.futures[r.id] == Pending
            && (if s.worker == NoWorker then s'.worker == Looping else s'.worker == s.worker)
  }

  lemma {:induction false} SubmitJoins(limits: Limits, s: State, r: Request, now: real, s': State) returns (q: seq<Request>)
    requires Safe(limits, s) && Next(limits, s, Submit(r, now), s')
    ensures Remain(s, now, q) && Joins(limits, q, s, r, s')
  {
    DiscardRemains(limits, s, now);
    SweptFutures(limits, s, now);
    q := Discarded(s, now).queue;
  }

  lemma {:induction false} WorkDecides(limits: Limits, s: State, now: real, later: real, s': State) returns (q: seq<Request>)
    requires Safe(limits, s) && Next(limits, s, Work(now, later), s')
    ensures Remain(s, now, q) && Decides(limits, q, s.lastScope, later, s')
  {
    DiscardRemains(limits, s, now);
    q := Discarded(s, now).queue;
    if q != [] {
      var seed :| IsSeed(q, seed) && Handled(limits, Discarded(s, now), later, s', seed);
      HandledDecides(limits, Discarded(s, now), seed, later, s');
      assert First(q, seed);
    }
  }

  lemma {:induction false} HandledDecides(limits: Limits, d: State, seed: Request, later: real, s': State)
    requires d.worker == Looping && Handled(limits, d, later, s', seed)
    ensures DecidesFor(limits, d.queue, d.lastScope, seed, later, s')
  {
    MayWaitIff(limits, seed, later);
    SizeOfKindIs(d.queue, seed);
    if s'.worker.Dispatching? {
      RestKeepsOrder(d.queue, IdsOf(s'.worker.batch));
    }
  }

  lemma {:induction false} MayWaitIff(limits: Limits, seed: Request, later: real)
    ensures MayWait(limits, seed, later) <==> later < DispatchAt(limits, seed)
  {
  }

  // ----- runs

  /** Over every run: a sweep treats each queued request by its deadline and the clock alone, what
      is queued or taken after it is not overdue, and nothing but a timeout settles a future. */
  lemma {:induction false} SweepsAreExact(limits: Limits, states: seq<State>, events: seq<Event>, i: nat)
    requires IsRun(limits, states, events) && i < |events| && Sweeps(events[i])
    ensures forall x | x in states[i].queue :: Swept(states[i], events[i].now, states[i + 1], x)
    ensures events[i].Work? ==> forall x | x in states[i + 1].queue || x in InFlight(states[i + 1]) ::
              x in states[i].queue && !(x.deadline.Some? && x.deadline.value <= events[i].now)
    ensures events[i].Submit? ==> forall x | x in states[i + 1].queue && x != events[i].request ::
              x in states[i].queue && !(x.deadline.Some? && x.deadline.value <= events[i].now)
    ensures forall id | id in states[i].futures && id in states[i + 1].futures && states[i + 1].futures[id] != states[i].futures[id] ::
              TimesOut(states[i], events[i].now, states[i + 1], id)
  {
    StepOfRun(limits, states, events, i);
    var (s, e, s') := (states[i], events[i], states[i + 1]);
    forall x ensures x in s.queue ==> Swept(s, e.now, s', x)
             ensures e.Work? && (x in s'.queue || x in InFlight(s')) ==> x in s.queue && !(x.deadline.Some? && x.deadline.value <= e.now)
             ensures e.Submit? && x in s'.queue && x != e.request ==> x in s.queue && !(x.deadline.Some? && x.deadline.value <= e.now)
    {
      if e.Work? {
        WorkSweeps(limits, s, e.now, e.later, s', x);
      } else {
        SubmitSweeps(limits, s, e.request, e.now, s', x);
      }
    }
    forall id | id in s.futures && id in s'.futures && s'.futures[id] != s.futures[id] ensures TimesOut(s, e.now, s', id) {
      SweepTimesOut(limits, s, e, s', id);
    }
  }

  /** A request without a deadline is never settled by a sweep. */
  lemma {:induction false} NoDeadlineNoTimeout(limits: Limits, states: seq<State>, events: seq<Event>, i: nat, x: Request)
    requires IsRun(limits, states, events) && i < |events| && Sweeps(events[i]) && x in states[i].queue && x.deadline.None?
    ensures x.id in states[i].futures && x.id in states[i + 1].futures && states[i + 1].futures[x.id] == states[i].futures[x.id]
  {
    SweepsAreExact(limits, states, events, i);
    assert Swept(states[i], events[i].now, states[i + 1], x);
  }

  /** Over every run: a request is taken in exactly when the swept queue has room. */
  lemma {:induction false} SubmitsAreExact(limits: Limits, states: seq<State>, events: seq<Event>, i: nat) returns (q: seq<Request>)
    requires IsRun(limits, states, events) && i < |events| && events[i].Submit?
    ensures events[i].request.id !in states[i].futures
    ensures Remain(states[i], events[i].now, q) && Joins(limits, q, states[i], events[i].request, states[i + 1])
  {
    StepOfRun(limits, states, events, i);
    q := SubmitJoins(limits, states[i], events[i].request, events[i].now, states[i + 1]);
  }

  /** Over every run: the worker waits exactly while the seed of the swept queue may wait and its
      batch is not full, and keeps the order of the queue. */
  lemma {:induction false} WaitsAreExact(limits: Limits, states: seq<State>, events: seq<Event>, i: nat) returns (q: seq<Request>)
    requires IsRun(limits, states, events) && i < |events| && events[i].Work?
    ensures Remain(states[i], events[i].now, q) && Decides(limits, q, states[i].lastScope, events[i].later, states[i + 1])
  {
    StepOfRun(limits, states, events, i);
    q := WorkDecides(limits, states[i], events[i].now, events[i].later, states[i + 1]);
  }
}
