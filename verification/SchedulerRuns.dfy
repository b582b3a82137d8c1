/** The inference scheduler as a protocol: each stretch of code between two awaits is one
    step, and any interleaving of submitters, cancellations and the worker is a run. */
module SchedulerRuns {
  import opened Options
  import opened Sums
  import opened FairScopes
  import opened FairTurns
  import opened FairBatch

  datatype Status = Pending | Cancelled | Settled

  /** Where the worker task stands; NoWorker when there is none.  A dispatch has `left` to answer. */
  datatype Worker = NoWorker | Looping | Waiting | Dispatching(batch: seq<Request>, left: set<nat>)

  datatype State = State(queue: seq<Request>, futures: map<nat, Status>, worker: Worker, lastScope: Option<string>)

  /** Bounds of queue and batch, and how long a request may wait for company. */
  datatype Limits = Limits(maxQueue: nat, maxBatch: nat, syncWait: real, backgroundWait: real)

  const START := State([], map[], NoWorker, None)

  // ----- discarding

  predicate Expired(r: Request, now: real) {
    r.deadline.Some? && now >= r.deadline.value
  }

  /** Requests that are neither cancelled nor too late, in order. */
  function Live(queue: seq<Request>, futures: map<nat, Status>, now: real): (r: seq<Request>)
    requires forall x | x in queue :: x.id in futures
    ensures forall x :: x in r <==> x in queue && futures[x.id] != Cancelled && !Expired(x, now)
    ensures |r| <= |queue|
  {
    if queue == [] then []
    else
      var init, last := Live(queue[..|queue| - 1], futures, now), queue[|queue| - 1];
      assert queue == queue[..|queue| - 1] + [last];
      if futures[last.id] == Cancelled || Expired(last, now) then init else init + [last]
  }

  /** Ids of requests that time out. */
  function Late(queue: seq<Request>, futures: map<nat, Status>, now: real): set<nat>
    requires forall x | x in queue :: x.id in futures
  {
    set x | x in queue && futures[x.id] != Cancelled && Expired(x, now) :: x.id
  }

  function SettleAll(futures: map<nat, Status>, ids: set<nat>): map<nat, Status> {
    map id | id in futures :: if id in ids then Settled else futures[id]
  }

  function Discarded(s: State, now: real): State
    requires forall x | x in s.queue :: x.id in s.futures
  {
    s.(queue := Live(s.queue, s.futures, now), futures := SettleAll(s.futures, Late(s.queue, s.futures, now)))
  }

  // ----- steps

  datatype Event =
    | Submit(request: Request, now: real)
    | Cancel(id: nat)
    | Wake
    | Work(now: real, later: real)
    | Settle(id: nat)
    | Finish

  /** The oldest request of the most urgent priority. */
  ghost predicate IsSeed(queue: seq<Request>, seed: Request) {
    && seed in queue
    && forall x | x in queue :: seed.priority < x.priority || (seed.priority == x.priority && seed.enqueuedAt <= x.enqueuedAt)
  }

  ghost predicate BatchReady(queue: seq<Request>, seed: Request, max: nat) {
    Total(Candidates(queue, seed)) >= max
  }

  /** When the batch of a seed is taken at the latest. */
  function DispatchAt(limits: Limits, seed: Request): real {
    var at := seed.enqueuedAt + if seed.priority == 0 then limits.syncWait else limits.backgroundWait;
    if seed.deadline.Some? && seed.deadline.value < at then seed.deadline.value else at
  }

  ghost predicate KeepsWaiting(limits: Limits, queue: seq<Request>, seed: Request, later: real) {
    later < DispatchAt(limits, seed) && !BatchReady(queue, seed, limits.maxBatch)
  }

  /** The requests of a batch that were not cancelled when its dispatch began. */
  function ActiveIds(batch: seq<Request>, futures: map<nat, Status>): set<nat> {
    set x | x in batch && x.id in futures && futures[x.id] != Cancelled :: x.id
  }

  /** The worker's loop body up to its next await. */
  ghost predicate Worked(limits: Limits, s: State, later: real, s': State) {
    if s.queue == [] then s' == s.(worker := NoWorker)
    else exists seed :: IsSeed(s.queue, seed) && Handled(limits, s, later, s', seed)
  }

  /** The worker waits for more requests while the seed has time, and takes a batch otherwise. */
  ghost predicate Handled(limits: Limits, s: State, later: real, s': State, seed: Request) {
    if KeepsWaiting(limits, s.queue, seed, later) then s' == s.(worker := Waiting) else Taken(limits, s, s', seed)
  }

  ghost predicate Taken(limits: Limits, s: State, s': State, seed: Request) {
    && s'.worker.Dispatching? && s'.futures == s.futures
    && FairTake(s.queue, seed, limits.maxBatch, s.lastScope, s'.worker.batch, s'.queue)
    && s'.worker.left == ActiveIds(s'.worker.batch, s.futures)
    && s'.lastScope == Some(s'.worker.batch[|s'.worker.batch| - 1].scope)
  }

  /** The request joins the queue, and a worker is started if there is none. */
  function Appended(s: State, r: Request): State {
    s.(queue := s.queue + [r], futures := s.futures[r.id := Pending], worker := if s.worker == NoWorker then Looping else s.worker)
  }

  ghost predicate Next(limits: Limits, s: State, e: Event, s': State)
    requires forall x | x in s.queue :: x.id in s.futures
  {
    match e
    case Submit(r, now) =>
      var d := Discarded(s, now);
      && r.id !in s.futures && r.weight > 0
      && s' == if |d.queue| >= limits.maxQueue then d else Appended(d, r)
    case Cancel(id) => id in s.futures && s.futures[id] == Pending && s' == s.(futures := s.futures[id := Cancelled])
    case Wake => s.worker == Waiting && s' == s.(worker := Looping)
    case Work(now, later) => s.worker == Looping && Worked(limits, Discarded(s, now), later, s')
    case Settle(id) =>
      && s.worker.Dispatching? && id in s.worker.left && id in s.futures
      && s' == s.(futures := if s.futures[id] == Pending then s.futures[id := Settled] else s.futures,
                  worker := s.worker.(left := s.worker.left - {id}))
    case Finish => s.worker.Dispatching? && s.worker.left == {} && s' == s.(worker := Looping)
  }

  // ----- what every step keeps

  function InFlight(s: State): seq<Request> {
    if s.worker.Dispatching? then s.worker.batch else []
  }

  /** A dispatch has answered every request of its batch that it has not left. */
  ghost predicate Answered(s: State) {
    s.worker.Dispatching? ==>
      && s.worker.left <= IdsOf(s.worker.batch)
      && forall x | x in s.worker.batch && x.id !in s.worker.left :: x.id in s.futures && s.futures[x.id] != Pending
  }

  /** The queue is bounded, its futures are pending or cancelled, it has a worker whenever it
      is not empty, and every pending request is queued or being run. */
  ghost predicate Safe(limits: Limits, s: State) {
    && |s.queue| <= limits.maxQueue && DistinctIds(s.queue) && Positive(s.queue)
    && (forall x | x in s.queue :: x.id in s.futures && s.futures[x.id] != Settled)
    && (forall x | x in InFlight(s) :: x.id in s.futures)
    && (s.queue != [] ==> s.worker != NoWorker)
    && (forall id | id in s.futures && s.futures[id] == Pending :: Queued(s.queue, id) || Queued(InFlight(s), id))
    && (forall x, y | x in s.queue && y in InFlight(s) :: x.id != y.id)
    && Answered(s)
  }

  ghost predicate Queued(queue: seq<Request>, id: nat) {
    exists x :: x in queue && x.id == id
  }

  lemma {:induction false} LiveDistinct(queue: seq<Request>, futures: map<nat, Status>, now: real)
    requires (forall x | x in queue :: x.id in futures) && DistinctIds(queue)
    ensures DistinctIds(Live(queue, futures, now))
  {
    if queue != [] {
      var init, last := queue[..|queue| - 1], queue[|queue| - 1];
      LiveDistinct(init, futures, now);
      forall x | x in init ensures x.id != last.id {
        var i :| 0 <= i < |init| && init[i] == x;
        assert queue[i] == x;
      }
    }
  }

  /** Discarding settles pending futures only, and keeps the protocol safe. */
  lemma {:induction false} DiscardSafe(limits: Limits, s: State, now: real)
    requires Safe(limits, s)
    ensures Safe(limits, Discarded(s, now))
    ensures forall id | id in Late(s.queue, s.futures, now) :: id in s.futures && s.futures[id] == Pending
    ensures forall x | x in Discarded(s, now).queue :: Discarded(s, now).futures[x.id] == Pending
  {
    var d := Discarded(s, now);
    LiveDistinct(s.queue, s.futures, now);
    forall x | x in d.queue ensures d.futures[x.id] == Pending {
      if x.id in Late(s.queue, s.futures, now) {
        var y :| y in s.queue && y.id == x.id && Expired(y, now);
        SameId(s.queue, x, y);
      }
    }
    forall id | id in d.futures && d.futures[id] == Pending ensures Queued(d.queue, id) || Queued(InFlight(d), id) {
      if Queued(s.queue, id) {
        var x :| x in s.queue && x.id == id;
        assert x in d.queue;
      } else {
        assert Queued(InFlight(s), id);
      }
    }
  }

  lemma {:induction false} SubmitSafe(limits: Limits, s: State, r: Request, now: real, s': State)
    requires Safe(limits, s) && Next(limits, s, Submit(r, now), s')
    ensures Safe(limits, s')
  {
    DiscardSafe(limits, s, now);
    var d := Discarded(s, now);
    if |d.queue| < limits.maxQueue {
      AppendSafe(limits, d, r);
    }
  }

  lemma {:induction false} AppendSafe(limits: Limits, d: State, r: Request)
    requires Safe(limits, d) && |d.queue| < limits.maxQueue && r.id !in d.futures && r.weight > 0
    ensures Safe(limits, Appended(d, r))
  {
    var s' := Appended(d, r);
    AppendWaiting(d, r);
    forall x | x in s'.queue ensures x in d.queue || x == r {
    }
    assert InFlight(s') == InFlight(d);
  }

  /** Every pending request is still queued or being run. */
  lemma {:induction false} AppendWaiting(d: State, r: Request)
    requires forall id | id in d.futures && d.futures[id] == Pending :: Queued(d.queue, id) || Queued(InFlight(d), id)
    ensures var s' := Appended(d, r);
      forall id | id in s'.futures && s'.futures[id] == Pending :: Queued(s'.queue, id) || Queued(InFlight(s'), id)
  {
    var s' := Appended(d, r);
    forall id | id in s'.futures && s'.futures[id] == Pending ensures Queued(s'.queue, id) || Queued(InFlight(s'), id) {
      if id == r.id {
        assert r in s'.queue;
      } else if Queued(d.queue, id) {
        var x :| x in d.queue && x.id == id;
        assert x in s'.queue;
      } else {
        assert InFlight(s') == InFlight(d);
      }
    }
  }

  lemma {:induction false} WorkSafe(limits: Limits, s: State, now: real, later: real, s': State)
    requires Safe(limits, s) && Next(limits, s, Work(now, later), s')
    ensures Safe(limits, s')
  {
    DiscardSafe(limits, s, now);
    var d := Discarded(s, now);
    if s'.worker.Dispatching? {
      TakeSafe(limits, d, s');
    }
  }

  lemma {:induction false} TakeSafe(limits: Limits, d: State, s': State)
    requires Safe(limits, d) && d.worker == Looping && s'.worker.Dispatching? && s'.futures == d.futures
    requires exists seed :: Taken(limits, d, s', seed)
    ensures Safe(limits, s')
  {
    var batch := s'.worker.batch;
    RestDistinct(d.queue, IdsOf(batch));
    forall id | id in s'.futures && s'.futures[id] == Pending ensures Queued(s'.queue, id) || Queued(batch, id) {
      assert Queued(d.queue, id);
      var x :| x in d.queue && x.id == id;
      if id in IdsOf(batch) {
        assert Queued(batch, id);
      } else {
        assert x in s'.queue;
      }
    }
    forall x, y | x in s'.queue && y in batch ensures x.id != y.id {
      assert y.id in IdsOf(batch);
    }
  }

  /** Every step of the protocol keeps it safe. */
  lemma {:induction false} StepSafe(limits: Limits, s: State, e: Event, s': State)
    requires Safe(limits, s) && Next(limits, s, e, s')
    ensures Safe(limits, s')
  {
    match e
    case Submit(r, now) => SubmitSafe(limits, s, r, now, s');
    case Work(now, later) => WorkSafe(limits, s, now, later, s');
    case Cancel(id) =>
    case Wake =>
    case Settle(id) =>
    case Finish =>
      forall id | id in s'.futures && s'.futures[id] == Pending ensures Queued(s'.queue, id) {
        assert !Queued(InFlight(s), id);
      }
  }

  /** No step touches a future that is settled or cancelled: nothing is settled twice. */
  lemma {:induction false} StepSettlesOnce(limits: Limits, s: State, e: Event, s': State, id: nat)
    requires Safe(limits, s) && Next(limits, s, e, s') && id in s.futures && s.futures[id] != Pending
    ensures id in s'.futures && s'.futures[id] == s.futures[id]
  {
    match e
    case Submit(r, now) => DiscardSafe(limits, s, now);
    case Work(now, _) => DiscardSafe(limits, s, now);
    case _ =>
  }

  // ----- runs

  ghost predicate Steps(limits: Limits, s: State, e: Event, s': State) {
    (forall x | x in s.queue :: x.id in s.futures) && Next(limits, s, e, s')
  }

  ghost predicate IsRun(limits: Limits, states: seq<State>, events: seq<Event>) {
    && |states| == |events| + 1 && states[0] == START
    && forall i {:trigger events[i]} | 0 <= i < |events| :: Steps(limits, states[i], events[i], states[i + 1])
  }

  /** Every state of every run is safe. */
  lemma {:induction false} RunSafe(limits: Limits, states: seq<State>, events: seq<Event>, i: nat)
    requires IsRun(limits, states, events) && i < |states|
    ensures Safe(limits, states[i])
  {
    if i > 0 {
      RunSafe(limits, states, events, i - 1);
      assert Steps(limits, states[i - 1], events[i - 1], states[i - 1 + 1]);
      StepSafe(limits, states[i - 1], events[i - 1], states[i]);
    }
  }

  /** Once a future has left pending it never changes again. */
  lemma {:induction false} RunSettlesOnce(limits: Limits, states: seq<State>, events: seq<Event>, i: nat, j: nat, id: nat)
    requires IsRun(limits, states, events) && i <= j < |states|
    requires id in states[i].futures && states[i].futures[id] != Pending
    ensures id in states[j].futures && states[j].futures[id] == states[i].futures[id]
  {
    if i < j {
      RunSettlesOnce(limits, states, events, i, j - 1, id);
      StepOfRun(limits, states, events, j - 1);
      StepSettlesOnce(limits, states[j - 1], events[j - 1], states[j], id);
    }
  }

  lemma {:induction false} StepOfRun(limits: Limits, states: seq<State>, events: seq<Event>, i: nat)
    requires IsRun(limits, states, events) && i < |events|
    ensures Safe(limits, states[i]) && Next(limits, states[i], events[i], states[i + 1])
  {
    RunSafe(limits, states, events, i);
    assert Steps(limits, states[i], events[i], states[i + 1]);
  }

  // ----- progress

  /** Steps the scheduler takes by itself, without a caller. */
  predicate OfWorker(e: Event) {
    e.Wake? || e.Work? || e.Settle? || e.Finish?
  }

  /** The clock readings of a step. */
  predicate ReadsClock(e: Event, now: real, later: real) {
    e.Work? ==> e == Work(now, later)
  }

  /** As long as a request is pending the scheduler has a step of its own to take, whatever the
      clock says. */
  lemma {:induction false} NeverStuck(limits: Limits, s: State, id: nat, now: real, later: real)
    requires Safe(limits, s) && id in s.futures && s.futures[id] == Pending
    ensures exists e, s' :: OfWorker(e) && ReadsClock(e, now, later) && Next(limits, s, e, s')
  {
    assert Queued(s.queue, id) || Queued(InFlight(s), id);
    match s.worker
    case Waiting => assert Next(limits, s, Wake, s.(worker := Looping));
    case Looping =>
      var s' := LoopMoves(limits, s, now, later);
      assert OfWorker(Work(now, later));
    case Dispatching(batch, left) =>
      if x :| x in left {
        var s' := s.(futures := if s.futures[x] == Pending then s.futures[x := Settled] else s.futures, worker := s.worker.(left := left - {x}));
        assert Next(limits, s, Settle(x), s');
      } else {
        assert Next(limits, s, Finish, s.(worker := Looping));
      }
  }

  /** The worker's loop body always reaches its next await. */
  lemma {:induction false} LoopMoves(limits: Limits, s: State, now: real, later: real) returns (s': State)
    requires Safe(limits, s) && s.worker == Looping
    ensures Next(limits, s, Work(now, later), s')
  {
    DiscardSafe(limits, s, now);
    var d := Discarded(s, now);
    if d.queue == [] {
      s' := d.(worker := NoWorker);
    } else {
      var seed := SeedExists(d.queue);
      if KeepsWaiting(limits, d.queue, seed, later) {
        s' := d.(worker := Waiting);
      } else {
        s' := TakeExists(limits, d, seed);
      }
      assert Handled(limits, d, later, s', seed);
    }
  }

  lemma {:induction false} SeedExists(queue: seq<Request>) returns (seed: Request)
    requires queue != []
    ensures IsSeed(queue, seed)
  {
    seed := queue[|queue| - 1];
    if |queue| > 1 {
      var init := queue[..|queue| - 1];
      var best := SeedExists(init);
      assert queue == init + [seed];
      if best.priority < seed.priority || (best.priority == seed.priority && best.enqueuedAt <= seed.enqueuedAt) {
        seed := best;
      }
    }
  }

  lemma {:induction false} TakeExists(limits: Limits, d: State, seed: Request) returns (s': State)
    requires IsSeed(d.queue, seed)
    ensures Taken(limits, d, s', seed)
  {
    var all := Candidates(d.queue, seed);
    assert seed in all;
    var x := NextInTurn(all, d.lastScope);
    s' := d.(worker := Dispatching([x], ActiveIds([x], d.futures)), queue := Rest(d.queue, IdsOf([x])), lastScope := Some(x.scope));
  }

  /** The first request of the scope whose turn it is makes a batch. */
  lemma {:induction false} NextInTurn(all: seq<Request>, last: Option<string>) returns (x: Request)
    requires all != []
    ensures x in all && ServedInTurn(all, last, [x]) && forall scope :: Of([x], scope) <= Of(all, scope)
    ensures DistinctIds([x])
  {
    assert all[0].scope in Scopes(all);
    var order := Rotated(Scopes(all), last);
    var first := order[0];
    OfMembers(all, first);
    ScopeHasRequests(all, first);
    x := Of(all, first)[0];
    assert x in Of(all, first);
    AloneInTurn(order, x);
    RotatedTurns(all, last);
    ServesInTurn(all, last, order, [x]);
    forall scope ensures Of([x], scope) <= Of(all, scope) {
      AloneOf(x, scope);
    }
  }

  lemma {:induction false} AloneInTurn(order: seq<string>, x: Request)
    requires order != [] && order[0] == x.scope
    ensures InTurn(order, [x])
  {
    assert [x][..0] == [];
  }

  lemma {:induction false} AloneOf(x: Request, scope: string)
    ensures Of([x], scope) == if x.scope == scope then [x] else []
  {
    assert [x][..0] == [];
  }

  // ----- the queue drains

  /** How many steps of its own the scheduler has left. */
  function Effort(s: State): nat {
    3 * |s.queue| +
    match s.worker
    case NoWorker => 0
    case Looping => 1
    case Waiting => 2
    case Dispatching(_, left) => |left| + 2
  }

  /** Every queued request has waited as long as it may. */
  ghost predicate Overdue(limits: Limits, s: State, later: real) {
    forall x | x in s.queue :: later >= DispatchAt(limits, x)
  }

  /** A step of the worker, with the clock past every wait. */
  ghost predicate Prompt(limits: Limits, s: State, e: Event) {
    OfWorker(e) && (e.Work? ==> Overdue(limits, s, e.later))
  }

  lemma {:induction false} TakeSpends(limits: Limits, d: State, s': State, seed: Request)
    requires Safe(limits, d) && Taken(limits, d, s', seed)
    ensures |s'.queue| + |s'.worker.batch| == |d.queue| && |s'.worker.left| <= |s'.worker.batch| && s'.worker.batch != []
  {
    var batch := s'.worker.batch;
    NothingLost(d.queue, batch);
    assert |multiset(batch) + multiset(s'.queue)| == |multiset(d.queue)|;
    IdsSize(batch);
    assert s'.worker.left <= IdsOf(batch);
    SubsetSize(s'.worker.left, IdsOf(batch));
  }

  lemma {:induction false} IdsSize(s: seq<Request>)
    ensures |IdsOf(s)| <= |s|
  {
    if s != [] {
      var init, last := s[..|s| - 1], s[|s| - 1];
      IdsSize(init);
      assert s == init + [last];
      assert IdsOf(s) == IdsOf(init) + {last.id};
    }
  }

  lemma {:induction false} WorkedSpends(limits: Limits, d: State, later: real, s': State)
    requires Safe(limits, d) && d.worker == Looping && Worked(limits, d, later, s') && Overdue(limits, d, later)
    ensures Effort(s') < Effort(d)
  {
    if d.queue != [] {
      var seed :| IsSeed(d.queue, seed) && Handled(limits, d, later, s', seed);
      HandledSpends(limits, d, later, s', seed);
    }
  }

  lemma {:induction false} HandledSpends(limits: Limits, d: State, later: real, s': State, seed: Request)
    requires Safe(limits, d) && d.worker == Looping && seed in d.queue && Handled(limits, d, later, s', seed) && later >= DispatchAt(limits, seed)
    ensures Effort(s') < Effort(d)
  {
    TakeSpends(limits, d, s', seed);
  }

  lemma {:induction false} WorkSpends(limits: Limits, s: State, now: real, later: real, s': State)
    requires Safe(limits, s) && s.worker == Looping && Worked(limits, Discarded(s, now), later, s') && Overdue(limits, s, later)
    ensures Effort(s') < Effort(s)
  {
    DiscardSafe(limits, s, now);
    WorkedSpends(limits, Discarded(s, now), later, s');
  }

  /** With the clock past every wait, each step of the worker brings it nearer to its end. */
  lemma {:induction false} StepSpends(limits: Limits, s: State, e: Event, s': State)
    requires Safe(limits, s) && Next(limits, s, e, s') && Prompt(limits, s, e)
    ensures Effort(s') < Effort(s)
  {
    match e
    case Work(now, later) => WorkSpends(limits, s, now, later, s');
    case Wake =>
    case Settle(id) =>
    case Finish =>
  }

  ghost predicate IsPromptRun(limits: Limits, states: seq<State>, events: seq<Event>) {
    && |states| == |events| + 1 && Safe(limits, states[0])
    && forall i {:trigger events[i]} | 0 <= i < |events| ::
         Steps(limits, states[i], events[i], states[i + 1]) && Prompt(limits, states[i], events[i])
  }

  lemma {:induction false} PromptStep(limits: Limits, states: seq<State>, events: seq<Event>, i: nat)
    requires IsPromptRun(limits, states, events) && i < |events|
    ensures Steps(limits, states[i], events[i], states[i + 1]) && Prompt(limits, states[i], events[i])
  {
    assert events[i] == events[i];
  }

  /** Without new requests such a run is no longer than the work there was. */
  lemma {:induction false} PromptRunEnds(limits: Limits, states: seq<State>, events: seq<Event>, i: nat)
    requires IsPromptRun(limits, states, events) && i <= |events|
    ensures Safe(limits, states[i]) && i + Effort(states[i]) <= Effort(states[0])
  {
    if i > 0 {
      PromptRunEnds(limits, states, events, i - 1);
      PromptStep(limits, states, events, i - 1);
      StepSafe(limits, states[i - 1], events[i - 1], states[i]);
      StepSpends(limits, states[i - 1], events[i - 1], states[i]);
    }
  }

  /** A scheduler that can take no step of its own has answered every request. */
  lemma {:induction false} IdleHasAnswered(limits: Limits, s: State, now: real, later: real)
    requires Safe(limits, s) && !exists e, s' :: OfWorker(e) && ReadsClock(e, now, later) && Next(limits, s, e, s')
    ensures forall id | id in s.futures :: s.futures[id] != Pending
  {
    forall id | id in s.futures ensures s.futures[id] != Pending {
      if s.futures[id] == Pending {
        NeverStuck(limits, s, id, now, later);
      }
    }
  }
}
