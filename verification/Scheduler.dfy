/** The inference scheduler as an object: its queue, the futures of its requests, its worker
    and the scope served last. Each method is one stretch of code between two awaits. */
module Scheduler {
  import opened Options
  import opened FairScopes
  import opened FairTurns
  import opened FairBatch
  import opened SchedulerRuns
  import SchedulerDispatch
  import Dispatch

  lemma {:induction false} LateSnoc(queue: seq<Request>, i: nat, futures: map<nat, Status>, now: real)
    requires i < |queue| && forall x | x in queue :: x.id in futures
    ensures (forall x | x in queue[..i] :: x.id in futures) && forall x | x in queue[..i + 1] :: x.id in futures
    ensures Late(queue[..i + 1], futures, now)
         == Late(queue[..i], futures, now) + if futures[queue[i].id] != Cancelled && Expired(queue[i], now) then {queue[i].id} else {}
    ensures Live(queue[..i + 1], futures, now)
         == Live(queue[..i], futures, now) + if futures[queue[i].id] == Cancelled || Expired(queue[i], now) then [] else [queue[i]]
  {
    assert queue[..i + 1] == queue[..i] + [queue[i]];
    assert queue[..i + 1][..i] == queue[..i];
  }

  /** The futures after the first i requests have been looked at. */
  ghost predicate Swept(queue: seq<Request>, was: map<nat, Status>, now: real, i: nat, active: seq<Request>, futures: map<nat, Status>) {
    && i <= |queue| && (forall x | x in queue[..i] :: x.id in was)
    && active == Live(queue[..i], was, now)
    && futures == SettleAll(was, Late(queue[..i], was, now))
  }

  lemma {:induction false} NotYetLate(queue: seq<Request>, was: map<nat, Status>, now: real, i: nat)
    requires i < |queue| && DistinctIds(queue) && forall x | x in queue :: x.id in was
    ensures queue[i].id !in Late(queue[..i], was, now)
  {
  }

  lemma {:induction false} SweepStep(queue: seq<Request>, was: map<nat, Status>, now: real, i: nat, active: seq<Request>, futures: map<nat, Status>)
    requires i < |queue| && (forall x | x in queue :: x.id in was) && Swept(queue, was, now, i, active, futures)
    requires DistinctIds(queue)
    ensures queue[i].id in futures && futures[queue[i].id] == was[queue[i].id]
    ensures futures[queue[i].id] == Cancelled ==> Swept(queue, was, now, i + 1, active, futures)
    ensures futures[queue[i].id] != Cancelled && Expired(queue[i], now)
            ==> Swept(queue, was, now, i + 1, active, futures[queue[i].id := Settled])
    ensures futures[queue[i].id] != Cancelled && !Expired(queue[i], now)
            ==> Swept(queue, was, now, i + 1, active + [queue[i]], futures)
  {
    LateSnoc(queue, i, was, now);
    NotYetLate(queue, was, now, i);
  }

  class InferenceScheduler {
    const limits: Limits
    var queue: seq<Request>
    var futures: map<nat, Status>
    var worker: Worker
    var lastScope: Option<string>

    ghost function View(): State
      reads this
    {
      State(queue, futures, worker, lastScope)
    }

    ghost predicate Valid()
      reads this
    {
      limits.maxBatch > 0 && limits.maxQueue > 0 && Safe(limits, View())
    }

    constructor (limits: Limits)
      requires limits.maxBatch > 0 && limits.maxQueue > 0
      ensures Valid() && View() == START && this.limits == limits
    {
      this.limits := limits;
      queue, futures, worker, lastScope := [], map[], NoWorker, None;
    }

    /** A future may be given an outcome once: setting it again is an error. */
    method SetException(id: nat)
      requires id in futures && futures[id] == Pending
      modifies this`futures
      ensures futures == old(futures)[id := Settled]
    {
      futures := futures[id := Settled];
    }

    /** Drops cancelled requests and fails those past their deadline. */
    method DiscardFinished(now: real)
      requires Valid()
      modifies this`queue, this`futures
      ensures Valid() && View() == Discarded(old(View()), now)
    {
      DiscardSafe(limits, View(), now);
      Sweep(now);
    }

    method Sweep(now: real)
      requires DistinctIds(queue) && forall x | x in queue :: x.id in futures && futures[x.id] != Settled
      modifies this`queue, this`futures
      ensures View() == Discarded(old(View()), now)
    {
      ghost var all, was := queue, futures;
      var active: seq<Request> := [];
      ghost var i := 0;
      while queue != []
        invariant i <= |all| && queue == all[i..]
        invariant Swept(all, was, now, i, active, futures)
        decreases |queue|
      {
        var item := queue[0];
        assert item == all[i] && item in all;
        queue := queue[1..];
        SweepStep(all, was, now, i, active, futures);
        i := i + 1;
        if futures[item.id] == Cancelled {
          continue;
        }
        if item.deadline.Some? && now >= item.deadline.value {
          SetException(item.id);
          continue;
        }
        active := active + [item];
      }
      assert all[..i] == all;
      queue := active;
    }

    /** Queues a request and makes sure a worker runs, or refuses it when the queue is full. */
    method Submit(request: Request, now: real) returns (accepted: bool)
      requires Valid() && request.id !in futures && request.weight > 0
      modifies this`queue, this`futures, this`worker
      ensures Next(limits, old(View()), Event.Submit(request, now), View()) && Valid()
      ensures accepted <==> |Discarded(old(View()), now).queue| < limits.maxQueue
      ensures accepted ==> request in queue && futures[request.id] == Pending && worker != NoWorker
    {
      ghost var s := View();
      DiscardFinished(now);
      accepted := |queue| < limits.maxQueue;
      if accepted {
        queue := queue + [request];
        futures := futures[request.id := Pending];
        if worker == NoWorker {
          worker := Looping;
        }
      }
      StepSafe(limits, s, Event.Submit(request, now), View());
    }

    /** The caller gave up waiting. */
    method Cancel(id: nat)
      requires Valid() && id in futures
      modifies this`futures
      ensures Valid()
      ensures old(futures[id]) == Pending ==> Next(limits, old(View()), Event.Cancel(id), View())
      ensures old(futures[id]) != Pending ==> View() == old(View())
    {
      ghost var s := View();
      if futures[id] == Pending {
        futures := futures[id := Cancelled];
        StepSafe(limits, s, Event.Cancel(id), View());
      }
    }

    /** The oldest request of the most urgent priority. */
    method Seed() returns (seed: Request)
      requires queue != []
      ensures IsSeed(queue, seed)
    {
      seed := queue[0];
      for i := 1 to |queue|
        invariant IsSeed(queue[..i], seed)
      {
        assert queue[..i + 1] == queue[..i] + [queue[i]];
        if queue[i].priority < seed.priority || (queue[i].priority == seed.priority && queue[i].enqueuedAt < seed.enqueuedAt) {
          seed := queue[i];
        }
      }
      assert queue[..|queue|] == queue;
    }

    /** One pass of the worker's loop, up to its next await. */
    method Work(now: real, later: real)
      requires Valid() && worker == Looping
      modifies this
      ensures Next(limits, old(View()), Event.Work(now, later), View()) && Valid()
    {
      ghost var s := View();
      DiscardFinished(now);
      if queue == [] {
        worker := NoWorker;
      } else {
        var seed := Handle(later);
      }
      StepSafe(limits, s, Event.Work(now, later), View());
    }

    /** Waits for company while the seed has time, or takes a batch. */
    method Handle(later: real) returns (seed: Request)
      requires limits.maxBatch > 0 && queue != [] && DistinctIds(queue) && Positive(queue) && worker == Looping
      modifies this
      ensures IsSeed(old(queue), seed) && Handled(limits, old(View()), later, View(), seed)
    {
      seed := Seed();
      var ready := Total(Candidates(queue, seed)) >= limits.maxBatch;
      if DispatchAt(limits, seed) > later && !ready {
        worker := Waiting;
      } else {
        Take(seed);
      }
    }

    method Take(seed: Request)
      requires limits.maxBatch > 0 && seed in queue && DistinctIds(queue) && Positive(queue)
      modifies this`queue, this`worker, this`lastScope
      ensures Taken(limits, old(View()), View(), seed)
    {
      var batch, rest, last := NextBatch(queue, seed, limits.maxBatch, lastScope);
      queue, worker, lastScope := rest, Dispatching(batch, ActiveIds(batch, futures)), last;
    }

    /** Dispatches the batch and answers its requests: steps of the protocol, the last of which
        is always possible. */
    method RunBatch(exec: Dispatch.Executor, jobs: seq<Dispatch.Job>, outcomes: Dispatch.Futures, cancelled: set<nat>,
                    ghost f: Dispatch.RowMap, ghost m: nat)
      returns (outcomes': Dispatch.Futures, ghost states: seq<State>, ghost events: seq<Event>)
      requires Valid() && SchedulerDispatch.Dispatches(limits, View(), jobs, outcomes) && Dispatch.RowByRow(exec, f, m)
      modifies this`futures, this`worker
      ensures Valid() && worker == Looping && futures == SchedulerDispatch.Statuses(outcomes')
      ensures outcomes' == Dispatch.OneByOne(if Dispatch.Combines(exec, jobs, outcomes) then Dispatch.Total(f, m) else exec, jobs, outcomes, cancelled)
      ensures SchedulerDispatch.Path(limits, states, events) && states[0] == old(View())
      ensures SchedulerDispatch.OnBatch(old(worker.batch), events)
      ensures Steps(limits, states[|states| - 1], Finish, View())
    {
      ghost var s := View();
      outcomes' := Dispatch.DispatchBatch(exec, jobs, outcomes, cancelled, f, m);
      ghost var each := if Dispatch.Combines(exec, jobs, outcomes) then Dispatch.Total(f, m) else exec;
      states, events := SchedulerDispatch.DispatchIsPath(limits, s, each, jobs, outcomes, cancelled);
      SchedulerDispatch.PathSafe(limits, states, events, |events|);
      futures, worker := SchedulerDispatch.Statuses(outcomes'), Looping;
      StepSafe(limits, states[|states| - 1], Finish, View());
    }
  }
}
