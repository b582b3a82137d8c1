/** The dispatch of a batch as steps of the scheduler's protocol. */
module SchedulerDispatch {
  import opened Options
  import opened FairScopes
  import opened FairTurns
  import opened FairBatch
  import SchedulerRuns
  import Dispatch

  type State = SchedulerRuns.State
  type Limits = SchedulerRuns.Limits
  type Event = SchedulerRuns.Event
  type Status = SchedulerRuns.Status

  function StatusOf(f: Dispatch.Future): Status {
    match f
    case Pending => SchedulerRuns.Pending
    case Cancelled => SchedulerRuns.Cancelled
    case Done(_) => SchedulerRuns.Settled
    case Failed(_) => SchedulerRuns.Settled
  }

  function Statuses(futures: Dispatch.Futures): map<nat, Status> {
    map id | id in futures :: StatusOf(futures[id])
  }

  /** The jobs carry the ids of the batch. */
  ghost predicate Carry(jobs: seq<Dispatch.Job>, batch: seq<Request>) {
    |jobs| == |batch| && forall i | 0 <= i < |jobs| :: jobs[i].id == batch[i].id
  }

  /** States one step apart. */
  ghost predicate Path(limits: Limits, states: seq<State>, events: seq<Event>) {
    && |states| == |events| + 1
    && forall i {:trigger events[i]} | 0 <= i < |events| :: SchedulerRuns.Steps(limits, states[i], events[i], states[i + 1])
  }

  /** Answers to requests of the batch, and cancellations of them. */
  ghost predicate OnBatch(batch: seq<Request>, events: seq<Event>) {
    forall i | 0 <= i < |events| :: (events[i].Settle? || events[i].Cancel?) && events[i].id in IdsOf(batch)
  }

  lemma {:induction false} PathOn(limits: Limits, states: seq<State>, events: seq<Event>, e: Event, s': State)
    requires Path(limits, states, events) && SchedulerRuns.Steps(limits, states[|states| - 1], e, s')
    ensures Path(limits, states + [s'], events + [e])
  {
    var (ss, es) := (states + [s'], events + [e]);
    forall i {:trigger es[i]} | 0 <= i < |es| ensures SchedulerRuns.Steps(limits, ss[i], es[i], ss[i + 1]) {
      assert i < |events| ==> es[i] == events[i];
    }
  }

  /** The state of the protocol when the first k jobs have been answered. */
  ghost function AfterJobs(s: State, exec: Dispatch.Executor, jobs: seq<Dispatch.Job>, futures: Dispatch.Futures, cancelled: set<nat>, k: nat): State
    requires k <= |jobs| && s.worker.Dispatching? && forall j | j in jobs :: j.id in futures
  {
    s.(futures := Statuses(Dispatch.OneByOne(exec, jobs[..k], futures, cancelled)),
       worker := s.worker.(left := s.worker.left - JobIds(jobs[..k])))
  }

  ghost function JobIds(jobs: seq<Dispatch.Job>): set<nat> {
    set j | j in jobs :: j.id
  }

  /** A state in which the batch of the jobs is being dispatched. */
  ghost predicate Dispatches(limits: Limits, s: State, jobs: seq<Dispatch.Job>, futures: Dispatch.Futures) {
    && SchedulerRuns.Safe(limits, s) && s.worker.Dispatching? && s.futures == Statuses(futures)
    && s.worker.left == SchedulerRuns.ActiveIds(s.worker.batch, s.futures)
    && Carry(jobs, s.worker.batch) && Dispatch.DistinctJobs(jobs) && forall j | j in jobs :: j.id in futures
  }

  /** One more job: its future keeps its status, is cancelled, or is settled. */
  lemma {:induction false} NextJob(s: State, exec: Dispatch.Executor, jobs: seq<Dispatch.Job>, futures: Dispatch.Futures, cancelled: set<nat>, k: nat)
    requires k < |jobs| && s.worker.Dispatching? && (forall j | j in jobs :: j.id in futures) && Dispatch.DistinctJobs(jobs)
    ensures var (cur, next, id) := (AfterJobs(s, exec, jobs, futures, cancelled, k), AfterJobs(s, exec, jobs, futures, cancelled, k + 1), jobs[k].id);
      && id in cur.futures && cur.futures[id] == StatusOf(futures[id])
      && next == cur.(futures := cur.futures[id := StatusOf(Dispatch.Settle(exec, jobs[k], futures[id], id in cancelled))],
                      worker := cur.worker.(left := cur.worker.left - {id}))
  {
    var (before, id) := (Dispatch.OneByOne(exec, jobs[..k], futures, cancelled), jobs[k].id);
    OneMore(exec, jobs, futures, cancelled, k);
    StatusesUpdate(before, id, Dispatch.Settle(exec, jobs[k], futures[id], id in cancelled));
    JobIdsStep(jobs, k);
    LeaveOne(s.worker.left, JobIds(jobs[..k]), id);
  }

  lemma {:induction false} OneMore(exec: Dispatch.Executor, jobs: seq<Dispatch.Job>, futures: Dispatch.Futures, cancelled: set<nat>, k: nat)
    requires k < |jobs| && (forall j | j in jobs :: j.id in futures) && Dispatch.DistinctJobs(jobs)
    ensures forall n | 0 <= n <= |jobs| :: forall j | j in jobs[..n] :: j.id in futures
    ensures var (before, id) := (Dispatch.OneByOne(exec, jobs[..k], futures, cancelled), jobs[k].id);
      && before[id] == futures[id]
      && Dispatch.OneByOne(exec, jobs[..k + 1], futures, cancelled)
         == before[id := Dispatch.Settle(exec, jobs[k], futures[id], id in cancelled)]
  {
    assert jobs[..k + 1][..k] == jobs[..k] && jobs[..k + 1][k] == jobs[k];
    assert forall j | j in jobs[..k] :: j.id != jobs[k].id;
    Dispatch.OneByOneAt(exec, jobs[..k], futures, cancelled, jobs[k].id);
  }

  lemma {:induction false} StatusesUpdate(futures: Dispatch.Futures, id: nat, f: Dispatch.Future)
    requires id in futures
    ensures Statuses(futures[id := f]) == Statuses(futures)[id := StatusOf(f)]
  {
  }

  lemma {:induction false} JobIdsStep(jobs: seq<Dispatch.Job>, k: nat)
    requires k < |jobs|
    ensures JobIds(jobs[..k + 1]) == JobIds(jobs[..k]) + {jobs[k].id}
  {
    assert jobs[..k + 1] == jobs[..k] + [jobs[k]];
  }

  lemma {:induction false} LeaveOne(left: set<nat>, gone: set<nat>, id: nat)
    ensures left - (gone + {id}) == left - gone - {id}
  {
  }

  /** The steps that answer one job. */
  lemma {:induction false} AnswerJob(limits: Limits, cur: State, next: State, id: nat, now: Status, states: seq<State>, events: seq<Event>)
    returns (states': seq<State>, events': seq<Event>)
    requires Path(limits, states, events) && states[|states| - 1] == cur
    requires cur.worker.Dispatching? && id in cur.futures && id in IdsOf(cur.worker.batch) && OnBatch(cur.worker.batch, events)
    requires forall x | x in cur.queue :: x.id in cur.futures
    requires next == cur.(futures := cur.futures[id := now], worker := cur.worker.(left := cur.worker.left - {id}))
    requires if cur.futures[id] == SchedulerRuns.Pending then now != SchedulerRuns.Pending else now == cur.futures[id]
    requires id !in cur.worker.left ==> cur.futures[id] != SchedulerRuns.Pending
    ensures Path(limits, states', events') && states'[0] == states[0] && states'[|states'| - 1] == next && OnBatch(cur.worker.batch, events')
  {
    if id !in cur.worker.left {
      assert next == cur;
      states', events' := states, events;
    } else if cur.futures[id] == SchedulerRuns.Pending && now == SchedulerRuns.Cancelled {
      var mid := cur.(futures := cur.futures[id := SchedulerRuns.Cancelled]);
      assert SchedulerRuns.Steps(limits, cur, SchedulerRuns.Cancel(id), mid);
      assert SchedulerRuns.Steps(limits, mid, SchedulerRuns.Settle(id), next);
      PathOn(limits, states, events, SchedulerRuns.Cancel(id), mid);
      PathOn(limits, states + [mid], events + [SchedulerRuns.Cancel(id)], SchedulerRuns.Settle(id), next);
      states', events' := states + [mid] + [next], events + [SchedulerRuns.Cancel(id)] + [SchedulerRuns.Settle(id)];
    } else {
      assert SchedulerRuns.Steps(limits, cur, SchedulerRuns.Settle(id), next);
      PathOn(limits, states, events, SchedulerRuns.Settle(id), next);
      states', events' := states + [next], events + [SchedulerRuns.Settle(id)];
    }
  }

  /** Running the jobs one by one is a path of the protocol. */
  lemma {:induction false} JobsArePath(limits: Limits, s: State, exec: Dispatch.Executor, jobs: seq<Dispatch.Job>, futures: Dispatch.Futures,
                                       cancelled: set<nat>, k: nat) returns (states: seq<State>, events: seq<Event>)
    requires Dispatches(limits, s, jobs, futures) && k <= |jobs|
    ensures Path(limits, states, events) && OnBatch(s.worker.batch, events)
    ensures states[0] == s && states[|states| - 1] == AfterJobs(s, exec, jobs, futures, cancelled, k)
  {
    if k == 0 {
      assert JobIds(jobs[..0]) == {};
      states, events := [s], [];
    } else {
      states, events := JobsArePath(limits, s, exec, jobs, futures, cancelled, k - 1);
      states, events := JobPath(limits, s, exec, jobs, futures, cancelled, k - 1, states, events);
    }
  }

  lemma {:induction false} JobPath(limits: Limits, s: State, exec: Dispatch.Executor, jobs: seq<Dispatch.Job>, futures: Dispatch.Futures,
                                   cancelled: set<nat>, k: nat, states: seq<State>, events: seq<Event>)
    returns (states': seq<State>, events': seq<Event>)
    requires Dispatches(limits, s, jobs, futures) && k < |jobs| && Path(limits, states, events) && OnBatch(s.worker.batch, events)
    requires states[|states| - 1] == AfterJobs(s, exec, jobs, futures, cancelled, k)
    ensures Path(limits, states', events') && OnBatch(s.worker.batch, events')
    ensures states'[0] == states[0] && states'[|states'| - 1] == AfterJobs(s, exec, jobs, futures, cancelled, k + 1)
  {
    var id := jobs[k].id;
    var status := StatusOf(Dispatch.Settle(exec, jobs[k], futures[id], id in cancelled));
    NextJob(s, exec, jobs, futures, cancelled, k);
    LeftUntil(limits, s, exec, jobs, futures, cancelled, k);
    states', events' := AnswerJob(limits, AfterJobs(s, exec, jobs, futures, cancelled, k), AfterJobs(s, exec, jobs, futures, cancelled, k + 1),
                                  id, status, states, events);
  }

  /** A job not yet answered is left, unless it was cancelled before the dispatch. */
  lemma {:induction false} LeftUntil(limits: Limits, s: State, exec: Dispatch.Executor, jobs: seq<Dispatch.Job>, futures: Dispatch.Futures,
                                     cancelled: set<nat>, k: nat)
    requires Dispatches(limits, s, jobs, futures) && k < |jobs|
    ensures var cur := AfterJobs(s, exec, jobs, futures, cancelled, k);
      && jobs[k].id in IdsOf(s.worker.batch) && (jobs[k].id !in cur.worker.left ==> s.futures[jobs[k].id] == SchedulerRuns.Cancelled)
      && forall x | x in cur.queue :: x.id in cur.futures
  {
    var (batch, done) := (s.worker.batch, jobs[..k]);
    assert batch[k] in batch && batch[k].id == jobs[k].id;
    assert forall j | j in done :: j.id != jobs[k].id;
  }

  /** A dispatch answers every request of its batch by steps of the protocol, and then it can
      finish: nothing of the batch is left pending. */
  lemma {:induction false} DispatchIsPath(limits: Limits, s: State, exec: Dispatch.Executor, jobs: seq<Dispatch.Job>, futures: Dispatch.Futures, cancelled: set<nat>)
    returns (states: seq<State>, events: seq<Event>)
    requires Dispatches(limits, s, jobs, futures)
    ensures Path(limits, states, events) && OnBatch(s.worker.batch, events) && states[0] == s
    ensures var last := states[|states| - 1];
      && last == s.(futures := Statuses(Dispatch.OneByOne(exec, jobs, futures, cancelled)), worker := s.worker.(left := {}))
      && SchedulerRuns.Steps(limits, last, SchedulerRuns.Finish, last.(worker := SchedulerRuns.Looping))
      && forall x | x in s.worker.batch :: x.id in last.futures && last.futures[x.id] != SchedulerRuns.Pending
  {
    states, events := JobsArePath(limits, s, exec, jobs, futures, cancelled, |jobs|);
    assert jobs[..|jobs|] == jobs;
    NothingLeft(limits, s, jobs, futures);
    PathSafe(limits, states, events, |events|);
  }

  lemma {:induction false} NothingLeft(limits: Limits, s: State, jobs: seq<Dispatch.Job>, futures: Dispatch.Futures)
    requires Dispatches(limits, s, jobs, futures)
    ensures s.worker.left - JobIds(jobs) == {}
  {
    forall id | id in s.worker.left ensures id in JobIds(jobs) {
      var x :| x in s.worker.batch && x.id == id;
      var i :| 0 <= i < |s.worker.batch| && s.worker.batch[i] == x;
      assert jobs[i] in jobs;
    }
  }

  lemma {:induction false} PathSafe(limits: Limits, states: seq<State>, events: seq<Event>, i: nat)
    requires Path(limits, states, events) && SchedulerRuns.Safe(limits, states[0]) && i <= |events|
    ensures SchedulerRuns.Safe(limits, states[i])
  {
    if i > 0 {
      PathSafe(limits, states, events, i - 1);
      assert SchedulerRuns.Steps(limits, states[i - 1], events[i - 1], states[i - 1 + 1]);
      SchedulerRuns.StepSafe(limits, states[i - 1], events[i - 1], states[i]);
    }
  }
}
