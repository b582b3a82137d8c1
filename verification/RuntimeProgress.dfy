/** Deadlock freedom of the model runtime, and what cancellation does to its threads. */
module RuntimeProgress {
  import opened Options
  import opened Eviction
  import opened Runtime
  import opened RuntimeSafety
  import opened RuntimeShape

  // ----- who waits for whom

  /** Steps that need neither a new caller, a timeout nor a cancellation. */
  predicate Internal(e: Event) {
    e.TakeModel? || e.TakeGpu? || e.EndThread? || e.TakeLoad? || e.EndLoad? || e.EvictNow? || e.Drained?
  }

  ghost predicate CanMove(c: Config, s: State, t: nat) {
    exists e :: Internal(e) && e.t == t && Enabled(c, s, e)
  }

  /** Task t waits for something that task u holds. */
  predicate WaitsFor(s: State, t: nat, u: nat) {
    t in s.tasks && u in s.tasks &&
    match s.tasks[t]
    case WaitLoad(want, _) => HasLock(s.tasks[u], want.lock)
    case Running(b, device, place, _) =>
      if place == AtModel then HasPermit(s.tasks[u], b) else place == AtGpu && device.Some? && HasGpu(s.tasks[u], device.value)
    case Draining(b) => Uses(s.tasks[u], b)
    case _ => false
  }

  /** The order of acquisition: load lock, model semaphore, GPU semaphore. */
  function Rank(x: Stage): nat {
    match x
    case WaitLoad(_, _) => 0
    case Draining(_) => 0
    case Running(_, _, place, _) => if place == AtModel then 1 else if place == AtGpu then 2 else 3
    case _ => 3
  }

  lemma {:induction false} WaitsClimb(s: State, t: nat, u: nat)
    requires WaitsFor(s, t, u)
    ensures Rank(s.tasks[t]) < Rank(s.tasks[u]) && s.tasks[u] != Done
  {
  }

  ghost predicate Sized(c: Config) {
    forall d | d in c.gpu :: c.gpu[d] > 0
  }

  lemma {:induction false} Held(s: State, t: nat, p: Stage -> bool) returns (u: nat)
    requires Count(s.tasks, p) > 0
    ensures u in s.tasks && p(s.tasks[u])
  {
    CountSome(s.tasks, p);
    u :| u in s.tasks && p(s.tasks[u]);
  }

  lemma {:induction false} ModelMovesOrWaits(c: Config, s: State, t: nat)
    requires Inv(c, s) && t in s.tasks && s.tasks[t].Running? && s.tasks[t].place == AtModel
    ensures CanMove(c, s, t) || exists u :: WaitsFor(s, t, u)
  {
    var b := s.tasks[t].bundle;
    assert Placed(c, s, s.tasks[t]);
    assert GoodBundle(c, s.shelf.bundles[b]);
    if s.shelf.bundles[b].free > 0 {
      assert Enabled(c, s, TakeModel(t)) && Internal(TakeModel(t));
    } else {
      assert Taken(s.shelf.bundles, b) == Count(s.tasks, PastModel(b));
      var u := Held(s, t, PastModel(b));
      assert WaitsFor(s, t, u);
    }
  }

  lemma {:induction false} GpuMovesOrWaits(c: Config, s: State, t: nat)
    requires Inv(c, s) && Sized(c) && t in s.tasks && s.tasks[t].Running? && s.tasks[t].place == AtGpu
    ensures CanMove(c, s, t) || exists u :: WaitsFor(s, t, u)
  {
    assert Placed(c, s, s.tasks[t]);
    var d := s.tasks[t].device.value;
    if s.gpu[d] > 0 {
      assert Enabled(c, s, TakeGpu(t)) && Internal(TakeGpu(t));
    } else {
      assert TakenGpu(c.gpu, s.gpu, d) == Count(s.tasks, OnDevice(d));
      var u := Held(s, t, OnDevice(d));
      assert WaitsFor(s, t, u);
    }
  }

  lemma {:induction false} LoadMovesOrWaits(c: Config, s: State, t: nat)
    requires Inv(c, s) && t in s.tasks && s.tasks[t].WaitLoad?
    ensures CanMove(c, s, t) || exists u :: WaitsFor(s, t, u)
  {
    var l := s.tasks[t].want.lock;
    if l in s.locked {
      assert Bit(l in s.locked) == Count(s.tasks, Holding(l));
      var u := Held(s, t, Holding(l));
      assert WaitsFor(s, t, u);
    } else {
      assert Enabled(c, s, TakeLoad(t, 0.0)) && Internal(TakeLoad(t, 0.0));
    }
  }

  lemma {:induction false} DrainMovesOrWaits(c: Config, s: State, t: nat)
    requires Inv(c, s) && t in s.tasks && s.tasks[t].Draining?
    ensures CanMove(c, s, t) || exists u :: WaitsFor(s, t, u)
  {
    var b := s.tasks[t].bundle;
    assert Placed(c, s, s.tasks[t]);
    if s.shelf.bundles[b].inUse <= 0 {
      assert Enabled(c, s, Drained(t)) && Internal(Drained(t));
    } else {
      assert InUse(s.shelf.bundles, b) == Count(s.tasks, On(b));
      var u := Held(s, t, On(b));
      assert WaitsFor(s, t, u);
    }
  }

  lemma {:induction false} HolderMoves(c: Config, s: State, t: nat)
    requires Inv(c, s) && t in s.tasks
    requires s.tasks[t].Loading? || s.tasks[t].Evicting? || (s.tasks[t].Running? && s.tasks[t].place == Executing)
    ensures CanMove(c, s, t)
  {
    assert Placed(c, s, s.tasks[t]);
    match s.tasks[t]
    case Loading(_, _) =>
      var e := EndLoad(t, false, 1, None, 0.0);
      assert Enabled(c, s, e) && Internal(e);
    case Running(_, _, _, _) =>
      var e := EndThread(t, true, 0.0);
      assert Enabled(c, s, e) && Internal(e);
    case Evicting(key, _) =>
      var victims: seq<string> := [];
      if c.limit > 0 {
        victims := CanEvict(s.shelf, Some(key), c.limit, []);
      }
      assert Enabled(c, s, EvictNow(t, victims)) && Internal(EvictNow(t, victims));
  }

  lemma {:induction false} MovesOrWaits(c: Config, s: State, t: nat)
    requires Inv(c, s) && Sized(c) && t in s.tasks && s.tasks[t] != Done
    ensures CanMove(c, s, t) || exists u :: WaitsFor(s, t, u)
  {
    match s.tasks[t]
    case WaitLoad(_, _) => LoadMovesOrWaits(c, s, t);
    case Draining(_) => DrainMovesOrWaits(c, s, t);
    case Loading(_, _) => HolderMoves(c, s, t);
    case Evicting(_, _) => HolderMoves(c, s, t);
    case Running(_, _, place, _) =>
      match place {
        case AtModel => ModelMovesOrWaits(c, s, t);
        case AtGpu => GpuMovesOrWaits(c, s, t);
        case Executing => HolderMoves(c, s, t);
      }
  }

  ghost predicate Chain(s: State, path: seq<nat>) {
    path != [] && forall i | 0 < i < |path| :: WaitsFor(s, path[i - 1], path[i])
  }

  /** Every unfinished task stands at the head of a chain of waits whose end can move. */
  lemma {:induction false} NoDeadlock(c: Config, s: State, t: nat) returns (path: seq<nat>)
    requires Inv(c, s) && Sized(c) && t in s.tasks && s.tasks[t] != Done
    ensures Chain(s, path) && path[0] == t && |path| <= 4 - Rank(s.tasks[t]) && CanMove(c, s, path[|path| - 1])
    decreases 4 - Rank(s.tasks[t])
  {
    MovesOrWaits(c, s, t);
    if CanMove(c, s, t) {
      path := [t];
    } else {
      var u :| WaitsFor(s, t, u);
      WaitsClimb(s, t, u);
      var rest := NoDeadlock(c, s, u);
      path := [t] + rest;
    }
  }

  // ----- left alone, the runtime finishes its work

  function Remaining(x: Stage): nat {
    match x
    case Done => 0
    case Draining(_) => 1
    case Evicting(_, _) => 1
    case Running(_, _, place, _) => if place == Executing then 2 else if place == AtGpu then 3 else 4
    case Loading(_, _) => 5
    case WaitLoad(_, _) => 6
  }

  function AtLeast(k: nat): Stage -> bool {
    (x: Stage) => Remaining(x) >= k
  }

  /** Steps left to all tasks together. */
  ghost function Left(tasks: map<nat, Stage>): nat {
    Count(tasks, AtLeast(1)) + Count(tasks, AtLeast(2)) + Count(tasks, AtLeast(3))
    + Count(tasks, AtLeast(4)) + Count(tasks, AtLeast(5)) + Count(tasks, AtLeast(6))
  }

  lemma {:induction false} LeftMoved(tasks: map<nat, Stage>, t: nat, x: Stage)
    ensures Left(tasks[t := x]) == Left(tasks) - Remaining(At(tasks, t)) + Remaining(x)
  {
    CountMoved(tasks, t, x, AtLeast(1));
    CountMoved(tasks, t, x, AtLeast(2));
    CountMoved(tasks, t, x, AtLeast(3));
    CountMoved(tasks, t, x, AtLeast(4));
    CountMoved(tasks, t, x, AtLeast(5));
    CountMoved(tasks, t, x, AtLeast(6));
  }

  lemma {:induction false} InternalStep(c: Config, s: State, e: Event)
    requires Enabled(c, s, e) && Internal(e)
    ensures var s' := Step(c, s, e);
      && e.t in s.tasks && e.t in s'.tasks && s'.tasks == s.tasks[e.t := s'.tasks[e.t]]
      && Remaining(s'.tasks[e.t]) < Remaining(s.tasks[e.t])
  {
  }

  ghost predicate AllInternal(events: seq<Event>) {
    forall i | 0 <= i < |events| :: Internal(events[i])
  }

  /** A run without new callers, timeouts or cancellations is bounded by the work there was. */
  lemma {:induction false} InternalRunEnds(c: Config, s: State, events: seq<Event>)
    requires CanRun(c, s, events) && AllInternal(events)
    ensures |events| + Left(After(c, s, events).tasks) <= Left(s.tasks)
    decreases |events|
  {
    if events != [] {
      var e := events[0];
      var s' := Step(c, s, e);
      InternalStep(c, s, e);
      LeftMoved(s.tasks, e.t, s'.tasks[e.t]);
      InternalRunEnds(c, s', events[1..]);
    }
  }

  /** Such a run that cannot go on has finished everything. */
  lemma {:induction false} StuckIsDone(c: Config, s: State)
    requires Inv(c, s) && Sized(c) && forall t :: !CanMove(c, s, t)
    ensures AllDone(s)
  {
    forall t | t in s.tasks ensures s.tasks[t] == Done {
      if s.tasks[t] != Done {
        var path := NoDeadlock(c, s, t);
      }
    }
  }

  // ----- threads that outlive their run

  /** A worker thread inside a session whose run is over. */
  ghost predicate Orphan(s: State, t: nat, b: nat) {
    t in s.threads && s.threads[t] == b && At(s.tasks, t) == Done
  }

  ghost predicate ThreadInside(s: State, b: nat) {
    exists t :: t in s.threads && s.threads[t] == b
  }

  /** A released session has a thread in it exactly when a run on it left its thread behind. */
  lemma {:induction false} ThreadInReleased(c: Config, events: seq<Event>, b: nat)
    requires CanRun(c, Start(c), events)
    ensures var s := After(c, Start(c), events);
      b < |s.shelf.bundles| && s.shelf.bundles[b].released ==> (ThreadInside(s, b) <==> exists t :: Orphan(s, t, b))
  {
    StartInv(c);
    RunKeepsInv(c, Start(c), events);
    var s := After(c, Start(c), events);
    if b < |s.shelf.bundles| && s.shelf.bundles[b].released {
      assert GoodBundle(c, s.shelf.bundles[b]);
      assert InUse(s.shelf.bundles, b) == Count(s.tasks, On(b));
      CountSome(s.tasks, On(b));
      forall t | t in s.threads && s.threads[t] == b ensures Orphan(s, t, b) {
        assert !Uses(s.tasks[t], b);
      }
    }
  }

  /** Cancelling a run whose thread is inside the session leaves the thread behind. */
  predicate CancelsThread(s: State, e: Event) {
    e.Cancel? && e.t in s.tasks && s.tasks[e.t].Running? && s.tasks[e.t].place == Executing
  }

  lemma {:induction false} OrphansByCancelOnly(c: Config, s: State, e: Event, t: nat, b: nat)
    requires Inv(c, s) && Enabled(c, s, e) && !Orphan(s, t, b)
    ensures Orphan(Step(c, s, e), t, b) <==> CancelsThread(s, e) && e.t == t && s.tasks[t].bundle == b
  {
    ThreadsOfStep(c, s, e);
    TasksOfStep(c, s, e);
    TaskOfStep(c, s, e);
  }

  predicate Enters(s: State, e: Event) {
    e.TakeGpu? || (e.TakeModel? && e.t in s.tasks && s.tasks[e.t].Running? && s.tasks[e.t].device.None?)
  }

  lemma {:induction false} ThreadsOfStep(c: Config, s: State, e: Event)
    requires Enabled(c, s, e)
    ensures Step(c, s, e).threads
         == if e.EndThread? || e.EndOrphan? then s.threads - {e.t}
            else if Enters(s, e) then s.threads[e.t := s.tasks[e.t].bundle]
            else s.threads
  {
  }

  lemma {:induction false} TasksOfStep(c: Config, s: State, e: Event)
    requires Enabled(c, s, e)
    ensures forall t | t != e.t :: At(Step(c, s, e).tasks, t) == At(s.tasks, t)
  {
    if OfRun(e) {
      TasksOfRun(c, s, e);
    } else {
      TasksOfRegistry(c, s, e);
    }
  }

  predicate OfRun(e: Event) {
    e.Begin? || e.TakeModel? || e.TakeGpu? || e.EndThread? || e.TimeOut? || e.Cancel? || e.EndOrphan?
  }

  lemma {:induction false} TasksOfRun(c: Config, s: State, e: Event)
    requires Enabled(c, s, e) && OfRun(e)
    ensures forall t | t != e.t :: At(Step(c, s, e).tasks, t) == At(s.tasks, t)
  {
  }

  lemma {:induction false} TasksOfRegistry(c: Config, s: State, e: Event)
    requires Enabled(c, s, e) && !OfRun(e)
    ensures forall t | t != e.t :: At(Step(c, s, e).tasks, t) == At(s.tasks, t)
  {
  }

  lemma {:induction false} TaskOfStep(c: Config, s: State, e: Event)
    requires Enabled(c, s, e)
    ensures e.Cancel? ==> At(Step(c, s, e).tasks, e.t) == Done
    ensures Enters(s, e) ==> At(Step(c, s, e).tasks, e.t) != Done
  {
  }

  lemma {:induction false} OrphansStay(c: Config, s: State, e: Event, t: nat, b: nat)
    requires Inv(c, s) && Enabled(c, s, e) && Orphan(s, t, b)
    ensures Orphan(Step(c, s, e), t, b) <==> e != EndOrphan(t)
  {
    ThreadsOfStep(c, s, e);
    TasksOfStep(c, s, e);
    if e.t == t {
      DoneStaysDone(c, s, e, t);
    }
  }

  lemma {:induction false} DoneStaysDone(c: Config, s: State, e: Event, t: nat)
    requires Enabled(c, s, e) && t in s.tasks && s.tasks[t] == Done && e.t == t
    ensures e == EndOrphan(t)
  {
  }

  ghost predicate NeverEnds(events: seq<Event>, t: nat) {
    forall i | 0 <= i < |events| :: events[i] != EndOrphan(t)
  }

  /** Some event cancels run t while its thread is inside bundle b, and the thread does not end
      after it. */
  ghost predicate Abandons(c: Config, s: State, events: seq<Event>, t: nat, b: nat)
    requires CanRun(c, s, events)
    decreases |events|
  {
    events != [] &&
    (|| (CancelsThread(s, events[0]) && events[0].t == t && s.tasks[t].bundle == b && NeverEnds(events[1..], t))
     || Abandons(c, Step(c, s, events[0]), events[1..], t, b))
  }

  lemma {:induction false} NeverEndsStep(events: seq<Event>, t: nat)
    requires events != []
    ensures NeverEnds(events, t) <==> events[0] != EndOrphan(t) && NeverEnds(events[1..], t)
  {
    assert events == [events[0]] + events[1..];
  }

  /** A thread is left behind exactly when an event of the run abandoned it. */
  lemma {:induction false} OrphansAreAbandoned(c: Config, s: State, events: seq<Event>, t: nat, b: nat)
    requires Inv(c, s) && CanRun(c, s, events)
    ensures Orphan(After(c, s, events), t, b) <==> (Orphan(s, t, b) && NeverEnds(events, t)) || Abandons(c, s, events, t, b)
    decreases |events|
  {
    if events != [] {
      OrphanStep(c, s, events[0], t, b);
      NeverEndsStep(events, t);
      StepKeepsInv(c, s, events[0]);
      OrphansAreAbandoned(c, Step(c, s, events[0]), events[1..], t, b);
    }
  }

  lemma {:induction false} OrphanStep(c: Config, s: State, e: Event, t: nat, b: nat)
    requires Inv(c, s) && Enabled(c, s, e)
    ensures Orphan(Step(c, s, e), t, b)
       <==> (Orphan(s, t, b) && e != EndOrphan(t)) || (CancelsThread(s, e) && e.t == t && s.tasks[t].bundle == b)
    ensures Orphan(s, t, b) ==> !(CancelsThread(s, e) && e.t == t)
  {
    if Orphan(s, t, b) {
      OrphansStay(c, s, e, t, b);
    } else {
      OrphansByCancelOnly(c, s, e, t, b);
    }
  }

  ghost predicate Abandoned(c: Config, events: seq<Event>, t: nat, b: nat) {
    CanRun(c, Start(c), events) && Abandons(c, Start(c), events, t, b)
  }

  lemma {:induction false} OrphanIff(c: Config, events: seq<Event>, t: nat, b: nat)
    requires CanRun(c, Start(c), events)
    ensures Orphan(After(c, Start(c), events), t, b) <==> Abandoned(c, events, t, b)
  {
    StartInv(c);
    OrphansAreAbandoned(c, Start(c), events, t, b);
  }

  /** Over every run: a released session has a thread in it exactly when a run on it was
      cancelled in execution and its thread has not ended since. */
  lemma {:induction false} ReleasedUnderThreadIff(c: Config, events: seq<Event>, b: nat)
    requires CanRun(c, Start(c), events)
    ensures var s := After(c, Start(c), events);
      b < |s.shelf.bundles| && s.shelf.bundles[b].released ==> (ThreadInside(s, b) <==> exists t: nat :: Abandoned(c, events, t, b))
  {
    ThreadInReleased(c, events, b);
    forall t: nat ensures Orphan(After(c, Start(c), events), t, b) <==> Abandoned(c, events, t, b) {
      OrphanIff(c, events, t, b);
    }
  }

  // ----- a session released under a thread

  const CPU := Config(map[], 0)

  function Model(free: int, inUse: int, released: bool): Bundle {
    Bundle("m", 1, free, None, inUse, released, 0.0)
  }

  function Scene(bundles: seq<Bundle>, keys: map<string, nat>, locked: set<nat>, tasks: map<nat, Stage>, threads: map<nat, nat>): State {
    State(Shelf(bundles, keys, map["m" := 0]), 1, locked, map[], tasks, threads)
  }

  lemma {:induction false} Prepend(c: Config, s: State, e: Event, s1: State, rest: seq<Event>)
    requires Enabled(c, s, e) && Step(c, s, e) == s1 && CanRun(c, s1, rest)
    ensures CanRun(c, s, [e] + rest) && After(c, s, [e] + rest) == After(c, s1, rest)
  {
    assert ([e] + rest)[1..] == rest;
  }

  ghost predicate Hurt(s: State) {
    |s.shelf.bundles| == 1 && s.shelf.bundles[0].released && ThreadInside(s, 0)
  }

  lemma {:induction false} ReleaseAfterCancel() returns (events: seq<Event>)
    ensures var s := Scene([Model(1, 0, false)], map["m" := 0], {0}, map[0 := Evicting("m", Some(0)), 1 := Done], map[1 := 0]);
      CanRun(CPU, s, events) && Hurt(After(CPU, s, events))
  {
    var s6 := Scene([Model(1, 0, false)], map["m" := 0], {0}, map[0 := Evicting("m", Some(0)), 1 := Done], map[1 := 0]);
    var s7 := Step(CPU, s6, Unload(2, "m"));
    assert s7.shelf.bundles == [Model(1, 0, false)] && s7.tasks[2] == Draining(0) && s7.threads[1] == 0;
    var s8 := Step(CPU, s7, Drained(2));
    assert s8.shelf.bundles == [Model(1, 0, true)] && s8.threads[1] == 0;
    Prepend(CPU, s7, Drained(2), s8, []);
    Prepend(CPU, s6, Unload(2, "m"), s7, [Drained(2)] + []);
    events := [Unload(2, "m")] + ([Drained(2)] + []);
  }

  lemma {:induction false} CancelInside() returns (events: seq<Event>)
    ensures var s := Scene([Model(0, 1, false)], map["m" := 0], {0},
                           map[0 := Evicting("m", Some(0)), 1 := Running(0, None, Executing, None)], map[1 := 0]);
      CanRun(CPU, s, events) && Hurt(After(CPU, s, events))
  {
    var s5 := Scene([Model(0, 1, false)], map["m" := 0], {0},
                    map[0 := Evicting("m", Some(0)), 1 := Running(0, None, Executing, None)], map[1 := 0]);
    var s6 := Scene([Model(1, 0, false)], map["m" := 0], {0}, map[0 := Evicting("m", Some(0)), 1 := Done], map[1 := 0]);
    var rest := ReleaseAfterCancel();
    assert Step(CPU, s5, Cancel(1, 0.0)) == s6;
    Prepend(CPU, s5, Cancel(1, 0.0), s6, rest);
    events := [Cancel(1, 0.0)] + rest;
  }

  lemma {:induction false} EnterThenCancel() returns (events: seq<Event>)
    ensures var s := Scene([Model(1, 1, false)], map["m" := 0], {0},
                           map[0 := Evicting("m", Some(0)), 1 := Running(0, None, AtModel, None)], map[]);
      CanRun(CPU, s, events) && Hurt(After(CPU, s, events))
  {
    var s4 := Scene([Model(1, 1, false)], map["m" := 0], {0},
                    map[0 := Evicting("m", Some(0)), 1 := Running(0, None, AtModel, None)], map[]);
    var s5 := Scene([Model(0, 1, false)], map["m" := 0], {0},
                    map[0 := Evicting("m", Some(0)), 1 := Running(0, None, Executing, None)], map[1 := 0]);
    var rest := CancelInside();
    assert Step(CPU, s4, TakeModel(1)) == s5;
    Prepend(CPU, s4, TakeModel(1), s5, rest);
    events := [TakeModel(1)] + rest;
  }

  lemma {:induction false} BeginThenCancel() returns (events: seq<Event>)
    ensures var s := Scene([Model(1, 0, false)], map["m" := 0], {0}, map[0 := Evicting("m", Some(0))], map[]);
      CanRun(CPU, s, events) && Hurt(After(CPU, s, events))
  {
    var s3 := Scene([Model(1, 0, false)], map["m" := 0], {0}, map[0 := Evicting("m", Some(0))], map[]);
    var s4 := Scene([Model(1, 1, false)], map["m" := 0], {0},
                    map[0 := Evicting("m", Some(0)), 1 := Running(0, None, AtModel, None)], map[]);
    var rest := EnterThenCancel();
    assert Step(CPU, s3, Begin(1, 0)) == s4;
    Prepend(CPU, s3, Begin(1, 0), s4, rest);
    events := [Begin(1, 0)] + rest;
  }

  lemma {:induction false} LoadThenCancel() returns (events: seq<Event>)
    ensures var s := Scene([], map[], {0}, map[0 := Loading(Hold("m", 0), false)], map[]);
      CanRun(CPU, s, events) && Hurt(After(CPU, s, events))
  {
    var s2 := Scene([], map[], {0}, map[0 := Loading(Hold("m", 0), false)], map[]);
    var s3 := Scene([Model(1, 0, false)], map["m" := 0], {0}, map[0 := Evicting("m", Some(0))], map[]);
    var e := EndLoad(0, true, 1, None, 0.0);
    var rest := BeginThenCancel();
    assert Step(CPU, s2, e) == s3;
    Prepend(CPU, s2, e, s3, rest);
    events := [e] + rest;
  }

  /** A caller that gives up during inference, then an unload: the session is released while
      the worker thread is still inside it. */
  lemma {:induction false} ReleasedUnderThread() returns (events: seq<Event>)
    ensures CanRun(CPU, Start(CPU), events) && Hurt(After(CPU, Start(CPU), events))
  {
    var s1 := Scene([], map[], {}, map[0 := WaitLoad(Hold("m", 0), false)], map[]);
    var s2 := Scene([], map[], {0}, map[0 := Loading(Hold("m", 0), false)], map[]);
    var rest := LoadThenCancel();
    assert Step(CPU, s1, TakeLoad(0, 0.0)) == s2;
    Prepend(CPU, s1, TakeLoad(0, 0.0), s2, rest);
    assert Step(CPU, Start(CPU), Request(0, "m", false, 0.0)) == s1;
    Prepend(CPU, Start(CPU), Request(0, "m", false, 0.0), s1, [TakeLoad(0, 0.0)] + rest);
    events := [Request(0, "m", false, 0.0)] + ([TakeLoad(0, 0.0)] + rest);
  }

  // ----- one load per key

  /** The load lock a task waits for or holds, with its key. */
  function Wants(x: Stage): Option<Hold> {
    match x
    case WaitLoad(want, _) => Some(want)
    case Loading(hold, _) => Some(hold)
    case Running(_, _, _, prewarm) => prewarm
    case Evicting(key, lock) => if lock.Some? then Some(Hold(key, lock.value)) else None
    case _ => None
  }

  predicate Current(loadLocks: map<string, nat>, want: Option<Hold>) {
    want.Some? ==> want.value.key in loadLocks && loadLocks[want.value.key] == want.value.lock
  }

  /** Every task agrees with the registry on the lock of its key. */
  ghost predicate OneLockPerKey(s: State) {
    forall t | t in s.tasks :: Current(s.shelf.loadLocks, Wants(s.tasks[t]))
  }

  /** Unloading and evicting throw load locks away. */
  predicate DropsLock(e: Event) {
    e.Unload? || (e.EvictNow? && e.victims != [])
  }

  lemma {:induction false} LocksOfRun(c: Config, s: State, e: Event)
    requires Enabled(c, s, e) && OfRun(e)
    ensures Step(c, s, e).shelf.loadLocks == s.shelf.loadLocks
  {
  }

  lemma {:induction false} LocksOfRegistry(c: Config, s: State, e: Event)
    requires Enabled(c, s, e) && !OfRun(e) && !DropsLock(e) && !e.Request?
    ensures Step(c, s, e).shelf.loadLocks == s.shelf.loadLocks
  {
  }

  lemma {:induction false} LocksOfRequest(s: State, t: nat, key: string, replace: bool, now: real)
    ensures var locks := Requested(s, t, key, replace, now).shelf.loadLocks;
      locks == s.shelf.loadLocks || (key !in s.shelf.loadLocks && locks == s.shelf.loadLocks[key := s.locks])
  {
  }

  lemma {:induction false} WantOfRun(c: Config, s: State, e: Event)
    requires Enabled(c, s, e) && OfRun(e) && Current(s.shelf.loadLocks, Wants(At(s.tasks, e.t)))
    ensures Current(s.shelf.loadLocks, Wants(At(Step(c, s, e).tasks, e.t)))
  {
  }

  lemma {:induction false} WantOfRegistry(c: Config, s: State, e: Event)
    requires Enabled(c, s, e) && !OfRun(e) && !DropsLock(e) && Current(s.shelf.loadLocks, Wants(At(s.tasks, e.t)))
    ensures Current(Step(c, s, e).shelf.loadLocks, Wants(At(Step(c, s, e).tasks, e.t)))
  {
  }

  lemma {:induction false} LocksAgree(c: Config, s: State, e: Event)
    requires Enabled(c, s, e) && !DropsLock(e) && OneLockPerKey(s)
    ensures OneLockPerKey(Step(c, s, e))
  {
    var s' := Step(c, s, e);
    assert Current(s.shelf.loadLocks, Wants(At(s.tasks, e.t)));
    if OfRun(e) {
      LocksOfRun(c, s, e);
      WantOfRun(c, s, e);
    } else {
      if e.Request? {
        LocksOfRequest(s, e.t, e.key, e.replace, e.now);
      } else {
        LocksOfRegistry(c, s, e);
      }
      WantOfRegistry(c, s, e);
    }
    TasksOfStep(c, s, e);
    forall t | t in s'.tasks ensures Current(s'.shelf.loadLocks, Wants(s'.tasks[t])) {
      assert s'.tasks[t] == At(s'.tasks, t);
      assert t != e.t ==> Current(s.shelf.loadLocks, Wants(At(s.tasks, t)));
    }
  }

  lemma {:induction false} RunAgrees(c: Config, s: State, events: seq<Event>)
    requires CanRun(c, s, events) && OneLockPerKey(s) && forall i | 0 <= i < |events| :: !DropsLock(events[i])
    ensures OneLockPerKey(After(c, s, events))
    decreases |events|
  {
    if events != [] {
      LocksAgree(c, s, events[0]);
      RunAgrees(c, Step(c, s, events[0]), events[1..]);
    }
  }

  /** As long as nothing is unloaded or evicted, a key is loaded by one task at a time. */
  lemma {:induction false} OneLoadPerKey(c: Config, events: seq<Event>, t: nat, u: nat)
    requires CanRun(c, Start(c), events) && forall i | 0 <= i < |events| :: !DropsLock(events[i])
    ensures var tasks := After(c, Start(c), events).tasks;
      t in tasks && u in tasks && tasks[t].Loading? && tasks[u].Loading? && tasks[t].hold.key == tasks[u].hold.key ==> t == u
  {
    StartInv(c);
    RunKeepsInv(c, Start(c), events);
    RunAgrees(c, Start(c), events);
    var s := After(c, Start(c), events);
    if t in s.tasks && u in s.tasks && s.tasks[t].Loading? && s.tasks[u].Loading? && s.tasks[t].hold.key == s.tasks[u].hold.key {
      var l := s.tasks[t].hold.lock;
      assert Current(s.shelf.loadLocks, Wants(s.tasks[t])) && Current(s.shelf.loadLocks, Wants(s.tasks[u]));
      assert HasLock(s.tasks[t], l) && HasLock(s.tasks[u], l);
      assert Bit(l in s.locked) == Count(s.tasks, Holding(l));
      CountOne(s.tasks, Holding(l), t, u);
    }
  }
}
