/** Safety of the model runtime over every interleaving. */
module RuntimeSafety {
  import opened Options
  import opened Eviction
  import opened Runtime

  // ----- every step keeps the counters exact

  lemma {:induction false} InFlight(c: Config, s: State, t: nat)
    requires Inv(c, s) && t in s.tasks && s.tasks[t].Running?
    ensures s.tasks[t].bundle < |s.shelf.bundles| && s.shelf.bundles[s.tasks[t].bundle].inUse >= 1
    ensures s.tasks[t].prewarm.Some? ==> s.shelf.bundles[s.tasks[t].bundle].inUse == 1
    ensures s.tasks[t].device.Some? ==> s.tasks[t].device.value in c.gpu && s.tasks[t].device.value in s.gpu
  {
    var b := s.tasks[t].bundle;
    assert Placed(c, s, s.tasks[t]);
    CountSome(s.tasks, On(b));
    assert Uses(s.tasks[t], b);
    assert InUse(s.shelf.bundles, b) == Count(s.tasks, On(b));
    if s.tasks[t].prewarm.Some? {
      assert Where(s.tasks, On(b)) == {t};
    }
  }

  /** The clamp at zero in the finally block never bites. */
  lemma {:induction false} ClampNeverBites(c: Config, s: State, t: nat, now: real)
    requires Inv(c, s) && t in s.tasks && s.tasks[t].Running?
    ensures s.tasks[t].bundle < |s.shelf.bundles|
    ensures GiveBack(s, s.tasks[t], now).shelf.bundles[s.tasks[t].bundle].inUse == s.shelf.bundles[s.tasks[t].bundle].inUse - 1
  {
    InFlight(c, s, t);
  }

  lemma {:induction false} LockHeld(c: Config, s: State, t: nat, l: nat)
    requires Inv(c, s) && t in s.tasks && HeldLock(s.tasks[t]) == Some(l)
    ensures l in s.locked
  {
    CountSome(s.tasks, Holding(l));
    assert HasLock(s.tasks[t], l);
  }

  lemma {:induction false} UnlockMoves(s: State, was: Stage, x: Stage)
    requires HeldLock(was).Some? ==> HeldLock(was).value in s.locked
    requires HeldLock(x).None?
    ensures LocksMove(s.locked, was, x, Unlock(s, HeldLock(was)).locked)
  {
  }

  lemma {:induction false} SameLock(locked: set<nat>, was: Stage, x: Stage)
    requires HeldLock(was) == HeldLock(x)
    ensures LocksMove(locked, was, x, locked)
  {
  }

  /** The finally block settles the accounts of a run, whatever stage it ends in. */
  lemma {:induction false} GiveBackMoves(c: Config, s: State, was: Stage, x: Stage, now: real)
    requires was.Running? && !x.Running? && was.bundle < |s.shelf.bundles| && s.shelf.bundles[was.bundle].inUse >= 1
    requires was.device.Some? ==> was.device.value in c.gpu && was.device.value in s.gpu
    ensures var s' := GiveBack(s, was, now);
      && UsesMove(s.shelf.bundles, was, x, s'.shelf.bundles)
      && PermitsMove(s.shelf.bundles, was, x, s'.shelf.bundles)
      && GpuMoves(c.gpu, s.gpu, was, x, s'.gpu)
  {
  }

  /** Bundles whose counters did not change. */
  ghost predicate SameCounts(a: seq<Bundle>, b: seq<Bundle>) {
    |a| == |b| && forall i | 0 <= i < |a| :: a[i].inUse == b[i].inUse && a[i].free == b[i].free && a[i].permits == b[i].permits
  }

  lemma {:induction false} SameCountsMove(a: seq<Bundle>, b: seq<Bundle>, b': seq<Bundle>, was: Stage, x: Stage)
    requires SameCounts(b, b') && UsesMove(a, was, x, b) && PermitsMove(a, was, x, b)
    ensures UsesMove(a, was, x, b') && PermitsMove(a, was, x, b')
  {
    forall i: nat ensures InUse(b', i) == InUse(b, i) && Taken(b', i) == Taken(b, i) {
    }
  }

  lemma {:induction false} UsesStill(bundles: seq<Bundle>, was: Stage, x: Stage)
    requires was.Running? == x.Running? && (x.Running? ==> was.bundle == x.bundle)
    ensures UsesMove(bundles, was, x, bundles)
  {
    forall b: nat ensures InUse(bundles, b) == InUse(bundles, b) - Bit(Uses(was, b)) + Bit(Uses(x, b)) {
      assert Uses(was, b) == Uses(x, b);
    }
  }

  lemma {:induction false} PermitsStill(bundles: seq<Bundle>, was: Stage, x: Stage)
    requires forall b: nat :: HasPermit(was, b) == HasPermit(x, b)
    ensures PermitsMove(bundles, was, x, bundles)
  {
    forall b: nat ensures Taken(bundles, b) == Taken(bundles, b) - Bit(HasPermit(was, b)) + Bit(HasPermit(x, b)) {
      assert HasPermit(was, b) == HasPermit(x, b);
    }
  }

  lemma {:induction false} GpuStill(cap: map<nat, nat>, gpu: map<nat, int>, was: Stage, x: Stage)
    requires forall d: nat :: HasGpu(was, d) == HasGpu(x, d)
    ensures GpuMoves(cap, gpu, was, x, gpu)
  {
    forall d: nat ensures TakenGpu(cap, gpu, d) == TakenGpu(cap, gpu, d) - Bit(HasGpu(was, d)) + Bit(HasGpu(x, d)) {
      assert HasGpu(was, d) == HasGpu(x, d);
    }
  }

  lemma {:induction false} IdleMoves(c: Config, s: State, was: Stage, x: Stage)
    requires !was.Running? && !x.Running?
    ensures UsesMove(s.shelf.bundles, was, x, s.shelf.bundles) && PermitsMove(s.shelf.bundles, was, x, s.shelf.bundles)
    ensures GpuMoves(c.gpu, s.gpu, was, x, s.gpu)
  {
    UsesStill(s.shelf.bundles, was, x);
    PermitsStill(s.shelf.bundles, was, x);
    GpuStill(c.gpu, s.gpu, was, x);
  }

  lemma {:induction false} BeginMoves(c: Config, s: State, b: nat, x: Stage)
    requires b < |s.shelf.bundles| && x.Running? && x.bundle == b && x.place == AtModel
    ensures var y := s.shelf.bundles[b];
      && UsesMove(s.shelf.bundles, Done, x, s.shelf.bundles[b := y.(inUse := y.inUse + 1)])
      && PermitsMove(s.shelf.bundles, Done, x, s.shelf.bundles[b := y.(inUse := y.inUse + 1)])
      && GpuMoves(c.gpu, s.gpu, Done, x, s.gpu)
  {
    GpuStill(c.gpu, s.gpu, Done, x);
  }

  lemma {:induction false} TakeModelMoves(c: Config, s: State, t: nat)
    requires IsRun(s, t, AtModel)
    ensures var s', x := TookModel(s, t), TookModel(s, t).tasks[t];
      && UsesMove(s.shelf.bundles, s.tasks[t], x, s'.shelf.bundles) && PermitsMove(s.shelf.bundles, s.tasks[t], x, s'.shelf.bundles)
      && GpuMoves(c.gpu, s.gpu, s.tasks[t], x, s'.gpu)
  {
  }

  lemma {:induction false} TakeGpuMoves(c: Config, s: State, x: Stage)
    requires x.Running? && x.place == AtGpu && x.device.Some? && x.device.value in s.gpu && x.device.value in c.gpu
    ensures var x' := x.(place := Executing);
      && UsesMove(s.shelf.bundles, x, x', s.shelf.bundles) && PermitsMove(s.shelf.bundles, x, x', s.shelf.bundles)
      && GpuMoves(c.gpu, s.gpu, x, x', s.gpu[x.device.value := s.gpu[x.device.value] - 1])
  {
    UsesStill(s.shelf.bundles, x, x.(place := Executing));
    PermitsStill(s.shelf.bundles, x, x.(place := Executing));
  }

  lemma {:induction false} LoadMoves(c: Config, s: State, was: Stage, loaded: Bundle, x: Stage)
    requires was.Loading? && loaded.free == loaded.permits
    requires if x.Running? then x.bundle == |s.shelf.bundles| && x.place == AtModel && loaded.inUse == 1 else loaded.inUse == 0
    ensures UsesMove(s.shelf.bundles, was, x, s.shelf.bundles + [loaded]) && PermitsMove(s.shelf.bundles, was, x, s.shelf.bundles + [loaded])
    ensures GpuMoves(c.gpu, s.gpu, was, x, s.gpu)
  {
    GpuStill(c.gpu, s.gpu, was, x);
  }

  lemma {:induction false} HeldLockIsLocked(c: Config, s: State, t: nat)
    requires Inv(c, s) && t in s.tasks && HeldLock(s.tasks[t]).Some?
    ensures HeldLock(s.tasks[t]).value in s.locked
  {
    LockHeld(c, s, t, HeldLock(s.tasks[t]).value);
  }

  // ----- steps of a run

  /** A run that ends: by its thread, a timeout or a cancellation. */
  lemma {:induction false} EndBalanced(c: Config, s: State, t: nat, now: real, x: Stage, s': State)
    requires Inv(c, s) && t in s.tasks && s.tasks[t].Running? && s.tasks[t].bundle < |s.shelf.bundles|
    requires !x.Running? && HeldLock(x).None? && s'.tasks == s.tasks[t := x]
    requires var g := GiveBack(s, s.tasks[t], now); SameCounts(g.shelf.bundles, s'.shelf.bundles) && s'.gpu == g.gpu
    requires s'.locked == Unlock(s, HeldLock(s.tasks[t])).locked
    ensures Balanced(c, s, t, x, s')
  {
    InFlight(c, s, t);
    if HeldLock(s.tasks[t]).Some? {
      HeldLockIsLocked(c, s, t);
    }
    GiveBackMoves(c, s, s.tasks[t], x, now);
    SameCountsMove(s.shelf.bundles, GiveBack(s, s.tasks[t], now).shelf.bundles, s'.shelf.bundles, s.tasks[t], x);
    UnlockMoves(s, s.tasks[t], x);
  }

  lemma {:induction false} BeginBalanced(c: Config, s: State, t: nat, b: nat)
    requires Enabled(c, s, Begin(t, b))
    ensures var s' := Step(c, s, Begin(t, b)); t in s'.tasks && Balanced(c, s, t, s'.tasks[t], s')
  {
    var s' := Step(c, s, Begin(t, b));
    BeginMoves(c, s, b, s'.tasks[t]);
    SameLock(s.locked, Done, s'.tasks[t]);
  }

  lemma {:induction false} TakeModelBalanced(c: Config, s: State, t: nat)
    requires IsRun(s, t, AtModel)
    ensures var s' := TookModel(s, t); t in s'.tasks && Balanced(c, s, t, s'.tasks[t], s')
  {
    TakeModelMoves(c, s, t);
    SameLock(s.locked, s.tasks[t], TookModel(s, t).tasks[t]);
  }

  lemma {:induction false} TakeGpuBalanced(c: Config, s: State, t: nat)
    requires Inv(c, s) && Enabled(c, s, TakeGpu(t))
    ensures var s' := Step(c, s, TakeGpu(t)); t in s'.tasks && Balanced(c, s, t, s'.tasks[t], s')
  {
    InFlight(c, s, t);
    TakeGpuMoves(c, s, s.tasks[t]);
    SameLock(s.locked, s.tasks[t], s.tasks[t].(place := Executing));
  }

  lemma {:induction false} RunStepBalanced(c: Config, s: State, e: Event)
    requires Inv(c, s) && Enabled(c, s, e) && (e.Begin? || e.TakeModel? || e.TakeGpu?)
    ensures e.t in Step(c, s, e).tasks && Balanced(c, s, e.t, Step(c, s, e).tasks[e.t], Step(c, s, e))
  {
    match e
    case Begin(t, b) => BeginBalanced(c, s, t, b);
    case TakeModel(t) => TakeModelBalanced(c, s, t);
    case TakeGpu(t) => TakeGpuBalanced(c, s, t);
  }

  /** A run that has given back what it held is over. */
  ghost predicate RunOver(s: State, t: nat, now: real, s': State) {
    && t in s.tasks && s.tasks[t].Running? && s.tasks[t].bundle < |s.shelf.bundles|
    && t in s'.tasks && s'.tasks == s.tasks[t := s'.tasks[t]] && !s'.tasks[t].Running? && HeldLock(s'.tasks[t]).None?
    && SameCounts(GiveBack(s, s.tasks[t], now).shelf.bundles, s'.shelf.bundles) && s'.gpu == GiveBack(s, s.tasks[t], now).gpu
    && s'.locked == Unlock(s, HeldLock(s.tasks[t])).locked
  }

  lemma {:induction false} AfterRunFacts(s: State, t: nat, now: real, g: State, ok: bool)
    requires t in s.tasks && s.tasks[t].Running? && s.tasks[t].bundle < |s.shelf.bundles|
    requires g.shelf == GiveBack(s, s.tasks[t], now).shelf && g.gpu == GiveBack(s, s.tasks[t], now).gpu && g.tasks == s.tasks && g.locked == s.locked
    ensures RunOver(s, t, now, AfterRun(g, t, s.tasks[t], ok))
  {
  }

  lemma {:induction false} CancelledFacts(s: State, t: nat, now: real)
    requires t in s.tasks && s.tasks[t].Running? && s.tasks[t].bundle < |s.shelf.bundles|
    ensures RunOver(s, t, now, Cancelled(s, t, now))
  {
  }

  lemma {:induction false} RunEndFacts(c: Config, s: State, e: Event)
    requires Enabled(c, s, e) && (e.EndThread? || e.TimeOut? || (e.Cancel? && s.tasks[e.t].Running?))
    ensures RunOver(s, e.t, e.now, Step(c, s, e))
  {
    match e
    case EndThread(t, ok, now) => AfterRunFacts(s, t, now, GiveBack(s, s.tasks[t], now).(threads := s.threads - {t}), ok);
    case TimeOut(t, now) => AfterRunFacts(s, t, now, GiveBack(s, s.tasks[t], now), false);
    case Cancel(t, now) => CancelledFacts(s, t, now);
  }

  lemma {:induction false} RunEndBalanced(c: Config, s: State, e: Event)
    requires Inv(c, s) && Enabled(c, s, e) && (e.EndThread? || e.TimeOut? || (e.Cancel? && s.tasks[e.t].Running?))
    ensures e.t in Step(c, s, e).tasks && Balanced(c, s, e.t, Step(c, s, e).tasks[e.t], Step(c, s, e))
  {
    var s' := Step(c, s, e);
    RunEndFacts(c, s, e);
    EndBalanced(c, s, e.t, e.now, s'.tasks[e.t], s');
  }

  /** Steps of a task that runs nothing, before and after. */
  lemma {:induction false} IdleBalanced(c: Config, s: State, t: nat, x: Stage, s': State)
    requires Inv(c, s) && !At(s.tasks, t).Running? && !x.Running? && s'.tasks == s.tasks[t := x]
    requires SameCounts(s.shelf.bundles, s'.shelf.bundles) && s'.gpu == s.gpu
    requires LocksMove(s.locked, At(s.tasks, t), x, s'.locked)
    ensures Balanced(c, s, t, x, s')
  {
    IdleMoves(c, s, At(s.tasks, t), x);
    SameCountsMove(s.shelf.bundles, s.shelf.bundles, s'.shelf.bundles, At(s.tasks, t), x);
  }

  lemma {:induction false} EvictSameCounts(h: Shelf, except: Option<string>, limit: int, victims: seq<string>)
    requires Wired(h) && Evicts(h, except, limit, victims)
    ensures SameCounts(h.bundles, EvictAll(h, victims).bundles)
  {
    EvictionOutcome(h, except, limit, victims);
  }

  lemma {:induction false} LockBalanced(c: Config, s: State, t: nat, now: real)
    requires Inv(c, s) && Enabled(c, s, TakeLoad(t, now))
    ensures var s' := Step(c, s, TakeLoad(t, now)); t in s'.tasks && Balanced(c, s, t, s'.tasks[t], s')
  {
    var s' := Step(c, s, TakeLoad(t, now));
    IdleBalanced(c, s, t, s'.tasks[t], s');
  }

  lemma {:induction false} LoadBalanced(c: Config, s: State, e: Event)
    requires Inv(c, s) && Enabled(c, s, e) && e.EndLoad?
    ensures e.t in Step(c, s, e).tasks && Balanced(c, s, e.t, Step(c, s, e).tasks[e.t], Step(c, s, e))
  {
    var s' := Step(c, s, e);
    var x := s'.tasks[e.t];
    if e.ok {
      LoadMoves(c, s, s.tasks[e.t], s'.shelf.bundles[|s.shelf.bundles|], x);
      SameLock(s.locked, s.tasks[e.t], x);
    } else {
      HeldLockIsLocked(c, s, e.t);
      UnlockMoves(s, s.tasks[e.t], x);
      IdleBalanced(c, s, e.t, x, s');
    }
  }

  /** A task that runs nothing moves on, giving back its lock. */
  ghost predicate MovesOn(s: State, t: nat, s': State) {
    var was := At(s.tasks, t);
    && !was.Running? && t in s'.tasks && s'.tasks == s.tasks[t := s'.tasks[t]]
    && !s'.tasks[t].Running? && HeldLock(s'.tasks[t]).None?
    && SameCounts(s.shelf.bundles, s'.shelf.bundles) && s'.gpu == s.gpu
    && s'.locked == Unlock(s, HeldLock(was)).locked
  }

  lemma {:induction false} ShelfFacts(s: State, t: nat, h: Shelf)
    requires t in s.tasks && s.tasks[t].Evicting? && SameCounts(s.shelf.bundles, h.bundles)
    ensures MovesOn(s, t, WithShelf(s, t, h))
  {
  }

  lemma {:induction false} EvictFacts(s: State, t: nat, limit: int, victims: seq<string>)
    requires Wired(s.shelf) && t in s.tasks && s.tasks[t].Evicting? && Evicts(s.shelf, Some(s.tasks[t].key), limit, victims)
    ensures MovesOn(s, t, Evicted(s, t, victims))
  {
    EvictSameCounts(s.shelf, Some(s.tasks[t].key), limit, victims);
    ShelfFacts(s, t, EvictAll(s.shelf, victims));
  }

  lemma {:induction false} RequestFacts(s: State, t: nat, key: string, replace: bool, now: real)
    requires Fresh(s, t)
    ensures MovesOn(s, t, Requested(s, t, key, replace, now))
  {
  }

  lemma {:induction false} CancelFacts(s: State, t: nat, now: real)
    requires t in s.tasks && !s.tasks[t].Running?
    ensures MovesOn(s, t, Cancelled(s, t, now))
  {
  }

  lemma {:induction false} ReleaseFacts(s: State, t: nat)
    requires t in s.tasks && s.tasks[t].Draining? && s.tasks[t].bundle < |s.shelf.bundles|
    ensures MovesOn(s, t, LetGo(s, t))
  {
  }

  lemma {:induction false} UnloadFacts(s: State, t: nat, key: string)
    requires Fresh(s, t)
    ensures MovesOn(s, t, Unloaded(s, t, key))
  {
  }

  lemma {:induction false} RetireFacts(s: State, t: nat, b: nat)
    requires Fresh(s, t)
    ensures MovesOn(s, t, Becomes(s, t, Draining(b)))
  {
  }

  lemma {:induction false} OtherFacts(c: Config, s: State, e: Event)
    requires Wired(s.shelf) && Enabled(c, s, e)
    requires e.Request? || e.EvictNow? || e.Unload? || e.Retire? || e.Drained? || (e.Cancel? && !s.tasks[e.t].Running?)
    ensures MovesOn(s, e.t, Step(c, s, e))
  {
    match e
    case Request(t, key, replace, now) => RequestFacts(s, t, key, replace, now);
    case EvictNow(t, victims) => EvictFacts(s, t, c.limit, victims);
    case Unload(t, key) => UnloadFacts(s, t, key);
    case Retire(t, b) => RetireFacts(s, t, b);
    case Drained(t) => ReleaseFacts(s, t);
    case Cancel(t, now) => CancelFacts(s, t, now);
  }

  lemma {:induction false} OtherBalanced(c: Config, s: State, e: Event)
    requires Inv(c, s) && Enabled(c, s, e)
    requires e.Request? || e.EvictNow? || e.Unload? || e.Retire? || e.Drained? || (e.Cancel? && !s.tasks[e.t].Running?)
    ensures e.t in Step(c, s, e).tasks && Balanced(c, s, e.t, Step(c, s, e).tasks[e.t], Step(c, s, e))
  {
    var s' := Step(c, s, e);
    var (was, x) := (At(s.tasks, e.t), s'.tasks[e.t]);
    if HeldLock(was).Some? {
      HeldLockIsLocked(c, s, e.t);
    }
    OtherFacts(c, s, e);
    UnlockMoves(s, was, x);
    IdleBalanced(c, s, e.t, x, s');
  }

  /** Every step keeps every counter equal to the number of tasks that hold what it counts. */
  lemma {:induction false} StepConserves(c: Config, s: State, e: Event)
    requires Inv(c, s) && Enabled(c, s, e)
    ensures Conserved(c, Step(c, s, e))
  {
    var s' := Step(c, s, e);
    if !e.EndOrphan? {
      if e.Begin? || e.TakeModel? || e.TakeGpu? {
        RunStepBalanced(c, s, e);
      } else if e.EndThread? || e.TimeOut? || (e.Cancel? && s.tasks[e.t].Running?) {
        RunEndBalanced(c, s, e);
      } else if e.TakeLoad? {
        LockBalanced(c, s, e.t, e.now);
      } else if e.EndLoad? {
        LoadBalanced(c, s, e);
      } else {
        OtherBalanced(c, s, e);
      }
      BalanceConserves(c, s, e.t, s'.tasks[e.t], s');
    }
  }
}
