/** What every step of the model runtime keeps, and what follows for whole runs. */
module RuntimeShape {
  import opened Options
  import opened Eviction
  import opened Runtime
  import opened RuntimeSafety

  // ----- one task moves

  /** Bundles only this task can know. */
  ghost predicate Owned(s: State, t: nat, b: nat) {
    b >= |s.shelf.bundles| || (t in s.tasks && IsPrewarm(s.tasks[t]) && s.tasks[t].bundle == b)
  }

  ghost predicate SameKeys(a: seq<Bundle>, b: seq<Bundle>) {
    |a| <= |b| && forall i | 0 <= i < |a| :: b[i].key == a[i].key
  }

  ghost predicate NewlyRegistered(s: State, t: nat, s': State) {
    forall b: nat | Registered(s'.shelf, b) :: Registered(s.shelf, b) || Owned(s, t, b)
  }

  ghost predicate NewlyReleased(s: State, t: nat, s': State) {
    forall b | 0 <= b < |s.shelf.bundles| && b < |s'.shelf.bundles| && s'.shelf.bundles[b].released ::
      s.shelf.bundles[b].released || Registered(s.shelf, b) || !Candidate(s.tasks, b) || Owned(s, t, b)
  }

  /** What a step may do to bundles that other tasks know. */
  ghost predicate Discreet(s: State, t: nat, x: Stage, s': State) {
    && s'.tasks == s.tasks[t := x] && s.locks <= s'.locks && SameKeys(s.shelf.bundles, s'.shelf.bundles)
    && NewlyRegistered(s, t, s') && NewlyReleased(s, t, s')
    && (IsPrewarm(x) ==> Owned(s, t, x.bundle))
  }

  lemma {:induction false} StaysPlaced(c: Config, s: State, t: nat, x: Stage, s': State, u: nat)
    requires AllPlaced(c, s) && Solo(s.tasks) && Discreet(s, t, x, s') && u in s.tasks && u != t
    ensures Placed(c, s', s.tasks[u])
  {
    var y := s.tasks[u];
    assert Placed(c, s, y);
    if IsPrewarm(y) {
      assert Candidate(s.tasks, y.bundle);
      assert !Owned(s, t, y.bundle);
    }
  }

  lemma {:induction false} PlacedKept(c: Config, s: State, t: nat, x: Stage, s': State)
    requires AllPlaced(c, s) && Solo(s.tasks) && Discreet(s, t, x, s') && Placed(c, s', x)
    ensures AllPlaced(c, s')
  {
    forall u | u in s'.tasks ensures Placed(c, s', s'.tasks[u]) {
      if u != t {
        StaysPlaced(c, s, t, x, s', u);
      }
    }
  }

  /** A run joins only a bundle nobody is warming up. */
  ghost predicate Joins(tasks: map<nat, Stage>, t: nat, x: Stage) {
    x.Running? ==>
      || (t in tasks && tasks[t].Running? && tasks[t].bundle == x.bundle && tasks[t].prewarm == x.prewarm)
      || (x.prewarm.None? && !Candidate(tasks, x.bundle))
      || (forall u | u in tasks :: !Uses(tasks[u], x.bundle))
  }

  lemma {:induction false} SoloKept(tasks: map<nat, Stage>, t: nat, x: Stage)
    requires Solo(tasks) && Joins(tasks, t, x)
    ensures Solo(tasks[t := x])
  {
  }

  lemma {:induction false} ThreadedKept(s: State, t: nat, x: Stage, s': State)
    requires Threaded(s) && s'.tasks == s.tasks[t := x] && |s.shelf.bundles| <= |s'.shelf.bundles|
    requires if x.Running? && x.place == Executing then x.bundle < |s'.shelf.bundles| && s'.threads == s.threads[t := x.bundle]
             else s'.threads == s.threads - {t} || (s'.threads == s.threads && (x == Done || t !in s.threads))
    ensures Threaded(s')
  {
  }

  /** A step that leaves every part in shape. */
  ghost predicate Orderly(c: Config, s: State, t: nat, x: Stage, s': State) {
    && Discreet(s, t, x, s') && Placed(c, s', x) && Joins(s.tasks, t, x) && Threaded(s')
    && Wired(s'.shelf) && AllGood(c, s'.shelf.bundles) && GoodGpu(c, s'.gpu) && KnownLocks(s'.shelf.loadLocks, s'.locks)
  }

  lemma {:induction false} OrderlyShaped(c: Config, s: State, t: nat, x: Stage, s': State)
    requires Shaped(c, s) && Orderly(c, s, t, x, s')
    ensures Shaped(c, s')
  {
    PlacedKept(c, s, t, x, s');
    SoloKept(s.tasks, t, x);
  }

  // ----- the steps one by one

  /** Only counters and times of a bundle change. */
  ghost predicate SameLife(a: seq<Bundle>, b: seq<Bundle>) {
    |a| == |b| && forall i | 0 <= i < |a| :: a[i].key == b[i].key && a[i].released == b[i].released && a[i].device == b[i].device
  }

  /** Bundles keep their key and session and the registry loses entries at most. */
  ghost predicate Tame(s: State, s': State) {
    && SameLife(s.shelf.bundles, s'.shelf.bundles)
    && (forall k | k in s'.shelf.registry :: k in s.shelf.registry && s'.shelf.registry[k] == s.shelf.registry[k])
    && s.locks <= s'.locks
  }

  lemma {:induction false} TameDiscreet(s: State, t: nat, x: Stage, s': State)
    requires Tame(s, s') && s'.tasks == s.tasks[t := x] && (IsPrewarm(x) ==> Owned(s, t, x.bundle))
    ensures Discreet(s, t, x, s')
  {
    forall b: nat | Registered(s'.shelf, b) ensures Registered(s.shelf, b) {
      var k :| k in s'.shelf.registry && s'.shelf.registry[k] == b;
      assert k in s.shelf.registry && s.shelf.registry[k] == b;
    }
  }

  lemma {:induction false} TameWired(s: State, s': State)
    requires Tame(s, s') && Wired(s.shelf)
    ensures Wired(s'.shelf)
  {
    forall k | k in s'.shelf.registry
      ensures s'.shelf.registry[k] < |s'.shelf.bundles| && s'.shelf.bundles[s'.shelf.registry[k]].key == k
              && !s'.shelf.bundles[s'.shelf.registry[k]].released
    {
      assert k in s.shelf.registry;
    }
  }

  lemma {:induction false} TameUnregistered(s: State, s': State, b: nat)
    requires Tame(s, s')
    ensures !Registered(s.shelf, b) ==> !Registered(s'.shelf, b)
  {
    if k :| k in s'.shelf.registry && s'.shelf.registry[k] == b {
      assert k in s.shelf.registry && s.shelf.registry[k] == b;
    }
  }

  lemma {:induction false} TameShaped(c: Config, s: State, t: nat, x: Stage, s': State)
    requires Shaped(c, s) && Tame(s, s') && s'.tasks == s.tasks[t := x] && (IsPrewarm(x) ==> Owned(s, t, x.bundle))
    requires Placed(c, s', x) && Joins(s.tasks, t, x) && Threaded(s')
    requires AllGood(c, s'.shelf.bundles) && GoodGpu(c, s'.gpu) && KnownLocks(s'.shelf.loadLocks, s'.locks)
    ensures Shaped(c, s')
  {
    TameDiscreet(s, t, x, s');
    TameWired(s, s');
    OrderlyShaped(c, s, t, x, s');
  }

  lemma {:induction false} BeginShaped(c: Config, s: State, t: nat, b: nat)
    requires Shaped(c, s) && Enabled(c, s, Begin(t, b))
    ensures Shaped(c, Step(c, s, Begin(t, b)))
  {
    var s' := Step(c, s, Begin(t, b));
    var x := s'.tasks[t];
    assert GoodBundle(c, s.shelf.bundles[b]);
    ThreadedKept(s, t, x, s');
    TameShaped(c, s, t, x, s');
  }

  lemma {:induction false} TakeModelTame(c: Config, s: State, t: nat)
    requires AllGood(c, s.shelf.bundles) && IsRun(s, t, AtModel) && s.shelf.bundles[s.tasks[t].bundle].free > 0
    ensures Tame(s, TookModel(s, t)) && AllGood(c, TookModel(s, t).shelf.bundles)
  {
    assert GoodBundle(c, s.shelf.bundles[s.tasks[t].bundle]);
  }

  lemma {:induction false} TakeModelShaped(c: Config, s: State, t: nat)
    requires Shaped(c, s) && IsRun(s, t, AtModel) && s.shelf.bundles[s.tasks[t].bundle].free > 0
    ensures Shaped(c, TookModel(s, t))
  {
    var s' := TookModel(s, t);
    var x := s'.tasks[t];
    assert Placed(c, s, s.tasks[t]);
    TakeModelTame(c, s, t);
    TameUnregistered(s, s', x.bundle);
    ThreadedKept(s, t, x, s');
    TameShaped(c, s, t, x, s');
  }

  lemma {:induction false} TakeGpuShaped(c: Config, s: State, t: nat)
    requires Shaped(c, s) && Enabled(c, s, TakeGpu(t))
    ensures Shaped(c, Step(c, s, TakeGpu(t)))
  {
    var s' := Step(c, s, TakeGpu(t));
    var x := s'.tasks[t];
    assert Placed(c, s, s.tasks[t]);
    ThreadedKept(s, t, x, s');
    TameShaped(c, s, t, x, s');
  }

  // ----- runs that end

  /** Giving back keeps bundles and devices in order. */
  lemma {:induction false} GiveBackGood(c: Config, s: State, t: nat, now: real)
    requires Inv(c, s) && t in s.tasks && s.tasks[t].Running?
    ensures s.tasks[t].bundle < |s.shelf.bundles|
    ensures var g := GiveBack(s, s.tasks[t], now);
      && AllGood(c, g.shelf.bundles) && GoodGpu(c, g.gpu) && Tame(s, g)
      && (IsPrewarm(s.tasks[t]) ==> g.shelf.bundles[s.tasks[t].bundle].inUse == 0)
  {
    InFlight(c, s, t);
    assert GoodBundle(c, s.shelf.bundles[s.tasks[t].bundle]);
  }

  lemma {:induction false} PlainEndShaped(c: Config, s: State, t: nat, now: real, s': State)
    requires Inv(c, s) && t in s.tasks && s.tasks[t].Running? && s.tasks[t].bundle < |s.shelf.bundles|
    requires var g := GiveBack(s, s.tasks[t], now);
      s'.shelf == g.shelf && s'.gpu == g.gpu && s'.locks == g.locks && s'.tasks == s.tasks[t := Done]
      && (s'.threads == s.threads || s'.threads == s.threads - {t})
    ensures Shaped(c, s')
  {
    GiveBackGood(c, s, t, now);
    ThreadedKept(s, t, Done, s');
    TameShaped(c, s, t, Done, s');
  }

  lemma {:induction false} FailedPrewarmShaped(c: Config, s: State, t: nat, now: real, s': State)
    requires Inv(c, s) && t in s.tasks && IsPrewarm(s.tasks[t]) && s.tasks[t].bundle < |s.shelf.bundles|
    requires var g := GiveBack(s, s.tasks[t], now);
      s'.shelf == g.shelf.(bundles := Release(g.shelf.bundles, s.tasks[t].bundle)) && s'.gpu == g.gpu && s'.locks == g.locks
      && s'.tasks == s.tasks[t := Done] && (s'.threads == s.threads || s'.threads == s.threads - {t})
    ensures Shaped(c, s')
  {
    GiveBackGood(c, s, t, now);
    var b := s.tasks[t].bundle;
    assert Placed(c, s, s.tasks[t]);
    assert Owned(s, t, b);
    assert GoodBundle(c, GiveBack(s, s.tasks[t], now).shelf.bundles[b]);
    assert forall k | k in s.shelf.registry :: s.shelf.registry[k] != b;
    ThreadedKept(s, t, Done, s');
    OrderlyShaped(c, s, t, Done, s');
  }

  lemma {:induction false} PrewarmedShaped(c: Config, s: State, t: nat, now: real, s': State)
    requires Inv(c, s) && t in s.tasks && IsPrewarm(s.tasks[t]) && s.tasks[t].bundle < |s.shelf.bundles|
    requires var (g, hold, b) := (GiveBack(s, s.tasks[t], now), s.tasks[t].prewarm.value, s.tasks[t].bundle);
      s'.shelf == g.shelf.(registry := g.shelf.registry[hold.key := b]) && s'.gpu == g.gpu && s'.locks == g.locks
      && s'.tasks == s.tasks[t := Evicting(hold.key, None)] && s'.threads == s.threads - {t}
    ensures Shaped(c, s')
  {
    GiveBackGood(c, s, t, now);
    var (key, b, x) := (s.tasks[t].prewarm.value.key, s.tasks[t].bundle, s'.tasks[t]);
    assert Placed(c, s, s.tasks[t]);
    assert Owned(s, t, b);
    forall i: nat | Registered(s'.shelf, i) ensures Registered(s.shelf, i) || Owned(s, t, i) {
      var k :| k in s'.shelf.registry && s'.shelf.registry[k] == i;
      assert k == key || (k in s.shelf.registry && s.shelf.registry[k] == i);
    }
    ThreadedKept(s, t, x, s');
    OrderlyShaped(c, s, t, x, s');
  }

  // ----- loading

  lemma {:induction false} TouchTame(c: Config, s: State, key: string, now: real)
    requires AllGood(c, s.shelf.bundles)
    ensures Tame(s, Touch(s, key, now)) && AllGood(c, Touch(s, key, now).shelf.bundles)
    ensures Touch(s, key, now) == s.(shelf := s.shelf.(bundles := Touch(s, key, now).shelf.bundles))
  {
  }

  lemma {:induction false} HitShaped(c: Config, s: State, t: nat, key: string, now: real)
    requires Shaped(c, s) && (t in s.tasks ==> s.tasks[t].WaitLoad?)
    ensures Shaped(c, Becomes(Touch(s, key, now), t, Done))
  {
    var s' := Becomes(Touch(s, key, now), t, Done);
    TouchTame(c, s, key, now);
    ThreadedKept(s, t, Done, s');
    TameShaped(c, s, t, Done, s');
  }

  /** A task that waits or works on a load, while bundles and registry stay. */
  lemma {:induction false} WaitShaped(c: Config, s: State, t: nat, x: Stage, s': State)
    requires Shaped(c, s) && (t in s.tasks ==> !s.tasks[t].Running? && s.tasks[t] != Done)
    requires x.WaitLoad? || x.Loading? || x == Done
    requires s'.tasks == s.tasks[t := x] && s'.threads == s.threads && s'.gpu == s.gpu
    requires s'.shelf.bundles == s.shelf.bundles && s'.shelf.registry == s.shelf.registry
    requires s.locks <= s'.locks && KnownLocks(s'.shelf.loadLocks, s'.locks) && Placed(c, s', x)
    ensures Shaped(c, s')
  {
    ThreadedKept(s, t, x, s');
    TameShaped(c, s, t, x, s');
  }

  lemma {:induction false} RequestShaped(c: Config, s: State, t: nat, key: string, replace: bool, now: real)
    requires Shaped(c, s) && Fresh(s, t)
    ensures Shaped(c, Requested(s, t, key, replace, now))
  {
    var s' := Requested(s, t, key, replace, now);
    if !replace && key in s.shelf.registry {
      HitShaped(c, s, t, key, now);
    } else {
      WaitShaped(c, s, t, s'.tasks[t], s');
    }
  }

  lemma {:induction false} TakeLoadShaped(c: Config, s: State, t: nat, now: real)
    requires Shaped(c, s) && Enabled(c, s, TakeLoad(t, now))
    ensures Shaped(c, Step(c, s, TakeLoad(t, now)))
  {
    var s' := Step(c, s, TakeLoad(t, now));
    assert Placed(c, s, s.tasks[t]);
    if !s.tasks[t].replace && s.tasks[t].want.key in s.shelf.registry {
      HitShaped(c, s, t, s.tasks[t].want.key, now);
    } else {
      WaitShaped(c, s, t, s'.tasks[t], s');
    }
  }

  /** A new bundle, registered at once or known to its task only. */
  lemma {:induction false} NewBundleShaped(c: Config, s: State, t: nat, x: Stage, loaded: Bundle, key: string, s': State)
    requires Shaped(c, s) && t in s.tasks && s.tasks[t].Loading? && GoodBundle(c, loaded) && !loaded.released && loaded.key == key
    requires s'.shelf.bundles == s.shelf.bundles + [loaded] && s'.tasks == s.tasks[t := x] && s'.threads == s.threads && s'.gpu == s.gpu
    requires s'.locks == s.locks && s'.shelf.loadLocks == s.shelf.loadLocks
    requires if x.Running? then x.bundle == |s.shelf.bundles| && x.place == AtModel && s'.shelf.registry == s.shelf.registry
             else x.Evicting? && s'.shelf.registry == s.shelf.registry[key := |s.shelf.bundles|]
    requires Placed(c, s', x)
    ensures Shaped(c, s')
  {
    var b := |s.shelf.bundles|;
    ThreadedKept(s, t, x, s');
    assert forall u | u in s.tasks && s.tasks[u].Running? :: Placed(c, s, s.tasks[u]) && s.tasks[u].bundle < b;
    forall i: nat | Registered(s'.shelf, i) ensures Registered(s.shelf, i) || Owned(s, t, i) {
      var k :| k in s'.shelf.registry && s'.shelf.registry[k] == i;
      assert i == b || (k in s.shelf.registry && s.shelf.registry[k] == i);
    }
    OrderlyShaped(c, s, t, x, s');
  }

  lemma {:induction false} LoadShaped(c: Config, s: State, t: nat, ok: bool, permits: nat, device: Option<nat>, now: real)
    requires Shaped(c, s) && Enabled(c, s, EndLoad(t, ok, permits, device, now))
    ensures Shaped(c, LoadEnded(s, t, ok, permits, device, now))
  {
    var s' := LoadEnded(s, t, ok, permits, device, now);
    assert Placed(c, s, s.tasks[t]);
    if !ok {
      WaitShaped(c, s, t, Done, s');
    } else {
      assert forall k | k in s.shelf.registry :: s.shelf.registry[k] < |s.shelf.bundles|;
      NewBundleShaped(c, s, t, s'.tasks[t], s'.shelf.bundles[|s.shelf.bundles|], s.tasks[t].hold.key, s');
    }
  }

  // ----- letting go

  /** Registered, idle bundles are released and nothing else happens. */
  ghost predicate Loses(c: Config, h: Shelf, h': Shelf) {
    && Wired(h') && AllGood(c, h'.bundles) && SameKeys(h.bundles, h'.bundles) && |h'.bundles| == |h.bundles|
    && (forall b | 0 <= b < |h.bundles| && h'.bundles[b].released :: h.bundles[b].released || Registered(h, b))
    && (forall b: nat | Registered(h', b) :: Registered(h, b))
    && (forall k | k in h'.loadLocks :: k in h.loadLocks && h'.loadLocks[k] == h.loadLocks[k])
  }

  lemma {:induction false} WithoutLoses(c: Config, h: Shelf, except: Option<string>, victims: seq<string>, h': Shelf)
    requires Wired(h) && AllGood(c, h.bundles) && Without(h, victims, h') && forall v | v in victims :: Idle(h, except, v)
    ensures Loses(c, h, h')
  {
    StaysWired(h, victims, h');
    forall b | 0 <= b < |h.bundles| && Gone(h, victims, b) ensures Registered(h, b) && h.bundles[b].inUse == 0 {
      var v :| v in victims && v in h.registry && h.registry[v] == b;
      assert Idle(h, except, v);
    }
    forall i: nat | Registered(h', i) ensures Registered(h, i) {
      var k :| k in h'.registry && h'.registry[k] == i;
      assert k in h.registry && h.registry[k] == i;
    }
    forall b | 0 <= b < |h.bundles| ensures GoodBundle(c, h'.bundles[b]) {
      assert GoodBundle(c, h.bundles[b]);
    }
  }

  lemma {:induction false} EvictLoses(c: Config, h: Shelf, except: Option<string>, victims: seq<string>)
    requires Wired(h) && AllGood(c, h.bundles) && Evicts(h, except, c.limit, victims)
    ensures Loses(c, h, EvictAll(h, victims))
  {
    EvictionOutcome(h, except, c.limit, victims);
    WithoutLoses(c, h, except, victims, EvictAll(h, victims));
  }

  lemma {:induction false} LossShaped(c: Config, s: State, t: nat, h: Shelf)
    requires Shaped(c, s) && t in s.tasks && s.tasks[t].Evicting? && Loses(c, s.shelf, h)
    ensures Shaped(c, WithShelf(s, t, h))
  {
    var s' := WithShelf(s, t, h);
    ThreadedKept(s, t, Done, s');
    LossDiscreet(s, t, h, s');
    OrderlyShaped(c, s, t, Done, s');
  }

  lemma {:induction false} LossDiscreet(s: State, t: nat, h: Shelf, s': State)
    requires s'.tasks == s.tasks[t := Done] && s'.shelf == h && s'.locks == s.locks && SameKeys(s.shelf.bundles, h.bundles)
    requires forall b | 0 <= b < |s.shelf.bundles| && h.bundles[b].released :: s.shelf.bundles[b].released || Registered(s.shelf, b)
    requires forall b: nat | Registered(h, b) :: Registered(s.shelf, b)
    ensures Discreet(s, t, Done, s')
  {
  }

  lemma {:induction false} EvictShaped(c: Config, s: State, t: nat, victims: seq<string>)
    requires Shaped(c, s) && t in s.tasks && s.tasks[t].Evicting? && Evicts(s.shelf, Some(s.tasks[t].key), c.limit, victims)
    ensures Shaped(c, Evicted(s, t, victims))
  {
    EvictLoses(c, s.shelf, Some(s.tasks[t].key), victims);
    LossShaped(c, s, t, EvictAll(s.shelf, victims));
  }

  lemma {:induction false} RegisteredNotCandidate(c: Config, s: State, b: nat)
    requires AllPlaced(c, s) && Registered(s.shelf, b)
    ensures !Candidate(s.tasks, b)
  {
    forall u | u in s.tasks && IsPrewarm(s.tasks[u]) ensures s.tasks[u].bundle != b {
      assert Placed(c, s, s.tasks[u]);
    }
  }

  lemma {:induction false} UnloadShaped(c: Config, s: State, t: nat, key: string)
    requires Shaped(c, s) && Fresh(s, t)
    ensures Shaped(c, Unloaded(s, t, key))
  {
    var s' := Unloaded(s, t, key);
    if key in s.shelf.registry {
      var b := s.shelf.registry[key];
      assert Registered(s.shelf, b);
      RegisteredNotCandidate(c, s, b);
      assert forall k | k in s'.shelf.registry :: s.shelf.bundles[s.shelf.registry[k]].key == k;
      assert !Registered(s'.shelf, b);
      assert forall u | u in s'.tasks && IsPrewarm(s'.tasks[u]) :: u in s.tasks && s'.tasks[u] == s.tasks[u];
    }
    ThreadedKept(s, t, s'.tasks[t], s');
    TameShaped(c, s, t, s'.tasks[t], s');
  }

  lemma {:induction false} RetireShaped(c: Config, s: State, t: nat, b: nat)
    requires Shaped(c, s) && Enabled(c, s, Retire(t, b))
    ensures Shaped(c, Becomes(s, t, Draining(b)))
  {
    var s' := Becomes(s, t, Draining(b));
    assert forall u | u in s'.tasks && IsPrewarm(s'.tasks[u]) :: u in s.tasks && s'.tasks[u] == s.tasks[u];
    ThreadedKept(s, t, Draining(b), s');
    TameShaped(c, s, t, Draining(b), s');
  }

  lemma {:induction false} DrainShaped(c: Config, s: State, t: nat)
    requires Inv(c, s) && t in s.tasks && s.tasks[t].Draining? && s.tasks[t].bundle < |s.shelf.bundles|
    requires s.shelf.bundles[s.tasks[t].bundle].inUse <= 0
    ensures Shaped(c, LetGo(s, t))
  {
    var b := s.tasks[t].bundle;
    assert InUse(s.shelf.bundles, b) == Count(s.tasks, On(b));
    LetGoShaped(c, s, t);
  }

  lemma {:induction false} LetGoShaped(c: Config, s: State, t: nat)
    requires Shaped(c, s) && t in s.tasks && s.tasks[t].Draining? && s.tasks[t].bundle < |s.shelf.bundles|
    requires s.shelf.bundles[s.tasks[t].bundle].inUse == 0
    ensures Shaped(c, LetGo(s, t))
  {
    var (s', b) := (LetGo(s, t), s.tasks[t].bundle);
    assert Placed(c, s, s.tasks[t]);
    assert GoodBundle(c, s.shelf.bundles[b]);
    assert forall k | k in s.shelf.registry :: s.shelf.registry[k] != b;
    ThreadedKept(s, t, Done, s');
    OrderlyShaped(c, s, t, Done, s');
  }

  lemma {:induction false} CancelShaped(c: Config, s: State, t: nat, now: real)
    requires Inv(c, s) && Enabled(c, s, Cancel(t, now))
    ensures Shaped(c, Cancelled(s, t, now))
  {
    var s' := Cancelled(s, t, now);
    if s.tasks[t].Running? {
      PlainEndShaped(c, s, t, now, s');
    } else {
      ThreadedKept(s, t, Done, s');
      TameShaped(c, s, t, Done, s');
    }
  }

  lemma {:induction false} EndShaped(c: Config, s: State, e: Event)
    requires Inv(c, s) && Enabled(c, s, e) && (e.EndThread? || e.TimeOut?)
    ensures Shaped(c, Step(c, s, e))
  {
    var s' := Step(c, s, e);
    if !IsPrewarm(s.tasks[e.t]) {
      PlainEndShaped(c, s, e.t, e.now, s');
    } else if e.EndThread? && e.ok {
      PrewarmedShaped(c, s, e.t, e.now, s');
    } else {
      FailedPrewarmShaped(c, s, e.t, e.now, s');
    }
  }

  // ----- runs

  /** Every step keeps the invariant. */
  lemma {:induction false} StepKeepsInv(c: Config, s: State, e: Event)
    requires Inv(c, s) && Enabled(c, s, e)
    ensures Inv(c, Step(c, s, e))
  {
    StepConserves(c, s, e);
    match e
    case Begin(t, b) => BeginShaped(c, s, t, b);
    case TakeModel(t) => TakeModelShaped(c, s, t);
    case TakeGpu(t) => TakeGpuShaped(c, s, t);
    case EndThread(_, _, _) => EndShaped(c, s, e);
    case TimeOut(_, _) => EndShaped(c, s, e);
    case Cancel(t, now) => CancelShaped(c, s, t, now);
    case EndOrphan(t) => OrphanShaped(c, s, t);
    case Request(t, key, replace, now) => RequestShaped(c, s, t, key, replace, now);
    case TakeLoad(t, now) => TakeLoadShaped(c, s, t, now);
    case EndLoad(t, ok, permits, device, now) => LoadShaped(c, s, t, ok, permits, device, now);
    case EvictNow(t, victims) => EvictShaped(c, s, t, victims);
    case Unload(t, key) => UnloadShaped(c, s, t, key);
    case Retire(t, b) => RetireShaped(c, s, t, b);
    case Drained(t) => DrainShaped(c, s, t);
  }

  lemma {:induction false} OrphanShaped(c: Config, s: State, t: nat)
    requires Shaped(c, s) && t in s.threads && At(s.tasks, t) == Done
    ensures Shaped(c, s.(threads := s.threads - {t}))
  {
    var s' := s.(threads := s.threads - {t});
    forall u | u in s'.tasks ensures Placed(c, s', s'.tasks[u]) {
      assert Placed(c, s, s.tasks[u]);
    }
  }

  lemma {:induction false} StartInv(c: Config)
    ensures Inv(c, Start(c))
  {
    var s := Start(c);
    forall p: Stage -> bool ensures Count(s.tasks, p) == 0 {
      assert Where(s.tasks, p) == {};
    }
  }

  /** A run: a state and the events taken from it, each enabled in its turn. */
  ghost predicate CanRun(c: Config, s: State, events: seq<Event>)
    decreases |events|
  {
    events == [] || (Enabled(c, s, events[0]) && CanRun(c, Step(c, s, events[0]), events[1..]))
  }

  ghost function After(c: Config, s: State, events: seq<Event>): State
    requires CanRun(c, s, events)
    decreases |events|
  {
    if events == [] then s else After(c, Step(c, s, events[0]), events[1..])
  }

  lemma {:induction false} RunKeepsInv(c: Config, s: State, events: seq<Event>)
    requires Inv(c, s) && CanRun(c, s, events)
    ensures Inv(c, After(c, s, events))
    decreases |events|
  {
    if events != [] {
      StepKeepsInv(c, s, events[0]);
      RunKeepsInv(c, Step(c, s, events[0]), events[1..]);
    }
  }

  /** Over every run: the use count of a bundle is the number of its runs in flight, and a
      bundle whose session is gone has none. */
  lemma {:induction false} SessionSafety(c: Config, events: seq<Event>, b: nat)
    requires CanRun(c, Start(c), events)
    ensures var s := After(c, Start(c), events);
      b < |s.shelf.bundles| ==>
        && s.shelf.bundles[b].inUse == Count(s.tasks, On(b))
        && (s.shelf.bundles[b].released ==> Count(s.tasks, On(b)) == 0)
  {
    StartInv(c);
    RunKeepsInv(c, Start(c), events);
    var s := After(c, Start(c), events);
    if b < |s.shelf.bundles| {
      assert InUse(s.shelf.bundles, b) == Count(s.tasks, On(b));
      assert GoodBundle(c, s.shelf.bundles[b]);
    }
  }

  ghost predicate AllDone(s: State) {
    forall t | t in s.tasks :: s.tasks[t] == Done
  }

  lemma {:induction false} NothingCounted(tasks: map<nat, Stage>, p: Stage -> bool)
    requires (forall t | t in tasks :: tasks[t] == Done) && !p(Done)
    ensures Count(tasks, p) == 0
  {
    CountSome(tasks, p);
  }

  /** Whatever way the tasks ended, every permit and lock is back. */
  lemma {:induction false} PermitsReturned(c: Config, events: seq<Event>)
    requires CanRun(c, Start(c), events) && AllDone(After(c, Start(c), events))
    ensures var s := After(c, Start(c), events);
      && s.locked == {} && s.gpu == Start(c).gpu
      && forall b | 0 <= b < |s.shelf.bundles| :: s.shelf.bundles[b].free == s.shelf.bundles[b].permits && s.shelf.bundles[b].inUse == 0
  {
    StartInv(c);
    RunKeepsInv(c, Start(c), events);
    var s := After(c, Start(c), events);
    forall l: nat ensures l !in s.locked {
      NothingCounted(s.tasks, Holding(l));
    }
    forall d | d in c.gpu ensures s.gpu[d] == c.gpu[d] {
      NothingCounted(s.tasks, OnDevice(d));
      assert TakenGpu(c.gpu, s.gpu, d) == 0;
    }
    forall b | 0 <= b < |s.shelf.bundles| ensures s.shelf.bundles[b].free == s.shelf.bundles[b].permits && s.shelf.bundles[b].inUse == 0 {
      NothingCounted(s.tasks, On(b));
      NothingCounted(s.tasks, PastModel(b));
      assert InUse(s.shelf.bundles, b) == 0 && Taken(s.shelf.bundles, b) == 0;
    }
  }

  /** At no time do runs hold more permits of a bundle or a device than it has. */
  lemma {:induction false} PermitsBounded(c: Config, events: seq<Event>, b: nat, d: nat)
    requires CanRun(c, Start(c), events)
    ensures var s := After(c, Start(c), events);
      && (b < |s.shelf.bundles| ==> Count(s.tasks, PastModel(b)) <= s.shelf.bundles[b].permits)
      && (d in c.gpu ==> Count(s.tasks, OnDevice(d)) <= c.gpu[d])
  {
    StartInv(c);
    RunKeepsInv(c, Start(c), events);
    var s := After(c, Start(c), events);
    assert Taken(s.shelf.bundles, b) == Count(s.tasks, PastModel(b));
    assert TakenGpu(c.gpu, s.gpu, d) == Count(s.tasks, OnDevice(d));
    assert b < |s.shelf.bundles| ==> GoodBundle(c, s.shelf.bundles[b]);
  }
}
