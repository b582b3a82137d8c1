/** The model runtime as a protocol. Every stretch of code between two awaits is one step; a
    task is one call of get_or_load_model, replace_model_bundle, unload_model_by_key,
    retire_model_bundle or _run_model_bundle_direct. The registry lock is taken and given back
    inside single steps, so no task ever holds it while it waits. */
module Runtime {
  import opened Options
  import opened Eviction

  datatype Place = AtModel | AtGpu | Executing

  /** A load lock, held or wanted for a key. */
  datatype Hold = Hold(key: string, lock: nat)

  /** Where a task stands. A run keeps the GPU semaphore it found when it began; the prewarm run
      of a replacement holds the load lock meanwhile. */
  datatype Stage =
    | Done
    | WaitLoad(want: Hold, replace: bool)
    | Loading(hold: Hold, replace: bool)
    | Running(bundle: nat, device: Option<nat>, place: Place, prewarm: Option<Hold>)
    | Evicting(key: string, lock: Option<nat>)
    | Draining(bundle: nat)

  /** `threads` maps the runs whose worker thread is inside a session to that session's bundle. */
  datatype State = State(shelf: Shelf, locks: nat, locked: set<nat>, gpu: map<nat, int>, tasks: map<nat, Stage>, threads: map<nat, nat>)

  datatype Config = Config(gpu: map<nat, nat>, limit: int)

  function Start(c: Config): State {
    State(Shelf([], map[], map[]), 0, {}, map d | d in c.gpu :: c.gpu[d], map[], map[])
  }

  function At(tasks: map<nat, Stage>, t: nat): Stage {
    if t in tasks then tasks[t] else Done
  }

  function HeldLock(x: Stage): Option<nat> {
    match x
    case Loading(hold, _) => Some(hold.lock)
    case Running(_, _, _, prewarm) => if prewarm.Some? then Some(prewarm.value.lock) else None
    case Evicting(_, lock) => lock
    case _ => None
  }

  // ----- steps

  datatype Event =
    | Begin(t: nat, bundle: nat)
    | TakeModel(t: nat)
    | TakeGpu(t: nat)
    | EndThread(t: nat, ok: bool, now: real)
    | TimeOut(t: nat, now: real)
    | Cancel(t: nat, now: real)
    | EndOrphan(t: nat)
    | Request(t: nat, key: string, replace: bool, now: real)
    | TakeLoad(t: nat, now: real)
    | EndLoad(t: nat, ok: bool, permits: nat, device: Option<nat>, now: real)
    | EvictNow(t: nat, victims: seq<string>)
    | Unload(t: nat, key: string)
    | Retire(t: nat, bundle: nat)
    | Drained(t: nat)

  ghost predicate Registered(h: Shelf, b: nat) {
    exists k :: k in h.registry && h.registry[k] == b
  }

  /** Bundles still being warmed up are known to their own task only. */
  ghost predicate Candidate(tasks: map<nat, Stage>, b: nat) {
    exists t :: t in tasks && IsPrewarm(tasks[t]) && tasks[t].bundle == b
  }

  predicate IsRun(s: State, t: nat, place: Place) {
    t in s.tasks && s.tasks[t].Running? && s.tasks[t].place == place && s.tasks[t].bundle < |s.shelf.bundles|
  }

  ghost predicate Enabled(c: Config, s: State, e: Event) {
    match e
    case Begin(t, b) => Fresh(s, t) && b < |s.shelf.bundles| && !s.shelf.bundles[b].released && !Candidate(s.tasks, b)
    case TakeModel(t) => IsRun(s, t, AtModel) && s.shelf.bundles[s.tasks[t].bundle].free > 0
    case TakeGpu(t) => IsRun(s, t, AtGpu) && s.tasks[t].device.Some? && s.tasks[t].device.value in s.gpu && s.gpu[s.tasks[t].device.value] > 0
    case EndThread(t, _, _) => IsRun(s, t, Executing) && t in s.threads
    case TimeOut(t, _) => IsRun(s, t, AtModel) || IsRun(s, t, AtGpu)
    case Cancel(t, _) => t in s.tasks && s.tasks[t] != Done && (s.tasks[t].Running? ==> s.tasks[t].bundle < |s.shelf.bundles|)
    case EndOrphan(t) => t in s.threads && At(s.tasks, t) == Done
    case Request(t, _, _, _) => Fresh(s, t)
    case TakeLoad(t, _) => t in s.tasks && s.tasks[t].WaitLoad? && s.tasks[t].want.lock !in s.locked
    case EndLoad(t, _, permits, device, _) =>
      t in s.tasks && s.tasks[t].Loading? && permits > 0 && (device.Some? ==> device.value in c.gpu)
    case EvictNow(t, victims) => t in s.tasks && s.tasks[t].Evicting? && Evicts(s.shelf, Some(s.tasks[t].key), c.limit, victims)
    case Unload(t, _) => Fresh(s, t)
    case Retire(t, b) => Fresh(s, t) && b < |s.shelf.bundles| && !Registered(s.shelf, b) && !Candidate(s.tasks, b)
    case Drained(t) =>
      && t in s.tasks && s.tasks[t].Draining? && s.tasks[t].bundle < |s.shelf.bundles|
      && s.shelf.bundles[s.tasks[t].bundle].inUse <= 0
  }

  predicate Fresh(s: State, t: nat) {
    t !in s.tasks
  }

  function Becomes(s: State, t: nat, x: Stage): State {
    s.(tasks := s.tasks[t := x])
  }

  function WithBundle(s: State, b: nat, x: Bundle): State
    requires b < |s.shelf.bundles|
  {
    s.(shelf := s.shelf.(bundles := s.shelf.bundles[b := x]))
  }

  function Touch(s: State, key: string, now: real): State {
    if key in s.shelf.registry && s.shelf.registry[key] < |s.shelf.bundles| then
      WithBundle(s, s.shelf.registry[key], s.shelf.bundles[s.shelf.registry[key]].(lastUsed := now))
    else s
  }

  function Unlock(s: State, lock: Option<nat>): State {
    if lock.Some? then s.(locked := s.locked - {lock.value}) else s
  }

  /** The finally block of a run: every permit taken goes back, and the use count drops. */
  function GiveBack(s: State, x: Stage, now: real): State
    requires x.Running? && x.bundle < |s.shelf.bundles|
  {
    var b := s.shelf.bundles[x.bundle];
    var free := if x.place == AtModel then b.free else b.free + 1;
    var inUse := if b.inUse > 1 then b.inUse - 1 else 0;
    var gpu := if x.place == Executing && x.device.Some? && x.device.value in s.gpu
      then s.gpu[x.device.value := s.gpu[x.device.value] + 1] else s.gpu;
    WithBundle(s, x.bundle, b.(free := free, inUse := inUse, lastUsed := now)).(gpu := gpu)
  }

  /** What follows a run: nothing, or the second half of a replacement. */
  function AfterRun(s: State, t: nat, x: Stage, ok: bool): State
    requires x.Running? && x.bundle < |s.shelf.bundles|
  {
    match x.prewarm
    case None => Becomes(s, t, Done)
    case Some(hold) =>
      if ok then
        Becomes(Unlock(s.(shelf := s.shelf.(registry := s.shelf.registry[hold.key := x.bundle])), Some(hold.lock)), t, Evicting(hold.key, None))
      else
        Becomes(Unlock(s.(shelf := s.shelf.(bundles := Release(s.shelf.bundles, x.bundle))), Some(hold.lock)), t, Done)
  }

  function EnterThread(s: State, t: nat, x: Stage): State
    requires x.Running?
  {
    Becomes(s.(threads := s.threads[t := x.bundle]), t, x.(place := Executing))
  }

  function TookModel(s: State, t: nat): State
    requires IsRun(s, t, AtModel)
  {
    var x := s.tasks[t];
    var b := s.shelf.bundles[x.bundle];
    var s1 := WithBundle(s, x.bundle, b.(free := b.free - 1));
    if x.device.None? then EnterThread(s1, t, x) else Becomes(s1, t, x.(place := AtGpu))
  }

  function Requested(s: State, t: nat, key: string, replace: bool, now: real): State {
    if !replace && key in s.shelf.registry then Becomes(Touch(s, key, now), t, Done)
    else if key in s.shelf.loadLocks then Becomes(s, t, WaitLoad(Hold(key, s.shelf.loadLocks[key]), replace))
    else
      Becomes(s.(shelf := s.shelf.(loadLocks := s.shelf.loadLocks[key := s.locks]), locks := s.locks + 1),
              t, WaitLoad(Hold(key, s.locks), replace))
  }

  function LoadEnded(s: State, t: nat, ok: bool, permits: nat, device: Option<nat>, now: real): State
    requires t in s.tasks && s.tasks[t].Loading?
  {
    var (hold, b) := (s.tasks[t].hold, |s.shelf.bundles|);
    if !ok then Becomes(Unlock(s, Some(hold.lock)), t, Done)
    else if s.tasks[t].replace then
      var loaded := Bundle(hold.key, permits, permits, device, 1, false, now);
      Becomes(s.(shelf := s.shelf.(bundles := s.shelf.bundles + [loaded])), t, Running(b, device, AtModel, Some(hold)))
    else
      var loaded := Bundle(hold.key, permits, permits, device, 0, false, now);
      Becomes(s.(shelf := s.shelf.(bundles := s.shelf.bundles + [loaded], registry := s.shelf.registry[hold.key := b])),
              t, Evicting(hold.key, Some(hold.lock)))
  }

  function Unloaded(s: State, t: nat, key: string): State {
    var s1 := s.(shelf := s.shelf.(registry := s.shelf.registry - {key}, loadLocks := s.shelf.loadLocks - {key}));
    Becomes(s1, t, if key in s.shelf.registry then Draining(s.shelf.registry[key]) else Done)
  }

  function Evicted(s: State, t: nat, victims: seq<string>): State
    requires t in s.tasks && s.tasks[t].Evicting?
  {
    WithShelf(s, t, EvictAll(s.shelf, victims))
  }

  function WithShelf(s: State, t: nat, h: Shelf): State
    requires t in s.tasks && s.tasks[t].Evicting?
  {
    Becomes(Unlock(s.(shelf := h), s.tasks[t].lock), t, Done)
  }

  function LetGo(s: State, t: nat): State
    requires t in s.tasks && s.tasks[t].Draining? && s.tasks[t].bundle < |s.shelf.bundles|
  {
    Becomes(s.(shelf := s.shelf.(bundles := Release(s.shelf.bundles, s.tasks[t].bundle))), t, Done)
  }

  /** Cancellation lands in a run's finally block; a worker thread runs on to its end. */
  function Cancelled(s: State, t: nat, now: real): State
    requires t in s.tasks && (s.tasks[t].Running? ==> s.tasks[t].bundle < |s.shelf.bundles|)
  {
    var s1 := if s.tasks[t].Running? then GiveBack(s, s.tasks[t], now) else s;
    Becomes(Unlock(s1, HeldLock(s.tasks[t])), t, Done)
  }

  function Step(c: Config, s: State, e: Event): State
    requires Enabled(c, s, e)
  {
    match e
    case Begin(t, b) =>
      var x := s.shelf.bundles[b];
      Becomes(WithBundle(s, b, x.(inUse := x.inUse + 1)), t, Running(b, x.device, AtModel, None))
    case TakeModel(t) => TookModel(s, t)
    case TakeGpu(t) =>
      var d := s.tasks[t].device.value;
      EnterThread(s.(gpu := s.gpu[d := s.gpu[d] - 1]), t, s.tasks[t])
    case EndThread(t, ok, now) => AfterRun(GiveBack(s, s.tasks[t], now).(threads := s.threads - {t}), t, s.tasks[t], ok)
    case TimeOut(t, now) => AfterRun(GiveBack(s, s.tasks[t], now), t, s.tasks[t], false)
    case Cancel(t, now) => Cancelled(s, t, now)
    case EndOrphan(t) => s.(threads := s.threads - {t})
    case Request(t, key, replace, now) => Requested(s, t, key, replace, now)
    case TakeLoad(t, now) =>
      var x := s.tasks[t];
      if !x.replace && x.want.key in s.shelf.registry then Becomes(Touch(s, x.want.key, now), t, Done)
      else Becomes(s.(locked := s.locked + {x.want.lock}), t, Loading(x.want, x.replace))
    case EndLoad(t, ok, permits, device, now) => LoadEnded(s, t, ok, permits, device, now)
    case EvictNow(t, victims) => Evicted(s, t, victims)
    case Unload(t, key) => Unloaded(s, t, key)
    case Retire(t, b) => Becomes(s, t, Draining(b))
    case Drained(t) => LetGo(s, t)
  }

  // ----- counting tasks

  function Bit(b: bool): int {
    if b then 1 else 0
  }

  ghost function Count(tasks: map<nat, Stage>, p: Stage -> bool): nat {
    |Where(tasks, p)|
  }

  ghost function Where(tasks: map<nat, Stage>, p: Stage -> bool): set<nat> {
    set t | t in tasks && p(tasks[t])
  }

  lemma {:induction false} CountMoved(tasks: map<nat, Stage>, t: nat, x: Stage, p: Stage -> bool)
    requires !p(Done)
    ensures Count(tasks[t := x], p) == Count(tasks, p) - Bit(p(At(tasks, t))) + Bit(p(x))
  {
    var rest := Where(tasks, p) - {t};
    assert Where(tasks, p) == if p(At(tasks, t)) then rest + {t} else rest;
    assert Where(tasks[t := x], p) == if p(x) then rest + {t} else rest;
  }

  lemma {:induction false} CountSome(tasks: map<nat, Stage>, p: Stage -> bool)
    ensures Count(tasks, p) > 0 <==> exists t :: t in tasks && p(tasks[t])
  {
    if t :| t in tasks && p(tasks[t]) {
      assert t in Where(tasks, p);
    } else {
      assert Where(tasks, p) == {};
    }
  }

  lemma {:induction false} CountOne(tasks: map<nat, Stage>, p: Stage -> bool, t: nat, u: nat)
    requires Count(tasks, p) <= 1 && t in tasks && p(tasks[t]) && u in tasks && p(tasks[u])
    ensures t == u
  {
    var rest := Where(tasks, p) - {t};
    assert Where(tasks, p) == rest + {t} && u in rest + {t};
    assert |rest| == 0;
  }

  predicate Uses(x: Stage, b: nat) {
    x.Running? && x.bundle == b
  }

  predicate HasPermit(x: Stage, b: nat) {
    x.Running? && x.bundle == b && x.place != AtModel
  }

  predicate HasGpu(x: Stage, d: nat) {
    x.Running? && x.place == Executing && x.device == Some(d)
  }

  predicate HasLock(x: Stage, l: nat) {
    HeldLock(x) == Some(l)
  }

  function On(b: nat): Stage -> bool {
    (x: Stage) => Uses(x, b)
  }

  function PastModel(b: nat): Stage -> bool {
    (x: Stage) => HasPermit(x, b)
  }

  function OnDevice(d: nat): Stage -> bool {
    (x: Stage) => HasGpu(x, d)
  }

  function Holding(l: nat): Stage -> bool {
    (x: Stage) => HasLock(x, l)
  }

  // ----- conservation

  function InUse(bundles: seq<Bundle>, b: nat): int {
    if b < |bundles| then bundles[b].inUse else 0
  }

  function Taken(bundles: seq<Bundle>, b: nat): int {
    if b < |bundles| then bundles[b].permits - bundles[b].free else 0
  }

  function TakenGpu(cap: map<nat, nat>, gpu: map<nat, int>, d: nat): int {
    if d in cap && d in gpu then cap[d] - gpu[d] else 0
  }

  /** Each counter says how many tasks hold what it counts. */
  ghost predicate Conserved(c: Config, s: State) {
    && (forall b: nat {:trigger InUse(s.shelf.bundles, b)} :: InUse(s.shelf.bundles, b) == Count(s.tasks, On(b)))
    && (forall b: nat {:trigger Taken(s.shelf.bundles, b)} :: Taken(s.shelf.bundles, b) == Count(s.tasks, PastModel(b)))
    && (forall d: nat {:trigger TakenGpu(c.gpu, s.gpu, d)} :: TakenGpu(c.gpu, s.gpu, d) == Count(s.tasks, OnDevice(d)))
    && (forall l: nat {:trigger Holding(l)} :: Bit(l in s.locked) == Count(s.tasks, Holding(l)))
  }

  // The counters move with a task from its old stage to the new one.

  ghost predicate UsesMove(bundles: seq<Bundle>, was: Stage, x: Stage, bundles': seq<Bundle>) {
    forall b: nat {:trigger InUse(bundles', b)} :: InUse(bundles', b) == InUse(bundles, b) - Bit(Uses(was, b)) + Bit(Uses(x, b))
  }

  ghost predicate PermitsMove(bundles: seq<Bundle>, was: Stage, x: Stage, bundles': seq<Bundle>) {
    forall b: nat {:trigger Taken(bundles', b)} :: Taken(bundles', b) == Taken(bundles, b) - Bit(HasPermit(was, b)) + Bit(HasPermit(x, b))
  }

  ghost predicate GpuMoves(cap: map<nat, nat>, gpu: map<nat, int>, was: Stage, x: Stage, gpu': map<nat, int>) {
    forall d: nat {:trigger TakenGpu(cap, gpu', d)} ::
      TakenGpu(cap, gpu', d) == TakenGpu(cap, gpu, d) - Bit(HasGpu(was, d)) + Bit(HasGpu(x, d))
  }

  ghost predicate LocksMove(locked: set<nat>, was: Stage, x: Stage, locked': set<nat>) {
    forall l: nat {:trigger HasLock(was, l)} {:trigger HasLock(x, l)} :: Bit(l in locked') == Bit(l in locked) - Bit(HasLock(was, l)) + Bit(HasLock(x, l))
  }

  ghost predicate Balanced(c: Config, s: State, t: nat, x: Stage, s': State) {
    var was := At(s.tasks, t);
    && s'.tasks == s.tasks[t := x]
    && UsesMove(s.shelf.bundles, was, x, s'.shelf.bundles)
    && PermitsMove(s.shelf.bundles, was, x, s'.shelf.bundles)
    && GpuMoves(c.gpu, s.gpu, was, x, s'.gpu)
    && LocksMove(s.locked, was, x, s'.locked)
  }

  lemma {:induction false} BalanceConserves(c: Config, s: State, t: nat, x: Stage, s': State)
    requires Conserved(c, s) && Balanced(c, s, t, x, s')
    ensures Conserved(c, s')
  {
    var bundles, bundles' := s.shelf.bundles, s'.shelf.bundles;
    forall b: nat ensures InUse(bundles', b) == Count(s'.tasks, On(b)) {
      CountMoved(s.tasks, t, x, On(b));
      assert InUse(bundles, b) == Count(s.tasks, On(b));
    }
    forall b: nat ensures Taken(bundles', b) == Count(s'.tasks, PastModel(b)) {
      CountMoved(s.tasks, t, x, PastModel(b));
      assert Taken(bundles, b) == Count(s.tasks, PastModel(b));
    }
    forall d: nat ensures TakenGpu(c.gpu, s'.gpu, d) == Count(s'.tasks, OnDevice(d)) {
      CountMoved(s.tasks, t, x, OnDevice(d));
      assert TakenGpu(c.gpu, s.gpu, d) == Count(s.tasks, OnDevice(d));
    }
    forall l: nat ensures Bit(l in s'.locked) == Count(s'.tasks, Holding(l)) {
      assert HasLock(x, l) || !HasLock(x, l);
      CountMoved(s.tasks, t, x, Holding(l));
    }
  }

  // ----- shape

  ghost predicate Placed(c: Config, s: State, x: Stage) {
    match x
    case Done => true
    case WaitLoad(want, _) => want.lock < s.locks
    case Loading(hold, _) => hold.lock < s.locks
    case Running(b, device, place, prewarm) =>
      && b < |s.shelf.bundles| && (device.Some? ==> device.value in c.gpu) && (place == AtGpu ==> device.Some?)
      && (prewarm.Some? ==> prewarm.value.lock < s.locks && prewarm.value.key == s.shelf.bundles[b].key && !Registered(s.shelf, b)
                            && !s.shelf.bundles[b].released)
    case Evicting(_, lock) => lock.Some? ==> lock.value < s.locks
    case Draining(b) => b < |s.shelf.bundles| && !Registered(s.shelf, b) && !Candidate(s.tasks, b)
  }

  ghost predicate GoodBundle(c: Config, b: Bundle) {
    b.permits > 0 && b.free >= 0 && (b.device.Some? ==> b.device.value in c.gpu) && (b.released ==> b.inUse == 0)
  }

  /** A run executes in a thread, and a live thread's task is that run. */
  ghost predicate Threaded(s: State) {
    && (forall t | t in s.threads :: s.threads[t] < |s.shelf.bundles| && t in s.tasks)
    && (forall t | t in s.threads && s.tasks[t] != Done :: s.tasks[t].Running? && s.tasks[t].place == Executing && s.tasks[t].bundle == s.threads[t])
    && (forall t | t in s.tasks && s.tasks[t].Running? && s.tasks[t].place == Executing :: t in s.threads)
  }

  ghost predicate AllPlaced(c: Config, s: State) {
    forall t | t in s.tasks :: Placed(c, s, s.tasks[t])
  }

  ghost predicate AllGood(c: Config, bundles: seq<Bundle>) {
    forall b | 0 <= b < |bundles| :: GoodBundle(c, bundles[b])
  }

  ghost predicate GoodGpu(c: Config, gpu: map<nat, int>) {
    gpu.Keys == c.gpu.Keys && forall d | d in gpu :: gpu[d] >= 0
  }

  ghost predicate KnownLocks(loadLocks: map<string, nat>, locks: nat) {
    forall k | k in loadLocks :: loadLocks[k] < locks
  }

  predicate IsPrewarm(x: Stage) {
    x.Running? && x.prewarm.Some?
  }

  /** A bundle being warmed up has no other run. */
  ghost predicate Solo(tasks: map<nat, Stage>) {
    forall t, u | t in tasks && u in tasks && IsPrewarm(tasks[t]) && Uses(tasks[u], tasks[t].bundle) :: t == u
  }

  ghost predicate Shaped(c: Config, s: State) {
    && Wired(s.shelf) && Threaded(s) && AllPlaced(c, s) && AllGood(c, s.shelf.bundles)
    && GoodGpu(c, s.gpu) && KnownLocks(s.shelf.loadLocks, s.locks) && Solo(s.tasks)
  }

  ghost predicate Inv(c: Config, s: State) {
    Conserved(c, s) && Shaped(c, s)
  }
}
