/** When the bundles of the model runtime were last used, told from the events of a run, and what
    that means for evictions. */
module RuntimeUse {
  import opened Options
  import opened Eviction
  import opened Runtime
  import opened RuntimeSafety
  import opened RuntimeShape
  import opened RuntimeProgress

  /** The event loads the bundle, hits it in the registry, or ends a run on it. */
  predicate UsedBy(s: State, e: Event, b: nat) {
    match e
    case EndLoad(_, ok, _, _, _) => ok && b == |s.shelf.bundles|
    case Request(_, key, replace, _) => !replace && key in s.shelf.registry && s.shelf.registry[key] == b
    case TakeLoad(t, _) =>
      && t in s.tasks && s.tasks[t].WaitLoad? && !s.tasks[t].replace
      && s.tasks[t].want.key in s.shelf.registry && s.shelf.registry[s.tasks[t].want.key] == b
    case EndThread(t, _, _) => t in s.tasks && s.tasks[t].Running? && s.tasks[t].bundle == b
    case TimeOut(t, _) => t in s.tasks && s.tasks[t].Running? && s.tasks[t].bundle == b
    case Cancel(t, _) => t in s.tasks && s.tasks[t].Running? && s.tasks[t].bundle == b
    case _ => false
  }

  predicate Timed(e: Event) {
    e.EndLoad? || e.Request? || e.TakeLoad? || e.EndThread? || e.TimeOut? || e.Cancel?
  }

  // ----- one step

  /** A step sets the time of the bundle it uses and of no other. */
  ghost predicate Dates(s: State, e: Event, s': State) {
    && |s.shelf.bundles| <= |s'.shelf.bundles|
    && forall b: nat | b < |s'.shelf.bundles| ::
         && (b >= |s.shelf.bundles| ==> UsedBy(s, e, b))
         && (UsedBy(s, e, b) ==> Timed(e) && s'.shelf.bundles[b].lastUsed == e.now)
         && (!UsedBy(s, e, b) ==> s'.shelf.bundles[b].lastUsed == s.shelf.bundles[b].lastUsed)
  }

  lemma {:induction false} RunDates(c: Config, s: State, e: Event)
    requires Enabled(c, s, e) && (e.Begin? || e.TakeModel? || e.TakeGpu? || e.EndOrphan?)
    ensures Dates(s, e, Step(c, s, e))
  {
  }

  lemma {:induction false} EndDates(c: Config, s: State, e: Event)
    requires Enabled(c, s, e) && (e.EndThread? || e.TimeOut? || e.Cancel?)
    ensures Dates(s, e, Step(c, s, e))
  {
  }

  lemma {:induction false} RegistryDates(c: Config, s: State, e: Event)
    requires Wired(s.shelf) && Enabled(c, s, e) && (e.Request? || e.TakeLoad? || e.EndLoad?)
    ensures Dates(s, e, Step(c, s, e))
  {
  }

  lemma {:induction false} EvictDates(c: Config, s: State, e: Event)
    requires Wired(s.shelf) && Enabled(c, s, e) && e.EvictNow?
    ensures Dates(s, e, Step(c, s, e))
  {
    EvictedShelf(c, s, e.t, e.victims);
    EvictedTimes(s.shelf, Some(s.tasks[e.t].key), c.limit, e.victims);
  }

  lemma {:induction false} EvictedTimes(h: Shelf, except: Option<string>, limit: int, victims: seq<string>)
    requires Wired(h) && Evicts(h, except, limit, victims)
    ensures var h' := EvictAll(h, victims);
      |h'.bundles| == |h.bundles| && forall b: nat | b < |h.bundles| :: h'.bundles[b].lastUsed == h.bundles[b].lastUsed
  {
    EvictionOutcome(h, except, limit, victims);
  }

  lemma {:induction false} OtherDates(c: Config, s: State, e: Event)
    requires Wired(s.shelf) && Enabled(c, s, e) && (e.Unload? || e.Retire? || e.Drained?)
    ensures Dates(s, e, Step(c, s, e))
  {
  }

  lemma {:induction false} StepDates(c: Config, s: State, e: Event)
    requires Wired(s.shelf) && Enabled(c, s, e)
    ensures Dates(s, e, Step(c, s, e))
  {
    match e
    case Begin(_, _) => RunDates(c, s, e);
    case TakeModel(_) => RunDates(c, s, e);
    case TakeGpu(_) => RunDates(c, s, e);
    case EndOrphan(_) => RunDates(c, s, e);
    case EndThread(_, _, _) => EndDates(c, s, e);
    case TimeOut(_, _) => EndDates(c, s, e);
    case Cancel(_, _) => EndDates(c, s, e);
    case Request(_, _, _, _) => RegistryDates(c, s, e);
    case TakeLoad(_, _) => RegistryDates(c, s, e);
    case EndLoad(_, _, _, _, _) => RegistryDates(c, s, e);
    case EvictNow(_, _) => EvictDates(c, s, e);
    case _ => OtherDates(c, s, e);
  }

  // ----- runs

  /** The state before event i of a run, or after the whole run. */
  ghost function StateAt(c: Config, events: seq<Event>, i: nat): State
    requires i <= |events| && CanRun(c, Start(c), events[..i])
  {
    After(c, Start(c), events[..i])
  }

  lemma {:induction false} RunSplits(c: Config, s: State, events: seq<Event>)
    requires CanRun(c, s, events) && events != []
    ensures CanRun(c, s, events[..|events| - 1])
    ensures Enabled(c, After(c, s, events[..|events| - 1]), events[|events| - 1])
    ensures After(c, s, events) == Step(c, After(c, s, events[..|events| - 1]), events[|events| - 1])
    decreases |events|
  {
    if |events| > 1 {
      var rest := events[1..];
      RunSplits(c, Step(c, s, events[0]), rest);
      assert events[..|events| - 1][1..] == rest[..|rest| - 1];
    }
  }

  lemma {:induction false} PrefixRuns(c: Config, events: seq<Event>, i: nat)
    requires CanRun(c, Start(c), events) && i <= |events|
    ensures CanRun(c, Start(c), events[..i])
    decreases |events|
  {
    if i < |events| {
      RunSplits(c, Start(c), events);
      PrefixRuns(c, events[..|events| - 1], i);
      assert events[..|events| - 1][..i] == events[..i];
    } else {
      assert events[..i] == events;
    }
  }

  ghost predicate UsedAt(c: Config, events: seq<Event>, i: nat, b: nat) {
    i < |events| && CanRun(c, Start(c), events[..i]) && UsedBy(StateAt(c, events, i), events[i], b)
  }

  /** Event i is the last of a run that uses bundle b. */
  ghost predicate LastUse(c: Config, events: seq<Event>, i: nat, b: nat) {
    UsedAt(c, events, i, b) && forall j: nat | i < j < |events| :: !UsedAt(c, events, j, b)
  }

  /** Over every run: a bundle's time is the clock of the last event that loaded it, hit it in the
      registry or ended a run on it. */
  lemma {:induction false} LastUseDates(c: Config, events: seq<Event>, b: nat) returns (i: nat)
    requires CanRun(c, Start(c), events) && b < |After(c, Start(c), events).shelf.bundles|
    ensures LastUse(c, events, i, b) && Timed(events[i]) && After(c, Start(c), events).shelf.bundles[b].lastUsed == events[i].now
    decreases |events|
  {
    var n, init := |events| - 1, events[..|events| - 1];
    RunSplits(c, Start(c), events);
    var s := After(c, Start(c), init);
    StartInv(c);
    RunKeepsInv(c, Start(c), init);
    StepDates(c, s, events[n]);
    if UsedBy(s, events[n], b) {
      i := n;
    } else {
      i := LastUseDates(c, init, b);
      LastUseStays(c, events, i, b);
    }
  }

  lemma {:induction false} LastUseStays(c: Config, events: seq<Event>, i: nat, b: nat)
    requires events != [] && LastUse(c, events[..|events| - 1], i, b) && !UsedAt(c, events, |events| - 1, b)
    ensures LastUse(c, events, i, b)
  {
    var init := events[..|events| - 1];
    assert forall j: nat | j <= |init| :: init[..j] == events[..j];
    forall j: nat | i < j < |events| ensures !UsedAt(c, events, j, b) {
      if j < |init| {
        assert !UsedAt(c, init, j, b);
      }
    }
  }

  // ----- evictions

  /** The clocks of a run do not fall. */
  ghost predicate NonFalling(events: seq<Event>) {
    forall i, j | 0 <= i < j < |events| && Timed(events[i]) && Timed(events[j]) :: events[i].now <= events[j].now
  }

  lemma {:induction false} OneUse(s: State, e: Event, a: nat, b: nat)
    requires UsedBy(s, e, a) && UsedBy(s, e, b)
    ensures a == b
  {
  }

  /** An idle bundle of the registry that the eviction may take. */
  predicate Evictable(h: Shelf, key: string, k: string) {
    k in h.registry && k != key && h.registry[k] < |h.bundles| && h.bundles[h.registry[k]].inUse == 0
  }

  /** Last used before another bundle: by the clock, and by the order of the events unless the
      clocks are equal. */
  ghost predicate UsedBefore(c: Config, events: seq<Event>, a: nat, b: nat) {
    exists i: nat, j: nat :: LastUse(c, events, i, a) && LastUse(c, events, j, b) && Precedes(events, i, j)
  }

  predicate Precedes(events: seq<Event>, i: nat, j: nat) {
    i < |events| && j < |events| && Timed(events[i]) && Timed(events[j]) && (events[i].now == events[j].now || (events[i].now < events[j].now && i < j))
  }

  lemma {:induction false} VictimsOlder(h: Shelf, key: string, limit: int, victims: seq<string>, h': Shelf, v: string, k: string)
    requires Wired(h) && Evicts(h, Some(key), limit, victims) && v in victims && h' == EvictAll(h, victims)
    ensures Evictable(h, key, v)
    ensures Evictable(h', key, k) ==>
      && k in h.registry && h'.registry[k] == h.registry[k] && h.registry[k] < |h.bundles| && h.registry[v] != h.registry[k]
      && h.bundles[h.registry[v]].lastUsed <= h.bundles[h.registry[k]].lastUsed
  {
    EvictionOutcome(h, Some(key), limit, victims);
    assert Idle(h, Some(key), v);
    if Evictable(h', key, k) {
      assert Idle(h', Some(key), k);
      assert LastUsed(h, v) <= LastUsed(h, k);
    }
  }

  lemma {:induction false} EvictedShelf(c: Config, s: State, t: nat, victims: seq<string>)
    requires Enabled(c, s, EvictNow(t, victims))
    ensures Step(c, s, EvictNow(t, victims)).shelf == EvictAll(s.shelf, victims)
  {
  }

  /** Over every run whose clocks do not fall: each victim of an eviction is an idle bundle, and
      every idle bundle that stays has been used since. */
  lemma {:induction false} VictimsUsedLongestAgo(c: Config, events: seq<Event>, t: nat, victims: seq<string>, v: string, k: string)
    requires CanRun(c, Start(c), events) && NonFalling(events)
    requires Enabled(c, After(c, Start(c), events), EvictNow(t, victims)) && v in victims
    ensures var s := After(c, Start(c), events);
      && Evictable(s.shelf, s.tasks[t].key, v)
      && var h' := Step(c, s, EvictNow(t, victims)).shelf;
         Evictable(h', s.tasks[t].key, k) ==>
           k in s.shelf.registry && h'.registry[k] == s.shelf.registry[k] && UsedBefore(c, events, s.shelf.registry[v], s.shelf.registry[k])
  {
    var s := After(c, Start(c), events);
    var (h, key) := (s.shelf, s.tasks[t].key);
    StartInv(c);
    RunKeepsInv(c, Start(c), events);
    EvictedShelf(c, s, t, victims);
    VictimsOlder(h, key, c.limit, victims, EvictAll(h, victims), v, k);
    if Evictable(EvictAll(h, victims), key, k) {
      OlderUse(c, events, h.registry[v], h.registry[k]);
    }
  }

  lemma {:induction false} OlderUse(c: Config, events: seq<Event>, a: nat, b: nat)
    requires CanRun(c, Start(c), events) && NonFalling(events)
    requires var bundles := After(c, Start(c), events).shelf.bundles;
      a < |bundles| && b < |bundles| && a != b && bundles[a].lastUsed <= bundles[b].lastUsed
    ensures UsedBefore(c, events, a, b)
  {
    var i := LastUseDates(c, events, a);
    var j := LastUseDates(c, events, b);
    if i == j {
      OneUse(StateAt(c, events, i), events[i], a, b);
    }
    assert Precedes(events, i, j);
  }

  // ----- the registry

  /** The event puts the bundle into the registry: a load, or the end of a replacement's prewarm run. */
  predicate Installs(s: State, e: Event, k: string, b: nat) {
    match e
    case EndLoad(t, ok, _, _, _) =>
      ok && t in s.tasks && s.tasks[t].Loading? && !s.tasks[t].replace && s.tasks[t].hold.key == k && b == |s.shelf.bundles|
    case EndThread(t, ok, _) =>
      && ok && t in s.tasks && s.tasks[t].Running? && s.tasks[t].bundle == b
      && s.tasks[t].prewarm.Some? && s.tasks[t].prewarm.value.key == k
    case _ => false
  }

  predicate Removes(e: Event, k: string) {
    match e
    case Unload(_, key) => key == k
    case EvictNow(_, victims) => k in victims
    case _ => false
  }

  predicate Entry(h: Shelf, k: string, b: nat) {
    k in h.registry && h.registry[k] == b
  }

  ghost predicate Displaces(s: State, e: Event, k: string) {
    Removes(e, k) || exists b: nat :: Installs(s, e, k, b)
  }

  ghost predicate RegistryMoves(s: State, e: Event, s': State) {
    forall k, b: nat :: Entry(s'.shelf, k, b) <==> Installs(s, e, k, b) || (Entry(s.shelf, k, b) && !Displaces(s, e, k))
  }

  lemma {:induction false} EvictMoves(c: Config, s: State, t: nat, victims: seq<string>)
    requires Wired(s.shelf) && Enabled(c, s, EvictNow(t, victims))
    ensures RegistryMoves(s, EvictNow(t, victims), Step(c, s, EvictNow(t, victims)))
  {
    EvictedShelf(c, s, t, victims);
    EvictedRegistry(s.shelf, Some(s.tasks[t].key), c.limit, victims);
  }

  lemma {:induction false} EvictedRegistry(h: Shelf, except: Option<string>, limit: int, victims: seq<string>)
    requires Wired(h) && Evicts(h, except, limit, victims)
    ensures EvictAll(h, victims).registry == h.registry - (set v | v in victims)
  {
    EvictionOutcome(h, except, limit, victims);
  }

  lemma {:induction false} EndMoves(c: Config, s: State, e: Event)
    requires Enabled(c, s, e) && e.EndThread?
    ensures RegistryMoves(s, e, Step(c, s, e))
  {
    var (x, s') := (s.tasks[e.t], Step(c, s, e));
    if e.ok && x.prewarm.Some? {
      assert Installs(s, e, x.prewarm.value.key, x.bundle);
      assert s'.shelf.registry == s.shelf.registry[x.prewarm.value.key := x.bundle];
    } else {
      assert s'.shelf.registry == s.shelf.registry;
    }
  }

  lemma {:induction false} LoadMoves(c: Config, s: State, e: Event)
    requires Enabled(c, s, e) && e.EndLoad?
    ensures RegistryMoves(s, e, Step(c, s, e))
  {
    var (x, s') := (s.tasks[e.t], Step(c, s, e));
    if e.ok && !x.replace {
      assert Installs(s, e, x.hold.key, |s.shelf.bundles|);
      assert s'.shelf.registry == s.shelf.registry[x.hold.key := |s.shelf.bundles|];
    } else {
      assert s'.shelf.registry == s.shelf.registry;
    }
  }

  lemma {:induction false} OtherMoves(c: Config, s: State, e: Event)
    requires Enabled(c, s, e) && !e.EvictNow? && !e.EndThread? && !e.EndLoad?
    ensures RegistryMoves(s, e, Step(c, s, e))
  {
    OtherRegistry(c, s, e);
    MovedRegistry(s, e, Step(c, s, e));
  }

  lemma {:induction false} OtherRegistry(c: Config, s: State, e: Event)
    requires Enabled(c, s, e) && !e.EvictNow? && !e.EndThread? && !e.EndLoad?
    ensures Step(c, s, e).shelf.registry == if e.Unload? then s.shelf.registry - {e.key} else s.shelf.registry
  {
  }

  lemma {:induction false} MovedRegistry(s: State, e: Event, s': State)
    requires !e.EvictNow? && !e.EndThread? && !e.EndLoad?
    requires s'.shelf.registry == if e.Unload? then s.shelf.registry - {e.key} else s.shelf.registry
    ensures RegistryMoves(s, e, s')
  {
  }

  ghost predicate InstalledAt(c: Config, events: seq<Event>, i: nat, k: string, b: nat) {
    i < |events| && CanRun(c, Start(c), events[..i]) && Installs(StateAt(c, events, i), events[i], k, b)
  }

  ghost predicate DisplacedAt(c: Config, events: seq<Event>, i: nat, k: string) {
    i < |events| && CanRun(c, Start(c), events[..i]) && Displaces(StateAt(c, events, i), events[i], k)
  }

  /** Event i put the bundle into the registry, and nothing has taken its place since. */
  ghost predicate Standing(c: Config, events: seq<Event>, i: nat, k: string, b: nat) {
    InstalledAt(c, events, i, k, b) && forall j: nat | i < j < |events| :: !DisplacedAt(c, events, j, k)
  }

  /** Over every run: the registry leads from a key to the bundle installed for it last, unless an
      unload or an eviction of the key came after. */
  lemma {:induction false} RegistryIsLastInstalled(c: Config, events: seq<Event>, k: string, b: nat)
    requires CanRun(c, Start(c), events)
    ensures Entry(After(c, Start(c), events).shelf, k, b) <==> exists i: nat :: Standing(c, events, i, k, b)
    decreases |events|
  {
    if events != [] {
      var n, init := |events| - 1, events[..|events| - 1];
      RunSplits(c, Start(c), events);
      var (s, e) := (After(c, Start(c), init), events[n]);
      RegistryIsLastInstalled(c, init, k, b);
      StartInv(c);
      RunKeepsInv(c, Start(c), init);
      match e {
        case EvictNow(t, victims) => EvictMoves(c, s, t, victims);
        case EndThread(_, _, _) => EndMoves(c, s, e);
        case EndLoad(_, _, _, _, _) => LoadMoves(c, s, e);
        case _ => OtherMoves(c, s, e);
      }
      StandingStep(c, events, k, b);
    }
  }

  lemma {:induction false} StandingStep(c: Config, events: seq<Event>, k: string, b: nat)
    requires events != [] && CanRun(c, Start(c), events[..|events| - 1])
    ensures var (s, init) := (After(c, Start(c), events[..|events| - 1]), events[..|events| - 1]);
      (exists i: nat :: Standing(c, events, i, k, b))
      <==> Installs(s, events[|events| - 1], k, b)
           || ((exists i: nat :: Standing(c, init, i, k, b)) && !Displaces(s, events[|events| - 1], k))
  {
    var n, init := |events| - 1, events[..|events| - 1];
    if Installs(After(c, Start(c), init), events[n], k, b) {
      assert Standing(c, events, n, k, b);
    }
    forall i: nat | i < n ensures Standing(c, events, i, k, b) <==> Standing(c, init, i, k, b) && !DisplacedAt(c, events, n, k) {
      StandingOn(c, events, i, k, b);
    }
  }

  lemma {:induction false} StandingOn(c: Config, events: seq<Event>, i: nat, k: string, b: nat)
    requires i + 1 < |events|
    ensures Standing(c, events, i, k, b) <==> Standing(c, events[..|events| - 1], i, k, b) && !DisplacedAt(c, events, |events| - 1, k)
  {
    var init := events[..|events| - 1];
    assert forall j: nat | j <= |init| :: init[..j] == events[..j];
    forall j: nat | j < |init| ensures DisplacedAt(c, init, j, k) <==> DisplacedAt(c, events, j, k) {
    }
  }

  // ----- released sessions

  /** The event drops the session: a drain that has ended, an eviction, or a prewarm run that failed. */
  predicate Frees(s: State, e: Event, b: nat) {
    match e
    case Drained(t) => t in s.tasks && s.tasks[t].Draining? && s.tasks[t].bundle == b
    case EvictNow(_, victims) => exists v :: v in victims && Entry(s.shelf, v, b)
    case EndThread(t, ok, _) => !ok && t in s.tasks && s.tasks[t].Running? && s.tasks[t].bundle == b && s.tasks[t].prewarm.Some?
    case TimeOut(t, _) => t in s.tasks && s.tasks[t].Running? && s.tasks[t].bundle == b && s.tasks[t].prewarm.Some?
    case _ => false
  }

  predicate Dropped(h: Shelf, b: nat) {
    b < |h.bundles| && h.bundles[b].released
  }

  ghost predicate Drops(s: State, e: Event, s': State) {
    forall b: nat :: Dropped(s'.shelf, b) <==> Dropped(s.shelf, b) || (b < |s.shelf.bundles| && Frees(s, e, b))
  }

  lemma {:induction false} RunDrops(c: Config, s: State, e: Event)
    requires Enabled(c, s, e) && (e.Begin? || e.TakeModel? || e.TakeGpu? || e.EndOrphan? || e.Cancel?)
    ensures Drops(s, e, Step(c, s, e))
  {
  }

  lemma {:induction false} EndDrops(c: Config, s: State, e: Event)
    requires Enabled(c, s, e) && (e.EndThread? || e.TimeOut?)
    ensures Drops(s, e, Step(c, s, e))
  {
  }

  lemma {:induction false} LoadDrops(c: Config, s: State, e: Event)
    requires Wired(s.shelf) && Enabled(c, s, e) && (e.Request? || e.TakeLoad? || e.EndLoad?)
    ensures Drops(s, e, Step(c, s, e))
  {
  }

  lemma {:induction false} OtherDrops(c: Config, s: State, e: Event)
    requires Enabled(c, s, e) && (e.Unload? || e.Retire? || e.Drained?)
    ensures Drops(s, e, Step(c, s, e))
  {
  }

  lemma {:induction false} EvictedDrops(h: Shelf, except: Option<string>, limit: int, victims: seq<string>, b: nat)
    requires Wired(h) && Evicts(h, except, limit, victims)
    ensures Dropped(EvictAll(h, victims), b) <==> Dropped(h, b) || (b < |h.bundles| && exists v :: v in victims && Entry(h, v, b))
  {
    EvictionOutcome(h, except, limit, victims);
    assert Gone(h, victims, b) <==> exists v :: v in victims && Entry(h, v, b) by {
      if v :| v in victims && Entry(h, v, b) {
        assert v in h.registry && h.registry[v] == b;
      }
      if Gone(h, victims, b) {
        var v :| v in victims && v in h.registry && h.registry[v] == b;
        assert Entry(h, v, b);
      }
    }
  }

  lemma {:induction false} EvictDrops(c: Config, s: State, t: nat, victims: seq<string>)
    requires Wired(s.shelf) && Enabled(c, s, EvictNow(t, victims))
    ensures Drops(s, EvictNow(t, victims), Step(c, s, EvictNow(t, victims)))
  {
    EvictedShelf(c, s, t, victims);
    forall b: nat
      ensures Dropped(EvictAll(s.shelf, victims), b) <==> Dropped(s.shelf, b) || (b < |s.shelf.bundles| && Frees(s, EvictNow(t, victims), b))
    {
      EvictedDrops(s.shelf, Some(s.tasks[t].key), c.limit, victims, b);
    }
  }

  lemma {:induction false} StepDrops(c: Config, s: State, e: Event)
    requires Wired(s.shelf) && Enabled(c, s, e)
    ensures Drops(s, e, Step(c, s, e))
  {
    match e
    case Begin(_, _) => RunDrops(c, s, e);
    case TakeModel(_) => RunDrops(c, s, e);
    case TakeGpu(_) => RunDrops(c, s, e);
    case EndOrphan(_) => RunDrops(c, s, e);
    case Cancel(_, _) => RunDrops(c, s, e);
    case EndThread(_, _, _) => EndDrops(c, s, e);
    case TimeOut(_, _) => EndDrops(c, s, e);
    case Request(_, _, _, _) => LoadDrops(c, s, e);
    case TakeLoad(_, _) => LoadDrops(c, s, e);
    case EndLoad(_, _, _, _, _) => LoadDrops(c, s, e);
    case EvictNow(t, victims) => EvictDrops(c, s, t, victims);
    case _ => OtherDrops(c, s, e);
  }

  ghost predicate FreedAt(c: Config, events: seq<Event>, i: nat, b: nat) {
    && i < |events| && CanRun(c, Start(c), events[..i])
    && b < |StateAt(c, events, i).shelf.bundles| && Frees(StateAt(c, events, i), events[i], b)
  }

  /** Over every run: a session is released exactly when it was drained or evicted, or its prewarm
      run failed. */
  lemma {:induction false} ReleasedIffFreed(c: Config, events: seq<Event>, b: nat)
    requires CanRun(c, Start(c), events)
    ensures Dropped(After(c, Start(c), events).shelf, b) <==> exists i: nat :: FreedAt(c, events, i, b)
    decreases |events|
  {
    if events != [] {
      var n, init := |events| - 1, events[..|events| - 1];
      RunSplits(c, Start(c), events);
      ReleasedIffFreed(c, init, b);
      StartInv(c);
      RunKeepsInv(c, Start(c), init);
      StepDrops(c, After(c, Start(c), init), events[n]);
      FreedBefore(c, events, b);
    }
  }

  lemma {:induction false} FreedBefore(c: Config, events: seq<Event>, b: nat)
    requires events != [] && CanRun(c, Start(c), events[..|events| - 1])
    ensures var (n, init) := (|events| - 1, events[..|events| - 1]);
      (exists i: nat :: FreedAt(c, events, i, b)) <==> FreedAt(c, events, n, b) || exists i: nat :: FreedAt(c, init, i, b)
  {
    var init := events[..|events| - 1];
    assert forall j: nat | j <= |init| :: init[..j] == events[..j];
    forall i: nat | i < |init| ensures FreedAt(c, init, i, b) <==> FreedAt(c, events, i, b) {
    }
    if i: nat :| FreedAt(c, events, i, b) && i < |init| {
      assert FreedAt(c, init, i, b);
    }
    if i: nat :| FreedAt(c, init, i, b) {
      assert FreedAt(c, events, i, b);
    }
  }

  // ----- where tasks come from

  ghost predicate Asked(events: seq<Event>, t: nat, key: string, replace: bool) {
    exists i :: 0 <= i < |events| && events[i].Request? && events[i].t == t && events[i].key == key && events[i].replace == replace
  }

  ghost predicate Begun(events: seq<Event>, t: nat, b: nat) {
    Begin(t, b) in events
  }

  /** The stage of a task answers to the event that began it: a run to its bundle, a load or a
      replacement to its key. */
  ghost predicate Stems(events: seq<Event>, t: nat, x: Stage) {
    match x
    case Done => true
    case WaitLoad(want, replace) => Asked(events, t, want.key, replace)
    case Loading(hold, replace) => Asked(events, t, hold.key, replace)
    case Running(b, _, _, prewarm) => if prewarm.None? then Begun(events, t, b) else Asked(events, t, prewarm.value.key, true)
    case Evicting(key, lock) => Asked(events, t, key, lock.None?)
    case Draining(b) => exists e :: e in events && e.t == t && (e.Unload? || e == Retire(t, b))
  }

  lemma {:induction false} StemsStay(events: seq<Event>, e: Event, t: nat, x: Stage)
    requires Stems(events, t, x)
    ensures Stems(events + [e], t, x)
  {
    forall key, replace | Asked(events, t, key, replace) ensures Asked(events + [e], t, key, replace) {
      var i :| 0 <= i < |events| && events[i].Request? && events[i].t == t && events[i].key == key && events[i].replace == replace;
      assert (events + [e])[i] == events[i];
    }
  }

  /** A stage follows from another: the same run, load or replacement goes on. */
  predicate Follows(was: Stage, e: Event, x: Stage) {
    match x
    case Done => true
    case WaitLoad(want, replace) => e.Request? && e.key == want.key && e.replace == replace
    case Loading(hold, replace) => was == WaitLoad(hold, replace)
    case Running(b, _, _, prewarm) =>
      || (was.Running? && was.bundle == b && was.prewarm == prewarm)
      || (prewarm.None? && e == Begin(e.t, b))
      || (prewarm.Some? && was == Loading(prewarm.value, true))
    case Evicting(key, lock) =>
      || (lock.Some? && was.Loading? && !was.replace && was.hold.key == key)
      || (lock.None? && was.Running? && was.prewarm.Some? && was.prewarm.value.key == key)
    case Draining(b) => e.Unload? || e == Retire(e.t, b)
  }

  lemma {:induction false} FollowsStems(events: seq<Event>, e: Event, was: Stage, x: Stage)
    requires Stems(events, e.t, was) && Follows(was, e, x)
    ensures Stems(events + [e], e.t, x)
  {
    StemsStay(events, e, e.t, was);
    assert (events + [e])[|events|] == e;
  }

  lemma {:induction false} RunFollows(c: Config, s: State, e: Event)
    requires Enabled(c, s, e) && OfRun(e) && !e.EndOrphan?
    ensures e.t in Step(c, s, e).tasks && Follows(At(s.tasks, e.t), e, Step(c, s, e).tasks[e.t])
  {
  }

  lemma {:induction false} RegistryFollows(c: Config, s: State, e: Event)
    requires Enabled(c, s, e) && !OfRun(e)
    ensures e.t in Step(c, s, e).tasks && Follows(At(s.tasks, e.t), e, Step(c, s, e).tasks[e.t])
  {
  }

  lemma {:induction false} StageStems(c: Config, s: State, e: Event, events: seq<Event>, t: nat)
    requires Enabled(c, s, e) && Stems(events, t, At(s.tasks, t))
    ensures Stems(events + [e], t, At(Step(c, s, e).tasks, t))
  {
    StemsStay(events, e, t, At(s.tasks, t));
    TasksOfStep(c, s, e);
    if t == e.t && !e.EndOrphan? {
      if OfRun(e) {
        RunFollows(c, s, e);
      } else {
        RegistryFollows(c, s, e);
      }
      FollowsStems(events, e, At(s.tasks, t), Step(c, s, e).tasks[t]);
    }
  }

  /** Over every run: a task in flight works on the bundle or key it was begun for. */
  lemma {:induction false} TasksStem(c: Config, events: seq<Event>, t: nat)
    requires CanRun(c, Start(c), events)
    ensures Stems(events, t, At(After(c, Start(c), events).tasks, t))
    decreases |events|
  {
    if events != [] {
      var init, e := events[..|events| - 1], events[|events| - 1];
      RunSplits(c, Start(c), events);
      TasksStem(c, init, t);
      StageStems(c, After(c, Start(c), init), e, init, t);
      assert events == init + [e];
    }
  }
}
