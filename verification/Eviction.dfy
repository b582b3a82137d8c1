/** The model registry and its eviction of least recently used bundles. A bundle is known by
    its position in the list of all bundles ever loaded. */
module Eviction {
  import opened Options

  /** A loaded model: `permits` is the size of its semaphore, `free` what is left of it, and
      `released` says that its session has been dropped. */
  datatype Bundle = Bundle(key: string, permits: nat, free: int, device: Option<nat>, inUse: int, released: bool, lastUsed: real)

  datatype Shelf = Shelf(bundles: seq<Bundle>, registry: map<string, nat>, loadLocks: map<string, nat>)

  /** Each key leads to a bundle of that key whose session is there. */
  ghost predicate Wired(h: Shelf) {
    forall k | k in h.registry ::
      h.registry[k] < |h.bundles| && h.bundles[h.registry[k]].key == k && !h.bundles[h.registry[k]].released
  }

  predicate Idle(h: Shelf, except: Option<string>, k: string) {
    k in h.registry && Some(k) != except && h.registry[k] < |h.bundles| && h.bundles[h.registry[k]].inUse == 0
  }

  function LastUsed(h: Shelf, k: string): real {
    if k in h.registry && h.registry[k] < |h.bundles| then h.bundles[h.registry[k]].lastUsed else 0.0
  }

  /** An idle bundle that no idle bundle is older than. */
  ghost predicate Oldest(h: Shelf, except: Option<string>, k: string) {
    Idle(h, except, k) && forall other | Idle(h, except, other) :: LastUsed(h, k) <= LastUsed(h, other)
  }

  function Release(bundles: seq<Bundle>, b: nat): seq<Bundle>
    requires b < |bundles|
  {
    bundles[b := bundles[b].(released := true)]
  }

  function Evict(h: Shelf, k: string): Shelf {
    if k in h.registry && h.registry[k] < |h.bundles| then
      Shelf(Release(h.bundles, h.registry[k]), h.registry - {k}, h.loadLocks - {k})
    else h
  }

  function EvictAll(h: Shelf, victims: seq<string>): Shelf {
    if victims == [] then h else Evict(EvictAll(h, victims[..|victims| - 1]), victims[|victims| - 1])
  }

  /** Each victim in turn was the oldest idle bundle of a registry over its limit. */
  ghost predicate InTurn(h: Shelf, except: Option<string>, limit: int, victims: seq<string>) {
    victims == [] ||
    var before := EvictAll(h, victims[..|victims| - 1]);
    && InTurn(h, except, limit, victims[..|victims| - 1])
    && |before.registry| > limit && Oldest(before, except, victims[|victims| - 1])
  }

  ghost predicate Stops(h: Shelf, except: Option<string>, limit: int) {
    |h.registry| <= limit || forall k :: !Idle(h, except, k)
  }

  /** What an eviction does: a limit of zero or less turns it off. */
  ghost predicate Evicts(h: Shelf, except: Option<string>, limit: int, victims: seq<string>) {
    if limit <= 0 then victims == []
    else InTurn(h, except, limit, victims) && Stops(EvictAll(h, victims), except, limit)
  }

  /** A shelf after some victims: nothing but their entries, locks and sessions is gone. */
  ghost predicate Without(h: Shelf, victims: seq<string>, h': Shelf) {
    && h'.registry == h.registry - (set v | v in victims)
    && h'.loadLocks == h.loadLocks - (set v | v in victims)
    && |h'.bundles| == |h.bundles|
    && forall b | 0 <= b < |h.bundles| ::
         h'.bundles[b] == h.bundles[b].(released := h.bundles[b].released || Gone(h, victims, b))
  }

  ghost predicate Gone(h: Shelf, victims: seq<string>, b: nat) {
    exists v :: v in victims && v in h.registry && h.registry[v] == b
  }

  lemma {:induction false} WithoutOne(h: Shelf, victims: seq<string>, h': Shelf, except: Option<string>, k: string)
    requires Wired(h) && Without(h, victims, h') && Idle(h', except, k)
    ensures Without(h, victims + [k], Evict(h', k)) && Idle(h, except, k) && k !in victims
  {
    var next, all := Evict(h', k), victims + [k];
    forall b | 0 <= b < |h.bundles|
      ensures next.bundles[b] == h.bundles[b].(released := h.bundles[b].released || Gone(h, all, b))
    {
      if b == h.registry[k] {
        assert k in all;
        assert Gone(h, all, b);
      } else if Gone(h, victims, b) {
        var v :| v in victims && v in h.registry && h.registry[v] == b;
        assert v in all;
      }
    }
  }

  /** What victims leave of a shelf. */
  ghost predicate Spent(h: Shelf, except: Option<string>, limit: int, victims: seq<string>, h': Shelf) {
    && Without(h, victims, h')
    && |h'.registry| == |h.registry| - |victims|
    && (forall v | v in victims :: Idle(h, except, v))
    && (victims != [] ==> |h'.registry| >= limit)
  }

  lemma {:induction false} SpendOne(h: Shelf, except: Option<string>, limit: int, victims: seq<string>, h': Shelf, k: string)
    requires Wired(h) && Spent(h, except, limit, victims, h') && |h'.registry| > limit && Idle(h', except, k)
    ensures Spent(h, except, limit, victims + [k], Evict(h', k))
  {
    WithoutOne(h, victims, h', except, k);
    Shrinks(h', k);
  }

  lemma {:induction false} Unwind(h: Shelf, except: Option<string>, limit: int, victims: seq<string>) returns (init: seq<string>, k: string, before: Shelf)
    requires victims != [] && InTurn(h, except, limit, victims)
    ensures victims == init + [k] && |init| < |victims| && before == EvictAll(h, init) && EvictAll(h, victims) == Evict(before, k)
    ensures InTurn(h, except, limit, init) && |before.registry| > limit && Oldest(before, except, k)
  {
    init, k := victims[..|victims| - 1], victims[|victims| - 1];
    before := EvictAll(h, init);
  }

  lemma {:induction false} Wind(h: Shelf, except: Option<string>, limit: int, victims: seq<string>, k: string)
    requires InTurn(h, except, limit, victims) && |EvictAll(h, victims).registry| > limit && Oldest(EvictAll(h, victims), except, k)
    ensures InTurn(h, except, limit, victims + [k]) && EvictAll(h, victims + [k]) == Evict(EvictAll(h, victims), k)
  {
    assert (victims + [k])[..|victims|] == victims;
  }

  lemma {:induction false} VictimsGone(h: Shelf, except: Option<string>, limit: int, victims: seq<string>)
    requires Wired(h) && InTurn(h, except, limit, victims)
    ensures Spent(h, except, limit, victims, EvictAll(h, victims))
    decreases |victims|
  {
    if victims == [] {
      assert forall b | 0 <= b < |h.bundles| :: !Gone(h, victims, b);
    } else {
      var init, k, before := Unwind(h, except, limit, victims);
      VictimsGone(h, except, limit, init);
      SpendOne(h, except, limit, init, before, k);
    }
  }

  /** No idle bundle that stays was used before a victim. */
  ghost predicate Older(h: Shelf, except: Option<string>, victims: seq<string>, h': Shelf) {
    forall v, k | v in victims && Idle(h', except, k) :: LastUsed(h, v) <= LastUsed(h, k)
  }

  lemma {:induction false} OlderOne(h: Shelf, except: Option<string>, victims: seq<string>, h': Shelf, last: string)
    requires Wired(h) && Without(h, victims, h') && Older(h, except, victims, h') && Oldest(h', except, last)
    ensures Older(h, except, victims + [last], Evict(h', last))
  {
    forall v, k | v in victims + [last] && Idle(Evict(h', last), except, k) ensures LastUsed(h, v) <= LastUsed(h, k) {
      assert Idle(h', except, k);
    }
  }

  lemma {:induction false} OldestFirst(h: Shelf, except: Option<string>, limit: int, victims: seq<string>)
    requires Wired(h) && InTurn(h, except, limit, victims)
    ensures Older(h, except, victims, EvictAll(h, victims))
    decreases |victims|
  {
    if victims != [] {
      var init, k, before := Unwind(h, except, limit, victims);
      OldestFirst(h, except, limit, init);
      VictimsGone(h, except, limit, init);
      OlderOne(h, except, init, before, k);
    }
  }

  /** After an eviction the registry fits its limit or every other bundle is busy; what went
      is the idle bundles used longest ago, and no more of them than needed. */
  lemma {:induction false} EvictionOutcome(h: Shelf, except: Option<string>, limit: int, victims: seq<string>)
    requires Wired(h) && Evicts(h, except, limit, victims)
    ensures var h' := EvictAll(h, victims);
      && Wired(h') && Spent(h, except, limit, victims, h')
      && (limit > 0 ==> |h'.registry| <= limit || forall k | k in h'.registry && Some(k) != except :: h'.bundles[h'.registry[k]].inUse != 0)
      && (except.Some? && except.value in h.registry ==> except.value in h'.registry)
      && Older(h, except, victims, h') && (limit <= 0 ==> h' == h)
  {
    var h' := EvictAll(h, victims);
    if limit > 0 {
      VictimsGone(h, except, limit, victims);
      OldestFirst(h, except, limit, victims);
      StaysWired(h, victims, h');
      forall k | k in h'.registry && Some(k) != except && |h'.registry| > limit ensures h'.bundles[h'.registry[k]].inUse != 0 {
        assert !Idle(h', except, k);
      }
    } else {
      assert forall b | 0 <= b < |h.bundles| :: !Gone(h, victims, b);
    }
  }

  lemma {:induction false} StaysWired(h: Shelf, victims: seq<string>, h': Shelf)
    requires Wired(h) && Without(h, victims, h')
    ensures Wired(h')
  {
    forall k | k in h'.registry ensures !Gone(h, victims, h'.registry[k]) {
      assert forall v | v in victims && v in h.registry :: h.bundles[h.registry[v]].key == v;
    }
  }

  lemma {:induction false} StaysWiredOne(h: Shelf, k: string)
    requires Wired(h)
    ensures Wired(Evict(h, k))
  {
  }

  /** An eviction can always be carried out. */
  lemma {:induction false} CanEvict(h: Shelf, except: Option<string>, limit: int, soFar: seq<string>) returns (victims: seq<string>)
    requires Wired(h) && limit > 0 && InTurn(h, except, limit, soFar)
    ensures Evicts(h, except, limit, victims)
    decreases |EvictAll(h, soFar).registry|
  {
    var now := EvictAll(h, soFar);
    if Stops(now, except, limit) {
      victims := soFar;
    } else {
      var idle := set k | k in now.registry && Idle(now, except, k);
      var any :| Idle(now, except, any);
      assert any in idle;
      var k := OldestExists(now, except, idle);
      Wind(h, except, limit, soFar, k);
      Shrinks(now, k);
      victims := CanEvict(h, except, limit, soFar + [k]);
    }
  }

  lemma {:induction false} Shrinks(h: Shelf, k: string)
    requires k in h.registry && h.registry[k] < |h.bundles|
    ensures |Evict(h, k).registry| == |h.registry| - 1
  {
    assert h.registry.Keys == Evict(h, k).registry.Keys + {k};
  }

  lemma {:induction false} OldestExists(h: Shelf, except: Option<string>, among: set<string>) returns (k: string)
    requires among != {} && forall x | x in among :: Idle(h, except, x)
    ensures k in among && forall x | x in among :: LastUsed(h, k) <= LastUsed(h, x)
    decreases |among|
  {
    k :| k in among;
    if among != {k} {
      var best := OldestExists(h, except, among - {k});
      if LastUsed(h, best) <= LastUsed(h, k) {
        k := best;
      }
    }
  }

  class ModelRegistry {
    var bundles: seq<Bundle>
    var registry: map<string, nat>
    var loadLocks: map<string, nat>

    ghost function View(): Shelf
      reads this
    {
      Shelf(bundles, registry, loadLocks)
    }

    /** Evicts idle bundles, the one used longest ago first, until the registry fits. */
    method EvictLruIfNeeded(except: Option<string>, limit: int) returns (ghost victims: seq<string>)
      requires Wired(View())
      modifies this
      ensures Evicts(old(View()), except, limit, victims) && View() == EvictAll(old(View()), victims) && Wired(View())
    {
      victims := [];
      if limit <= 0 {
        return;
      }
      ghost var h := View();
      while |registry| > limit
        invariant Wired(View()) && InTurn(h, except, limit, victims) && View() == EvictAll(h, victims)
        decreases |registry|
      {
        var evictable := set k | k in registry && Idle(Shelf(bundles, registry, loadLocks), except, k);
        if evictable == {} {
          NoneIdle(View(), except, evictable);
          return;
        }
        var k := LeastRecentlyUsed(evictable, except);
        Wind(h, except, limit, victims, k);
        Shrinks(View(), k);
        StaysWiredOne(View(), k);
        bundles := bundles[registry[k] := bundles[registry[k]].(released := true)];
        registry, loadLocks := registry - {k}, loadLocks - {k};
        victims := victims + [k];
      }
    }

    method LeastRecentlyUsed(evictable: set<string>, ghost except: Option<string>) returns (k: string)
      requires evictable != {} && forall x :: x in evictable <==> Idle(View(), except, x)
      ensures Oldest(View(), except, k)
    {
      k :| k in evictable;
      var left := evictable - {k};
      while left != {}
        invariant k in evictable && left <= evictable
        invariant forall x | x in evictable && x !in left :: LastUsed(View(), k) <= LastUsed(View(), x)
        decreases |left|
      {
        var x :| x in left;
        left := left - {x};
        if bundles[registry[x]].lastUsed < bundles[registry[k]].lastUsed {
          k := x;
        }
      }
    }
  }

  lemma {:induction false} NoneIdle(h: Shelf, except: Option<string>, idle: set<string>)
    requires idle == {} && forall k | k in h.registry && Idle(h, except, k) :: k in idle
    ensures forall k :: !Idle(h, except, k)
  {
  }
}
