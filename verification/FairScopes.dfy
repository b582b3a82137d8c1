/** The requests of the inference scheduler, their scopes, and the order in which the scopes have
    their turns. */
module FairScopes {
  import opened Options
  import opened Sums

  datatype Request = Request(id: nat, size: nat, scope: string, priority: int, weight: nat, group: string,
                             enqueuedAt: real, deadline: Option<real>)

  ghost predicate DistinctIds(s: seq<Request>) {
    forall i, j | 0 <= i < j < |s| :: s[i].id != s[j].id
  }

  ghost predicate Positive(s: seq<Request>) {
    forall x | x in s :: x.weight > 0
  }

  ghost predicate Sized(s: seq<Request>) {
    forall x | x in s :: x.size > 0
  }

  ghost predicate Unit(s: seq<Request>) {
    forall x | x in s :: x.size == 1
  }

  function Total(s: seq<Request>): nat {
    if s == [] then 0 else Total(s[..|s| - 1]) + s[|s| - 1].size
  }

  /** The requests of one scope, in order. */
  function Of(s: seq<Request>, scope: string): seq<Request> {
    if s == [] then []
    else
      var init, last := Of(s[..|s| - 1], scope), s[|s| - 1];
      if last.scope == scope then init + [last] else init
  }

  predicate Alike(a: Request, b: Request) {
    a.priority == b.priority && a.group == b.group
  }

  /** The requests of the seed's priority and group, in order. */
  function Candidates(queue: seq<Request>, seed: Request): (r: seq<Request>)
    ensures forall x :: x in r <==> x in queue && Alike(x, seed)
  {
    if queue == [] then []
    else
      var init, last := Candidates(queue[..|queue| - 1], seed), queue[|queue| - 1];
      assert queue == queue[..|queue| - 1] + [last];
      if Alike(last, seed) then init + [last] else init
  }

  /** The scopes in order of first appearance. */
  function Scopes(s: seq<Request>): (r: seq<string>)
    ensures forall x :: x in r <==> exists i :: 0 <= i < |s| && s[i].scope == x
    ensures forall i, j | 0 <= i < j < |r| :: r[i] != r[j]
  {
    if s == [] then []
    else
      var init, last := Scopes(s[..|s| - 1]), s[|s| - 1].scope;
      if last in init then init else init + [last]
  }

  function IndexOf(s: seq<string>, x: string): (k: nat)
    requires x in s
    ensures k < |s| && s[k] == x
  {
    if s[0] == x then 0 else 1 + IndexOf(s[1..], x)
  }

  /** The scope after the one served last comes first. */
  function Rotated(scopes: seq<string>, last: Option<string>): (r: seq<string>)
    ensures multiset(r) == multiset(scopes) && |r| == |scopes|
    ensures forall x :: x in r <==> x in scopes
  {
    if last.Some? && last.value in scopes && |scopes| > 1 then
      var offset := (IndexOf(scopes, last.value) + 1) % |scopes|;
      assert scopes == scopes[..offset] + scopes[offset..];
      scopes[offset..] + scopes[..offset]
    else scopes
  }

  // ----- first appearances

  /** One scope stands before another in a list. */
  ghost predicate ComesFirst(order: seq<string>, x: string, y: string) {
    exists p, q :: 0 <= p < q < |order| && order[p] == x && order[q] == y
  }

  ghost predicate InOrder(order: seq<string>, xs: seq<string>) {
    forall i, j | 0 <= i < j < |xs| :: ComesFirst(order, xs[i], xs[j])
  }

  ghost predicate InTurn(order: seq<string>, batch: seq<Request>) {
    batch != [] && order != [] && InOrder(order, Scopes(batch)) && batch[0].scope == order[0]
  }

  /** The first request of its scope. */
  ghost predicate IsFirst(s: seq<Request>, i: nat) {
    i < |s| && forall j | 0 <= j < i :: s[j].scope != s[i].scope
  }

  /** The scope served last has appeared before this position. */
  ghost predicate AfterLast(s: seq<Request>, last: Option<string>, i: nat) {
    exists l: nat :: l < i && IsFirst(s, l) && last == Some(s[l].scope)
  }

  /** One scope has its turn before another: first the scopes that appear after the one served last,
      then the others, each by first appearance. */
  ghost predicate GoesBefore(s: seq<Request>, last: Option<string>, x: string, y: string) {
    exists i: nat, j: nat :: IsFirst(s, i) && IsFirst(s, j) && s[i].scope == x && s[j].scope == y && TurnsBefore(s, last, i, j)
  }

  ghost predicate TurnsBefore(s: seq<Request>, last: Option<string>, i: nat, j: nat) {
    if AfterLast(s, last, i) == AfterLast(s, last, j) then i < j else AfterLast(s, last, i)
  }

  /** The batch begins with the scope that goes before all others, and the scopes enter it in the
      order of their turns. */
  ghost predicate ServedInTurn(all: seq<Request>, last: Option<string>, batch: seq<Request>) {
    && batch != []
    && (forall x | x in all && x.scope != batch[0].scope :: GoesBefore(all, last, batch[0].scope, x.scope))
    && forall a: nat, b: nat | a < b && IsFirst(batch, a) && IsFirst(batch, b) :: GoesBefore(all, last, batch[a].scope, batch[b].scope)
  }

  lemma {:induction false} FirstIsUnique(s: seq<Request>, i: nat, j: nat)
    requires IsFirst(s, i) && IsFirst(s, j) && s[i].scope == s[j].scope
    ensures i == j
  {
  }

  lemma {:induction false} Appearance(s: seq<Request>, p: nat) returns (i: nat)
    requires p < |Scopes(s)|
    ensures IsFirst(s, i) && s[i].scope == Scopes(s)[p]
  {
    var init := s[..|s| - 1];
    if p < |Scopes(init)| {
      i := Appearance(init, p);
    } else {
      i := |s| - 1;
      NewScope(s, p);
    }
  }

  /** The scopes are listed by first appearance. */
  lemma {:induction false} Appearances(s: seq<Request>, p: nat, q: nat) returns (i: nat, j: nat)
    requires p < q < |Scopes(s)|
    ensures IsFirst(s, i) && IsFirst(s, j) && s[i].scope == Scopes(s)[p] && s[j].scope == Scopes(s)[q] && i < j
  {
    var init := s[..|s| - 1];
    if q < |Scopes(init)| {
      i, j := Appearances(init, p, q);
    } else {
      i := Appearance(init, p);
      j := |s| - 1;
      NewScope(s, q);
    }
  }

  lemma {:induction false} NewScope(s: seq<Request>, q: nat)
    requires s != [] && |Scopes(s[..|s| - 1])| <= q < |Scopes(s)|
    ensures IsFirst(s, |s| - 1) && s[|s| - 1].scope == Scopes(s)[q]
  {
    var init := s[..|s| - 1];
    forall k | 0 <= k < |init| ensures s[k].scope in Scopes(init) {
      assert init[k] == s[k];
    }
  }

  lemma {:induction false} FirstScope(s: seq<Request>, i: nat)
    requires IsFirst(s, i)
    ensures exists p :: 0 <= p < |Scopes(s)| && Scopes(s)[p] == s[i].scope
  {
    assert s[i].scope in Scopes(s);
  }

  /** Listed behind the scope served last. */
  predicate Behind(scopes: seq<string>, last: Option<string>, p: nat) {
    last.Some? && last.value in scopes && IndexOf(scopes, last.value) < p
  }

  /** After the scope served last come those listed behind it. */
  lemma {:induction false} AfterLastIff(s: seq<Request>, last: Option<string>, p: nat, i: nat)
    requires p < |Scopes(s)| && IsFirst(s, i) && s[i].scope == Scopes(s)[p]
    ensures AfterLast(s, last, i) <==> Behind(Scopes(s), last, p)
  {
    if last.Some? && last.value in Scopes(s) {
      var k := IndexOf(Scopes(s), last.value);
      if k < p {
        var a, b := Appearances(s, k, p);
        FirstIsUnique(s, b, i);
      } else if AfterLast(s, last, i) {
        var l: nat :| l < i && IsFirst(s, l) && last == Some(s[l].scope);
        if p < k {
          var a, b := Appearances(s, p, k);
          FirstIsUnique(s, a, i);
          FirstIsUnique(s, b, l);
        }
      }
    } else {
      assert forall l: nat | IsFirst(s, l) :: s[l].scope in Scopes(s);
    }
  }

  /** Where a position of the rotated list lies in the list of first appearances. */
  function Unrotated(n: nat, offset: nat, p: nat): nat
    requires p < n && offset < n
  {
    if p < n - offset then p + offset else p - (n - offset)
  }

  lemma {:induction false} RotatedAt(scopes: seq<string>, last: string, offset: nat, p: nat)
    requires last in scopes && p < |scopes| && offset < |scopes| && |scopes| > 1 && offset == (IndexOf(scopes, last) + 1) % |scopes|
    ensures Rotated(scopes, Some(last))[p] == scopes[Unrotated(|scopes|, offset, p)]
  {
  }

  lemma {:induction false} ListedGoesBefore(s: seq<Request>, last: Option<string>, p: nat, q: nat)
    requires p < |Scopes(s)| && q < |Scopes(s)| && p != q
    requires if Behind(Scopes(s), last, p) == Behind(Scopes(s), last, q) then p < q else Behind(Scopes(s), last, p)
    ensures GoesBefore(s, last, Scopes(s)[p], Scopes(s)[q])
  {
    var i, j;
    if p < q {
      i, j := Appearances(s, p, q);
    } else {
      j, i := Appearances(s, q, p);
    }
    AfterLastIff(s, last, p, i);
    AfterLastIff(s, last, q, j);
    assert TurnsBefore(s, last, i, j);
  }

  lemma {:induction false} UnrotatedOrder(n: nat, k: nat, offset: nat, p: nat, q: nat)
    requires k < n && p < q < n && offset == if k + 1 < n then k + 1 else 0
    ensures var (p', q') := (Unrotated(n, offset, p), Unrotated(n, offset, q));
      p' < n && q' < n && p' != q' && if (k < p') == (k < q') then p' < q' else k < p'
  {
  }

  lemma {:induction false} NextPlace(k: nat, n: nat)
    requires k < n
    ensures (k + 1) % n == if k + 1 < n then k + 1 else 0
  {
  }

  /** The scopes behind one scope in the rotated list have their turn after it. */
  lemma {:induction false} RotatedGoesBefore(s: seq<Request>, last: Option<string>, p: nat, q: nat)
    requires p < q < |Scopes(s)|
    ensures GoesBefore(s, last, Rotated(Scopes(s), last)[p], Rotated(Scopes(s), last)[q])
  {
    var scopes := Scopes(s);
    if last.Some? && last.value in scopes {
      var k := IndexOf(scopes, last.value);
      var offset := (k + 1) % |scopes|;
      NextPlace(k, |scopes|);
      RotatedAt(scopes, last.value, offset, p);
      RotatedAt(scopes, last.value, offset, q);
      UnrotatedOrder(|scopes|, k, offset, p, q);
      ListedGoesBefore(s, last, Unrotated(|scopes|, offset, p), Unrotated(|scopes|, offset, q));
    } else {
      ListedGoesBefore(s, last, p, q);
    }
  }

  /** The list holds every scope once, in the order of the turns. */
  ghost predicate TurnOrder(all: seq<Request>, last: Option<string>, order: seq<string>) {
    && (forall x | x in all :: x.scope in order)
    && forall p: nat, q: nat | p < q < |order| :: GoesBefore(all, last, order[p], order[q])
  }

  lemma {:induction false} RotatedTurns(all: seq<Request>, last: Option<string>)
    ensures TurnOrder(all, last, Rotated(Scopes(all), last))
  {
    forall p: nat, q: nat | p < q < |Rotated(Scopes(all), last)|
      ensures GoesBefore(all, last, Rotated(Scopes(all), last)[p], Rotated(Scopes(all), last)[q])
    {
      RotatedGoesBefore(all, last, p, q);
    }
  }

  lemma {:induction false} ServesInTurn(all: seq<Request>, last: Option<string>, order: seq<string>, batch: seq<Request>)
    requires TurnOrder(all, last, order) && InTurn(order, batch)
    ensures ServedInTurn(all, last, batch)
  {
    forall x | x in all && x.scope != batch[0].scope ensures GoesBefore(all, last, batch[0].scope, x.scope) {
      var q :| 0 <= q < |order| && order[q] == x.scope;
      assert 0 < q;
    }
    forall a: nat, b: nat | a < b && IsFirst(batch, a) && IsFirst(batch, b) ensures GoesBefore(all, last, batch[a].scope, batch[b].scope) {
      EntersBefore(order, batch, a, b);
      var p, q :| 0 <= p < q < |order| && order[p] == batch[a].scope && order[q] == batch[b].scope;
    }
  }

  lemma {:induction false} EntersBefore(order: seq<string>, batch: seq<Request>, a: nat, b: nat)
    requires InOrder(order, Scopes(batch)) && a < b && IsFirst(batch, a) && IsFirst(batch, b)
    ensures ComesFirst(order, batch[a].scope, batch[b].scope)
  {
    FirstScope(batch, a);
    FirstScope(batch, b);
    var p :| 0 <= p < |Scopes(batch)| && Scopes(batch)[p] == batch[a].scope;
    var q :| 0 <= q < |Scopes(batch)| && Scopes(batch)[q] == batch[b].scope;
    if q < p {
      var j, i := Appearances(batch, q, p);
      FirstIsUnique(batch, i, a);
      FirstIsUnique(batch, j, b);
    }
    assert p != q;
  }

  // ----- filtering facts

  lemma {:induction false} OfMembers(s: seq<Request>, scope: string)
    ensures forall x :: x in Of(s, scope) <==> x in s && x.scope == scope
  {
    if s != [] {
      assert s == s[..|s| - 1] + [s[|s| - 1]];
      OfMembers(s[..|s| - 1], scope);
    }
  }

  lemma {:induction false} OfConcat(a: seq<Request>, b: seq<Request>, scope: string)
    ensures Of(a + b, scope) == Of(a, scope) + Of(b, scope)
  {
    if b == [] {
      assert a + b == a;
    } else {
      assert (a + b)[..|a + b| - 1] == a + b[..|b| - 1];
      OfConcat(a, b[..|b| - 1], scope);
    }
  }

  lemma {:induction false} OfSame(s: seq<Request>, scope: string)
    requires forall i | 0 <= i < |s| :: s[i].scope == scope
    ensures Of(s, scope) == s
  {
    if s != [] {
      OfSame(s[..|s| - 1], scope);
      assert s == s[..|s| - 1] + [s[|s| - 1]];
    }
  }

  lemma {:induction false} OfOther(s: seq<Request>, scope: string, other: string)
    requires (forall i | 0 <= i < |s| :: s[i].scope == scope) && other != scope
    ensures Of(s, other) == []
  {
    if s != [] {
      OfOther(s[..|s| - 1], scope, other);
    }
  }

  lemma {:induction false} TotalConcat(a: seq<Request>, b: seq<Request>)
    ensures Total(a + b) == Total(a) + Total(b)
  {
    if b == [] {
      assert a + b == a;
    } else {
      assert (a + b)[..|a + b| - 1] == a + b[..|b| - 1];
      TotalConcat(a, b[..|b| - 1]);
    }
  }

  /** More requests of one scope add that scope at most. */
  lemma {:induction false} ScopesOfMore(a: seq<Request>, more: seq<Request>, scope: string)
    requires forall i | 0 <= i < |more| :: more[i].scope == scope
    ensures Scopes(a + more) == if more == [] || scope in Scopes(a) then Scopes(a) else Scopes(a) + [scope]
  {
    if more == [] {
      assert a + more == a;
    } else {
      var init := more[..|more| - 1];
      ScopesOfMore(a, init, scope);
      assert (a + more)[..|a + more| - 1] == a + init;
    }
  }

  lemma {:induction false} ScopeHasRequests(all: seq<Request>, s: string)
    requires s in Scopes(all)
    ensures Of(all, s) != []
  {
    OfMembers(all, s);
    var i :| 0 <= i < |all| && all[i].scope == s;
    assert all[i] in Of(all, s);
  }

  lemma {:induction false} KeysAreScopes(all: seq<Request>)
    ensures (set s | s in Scopes(all)) == set x | x in all :: x.scope
    ensures all != [] ==> Scopes(all) != []
  {
    if all != [] {
      assert all[0].scope in Scopes(all);
    }
  }

  lemma {:induction false} SameDistinct(a: seq<string>, b: seq<string>)
    requires Distinct(a) && multiset(a) == multiset(b)
    ensures Distinct(b)
  {
    forall i, j | 0 <= i < j < |b| ensures b[i] != b[j] {
      assert b == b[..j] + [b[j]] + b[j + 1..];
      assert b[..j][i] == b[i];
      assert b[i] == b[j] ==> multiset(b)[b[i]] >= 2;
      OnceEach(a, b[i]);
    }
  }

  lemma {:induction false} OnceEach(a: seq<string>, x: string)
    requires Distinct(a)
    ensures multiset(a)[x] <= 1
  {
    if x in a {
      var i :| 0 <= i < |a| && a[i] == x;
      assert a == a[..i] + [x] + a[i + 1..];
      assert x !in a[..i] && x !in a[i + 1..];
    }
  }
}
