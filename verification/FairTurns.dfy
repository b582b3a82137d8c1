/** The turns of the scopes: what a scope gives in one turn, and runs of such turns. */
module FairTurns {
  import opened Options
  import opened Sums
  import opened FairScopes

  type Queues = map<string, seq<Request>>

  /** What has been selected and what is left of each scope's queue. */
  datatype Pick = Pick(left: Queues, selected: seq<Request>, size: nat, last: Option<string>)

  /** Each scope has given a prefix of its requests; the scope served last is remembered. */
  ghost predicate Splits(all: seq<Request>, p: Pick) {
    && p.size == Total(p.selected)
    && (forall x | x in p.selected :: x.scope in p.left)
    && (forall s | s in p.left :: Of(p.selected, s) + p.left[s] == Of(all, s))
    && (if p.selected == [] then p.size == 0 else p.last == Some(p.selected[|p.selected| - 1].scope))
  }

  /** The batch fits, or is a single request. */
  ghost predicate Fits(p: Pick, max: nat) {
    p.size <= max || |p.selected| == 1
  }

  /** Nothing more of this scope fits. */
  ghost predicate Stuck(p: Pick, scope: string, max: nat) {
    scope in p.left && (p.left[scope] == [] || (p.selected != [] && p.size + p.left[scope][0].size > max))
  }

  /** What a turn promises. */
  ghost predicate GoodTurn(q: seq<Request>, started: bool, before: nat, k: nat, size: nat, max: nat) {
    && q != [] && k <= |q| && k <= q[0].weight && size == before + Total(q[..k])
    && (size <= max || (!started && k == 1))
    && (!started ==> k > 0)
    && (k < |q| && k < q[0].weight && size < max ==> (started || k > 0) && size + q[k].size > max)
  }

  /** Take requests from the head of one scope's queue. */
  method TakeTurn(q: seq<Request>, started: bool, size: nat, max: nat) returns (k: nat, size': nat)
    requires q != [] && q[0].weight > 0 && size < max && (!started ==> size == 0)
    ensures GoodTurn(q, started, size, k, size', max)
  {
    k, size' := 0, size;
    assert q[..0] == [];
    while k < q[0].weight && k < |q| && !((started || k > 0) && size' + q[k].size > max)
      invariant k <= |q| && k <= q[0].weight && size' == size + Total(q[..k])
      invariant size' < max
      decreases |q| - k
    {
      assert q[..k + 1][..k] == q[..k];
      size' := size' + q[k].size;
      k := k + 1;
      if size' >= max {
        break;
      }
    }
  }

  /** One scope takes its turn. */
  function Served(p: Pick, scope: string, k: nat, size: nat): Pick
    requires scope in p.left && k <= |p.left[scope]|
  {
    Pick(p.left[scope := p.left[scope][k..]], p.selected + p.left[scope][..k], size, if k > 0 then Some(scope) else p.last)
  }

  // ----- one turn

  lemma {:induction false} ServeKeepsScope(all: seq<Request>, p: Pick, scope: string, k: nat, size: nat, s: string)
    requires scope in p.left && k <= |p.left[scope]| && s in p.left && Of(p.selected, s) + p.left[s] == Of(all, s)
    requires forall i | 0 <= i < k :: p.left[scope][i].scope == scope
    ensures Of(Served(p, scope, k, size).selected, s) + Served(p, scope, k, size).left[s] == Of(all, s)
  {
    var given := p.left[scope][..k];
    OfConcat(p.selected, given, s);
    if s == scope {
      OfSame(given, scope);
      MoveOver(Of(p.selected, s), p.left[s], k);
    } else {
      OfOther(given, scope, s);
    }
  }

  lemma {:induction false} MoveOver<T>(a: seq<T>, q: seq<T>, k: nat)
    requires k <= |q|
    ensures a + q == (a + q[..k]) + q[k..]
  {
    assert q == q[..k] + q[k..];
  }

  lemma {:induction false} LeftHasScope(all: seq<Request>, p: Pick, scope: string)
    requires Splits(all, p) && scope in p.left
    ensures forall x | x in p.left[scope] :: x.scope == scope && x in all
  {
    OfMembers(all, scope);
    assert forall x | x in p.left[scope] :: x in Of(p.selected, scope) + p.left[scope];
  }

  lemma {:induction false} ServeKeepsSplit(all: seq<Request>, p: Pick, scope: string, k: nat, size: nat)
    requires Splits(all, p) && scope in p.left && k <= |p.left[scope]| && size == p.size + Total(p.left[scope][..k])
    ensures Splits(all, Served(p, scope, k, size))
    ensures Served(p, scope, k, size).left.Keys == p.left.Keys
  {
    var given := p.left[scope][..k];
    LeftHasScope(all, p, scope);
    TotalConcat(p.selected, given);
    forall i | 0 <= i < k ensures p.left[scope][i].scope == scope {
      assert p.left[scope][i] in p.left[scope];
    }
    forall s | s in p.left ensures Of(Served(p, scope, k, size).selected, s) + Served(p, scope, k, size).left[s] == Of(all, s) {
      ServeKeepsScope(all, p, scope, k, size, s);
    }
  }

  lemma {:induction false} ServeFits(p: Pick, scope: string, k: nat, size: nat, max: nat)
    requires scope in p.left && GoodTurn(p.left[scope], p.selected != [], p.size, k, size, max)
    ensures Fits(Served(p, scope, k, size), max)
  {
  }

  lemma {:induction false} VainTurn(p: Pick, scope: string, size: nat, max: nat)
    requires scope in p.left && GoodTurn(p.left[scope], p.selected != [], p.size, 0, size, max)
    requires p.size < max && p.left[scope][0].weight > 0
    ensures Stuck(Served(p, scope, 0, size), scope, max)
  {
    assert p.left[scope][..0] == [] && p.left[scope][0..] == p.left[scope];
  }

  lemma {:induction false} StuckLasts(p: Pick, scope: string, k: nat, size: nat, max: nat, s: string)
    requires scope in p.left && k <= |p.left[scope]| && p.size <= size && Stuck(p, s, max) && s != scope
    ensures Stuck(Served(p, scope, k, size), s, max)
  {
  }

  /** A stuck scope takes its turn in vain. */
  lemma {:induction false} StuckTurn(p: Pick, scope: string, k: nat, size: nat, max: nat)
    requires Stuck(p, scope, max) && GoodTurn(p.left[scope], p.selected != [], p.size, k, size, max)
    ensures k == 0
  {
    if k > 0 {
      TotalOfSome(p.left[scope], k);
    }
  }

  lemma {:induction false} TotalOfSome(q: seq<Request>, k: nat)
    requires 0 < k <= |q|
    ensures Total(q[..k]) >= q[0].size
  {
    if k == 1 {
      assert q[..1] == [q[0]] && q[..1][..0] == [];
    } else {
      TotalOfSome(q, k - 1);
      assert q[..k][..k - 1] == q[..k - 1];
    }
  }

  lemma {:induction false} SomeSize(all: seq<Request>, q: seq<Request>, k: nat)
    requires k <= |q| && forall x | x in q :: x in all
    ensures Sized(all) && Total(q[..k]) == 0 ==> k == 0
    ensures k < |q| && Unit(all) ==> q[k].size == 1
  {
    if k > 0 {
      assert q[..k][k - 1] == q[k - 1] && q[k - 1] in q;
    }
    if k < |q| {
      assert q[k] in q;
    }
  }
}
