/** Successive batches of the inference scheduler: the scopes take turns from one batch to the next. */
module FairRotation {
  import opened Options
  import opened Sums
  import opened FairScopes
  import opened FairTurns
  import opened FairBatch

  /** The scopes of the requests, listed by first appearance. */
  ghost predicate ListsScopes(all: seq<Request>, order: seq<string>) {
    && (forall x | x in all :: x.scope in order)
    && (forall p | 0 <= p < |order| :: Appears(all, order[p]))
    && forall i: nat, j: nat, p: nat, q: nat |
         IsFirst(all, i) && IsFirst(all, j) && p < |order| && q < |order| && all[i].scope == order[p] && all[j].scope == order[q] ::
         i < j <==> p < q
  }

  ghost predicate Appears(all: seq<Request>, s: string) {
    exists i: nat :: IsFirst(all, i) && all[i].scope == s
  }

  /** Batches taken one after the other, each of one scope; `alls` are the candidates of each take. */
  ghost predicate Takes(order: seq<string>, alls: seq<seq<Request>>, last: Option<string>, batches: seq<seq<Request>>) {
    && |alls| == |batches|
    && forall t: nat {:trigger TakesAt(order, alls, last, batches, t)} | t < |alls| :: TakesAt(order, alls, last, batches, t)
  }

  ghost predicate TakesAt(order: seq<string>, alls: seq<seq<Request>>, last: Option<string>, batches: seq<seq<Request>>, t: nat)
    requires t < |alls| == |batches|
  {
    && ListsScopes(alls[t], order) && OfOneScope(alls[t], batches[t])
    && ServedInTurn(alls[t], if t == 0 then last else LastScope(batches[t - 1]), batches[t])
  }

  ghost predicate OfOneScope(all: seq<Request>, batch: seq<Request>) {
    (exists x :: x in all && batch != [] && x.scope == batch[0].scope) && forall x | x in batch :: x.scope == batch[0].scope
  }

  function LastScope(batch: seq<Request>): Option<string> {
    if batch == [] then None else Some(batch[|batch| - 1].scope)
  }

  lemma {:induction false} TotalCounts(batch: seq<Request>)
    requires Sized(batch)
    ensures Total(batch) >= |batch|
  {
    if batch != [] {
      assert batch[|batch| - 1] in batch;
      TotalCounts(batch[..|batch| - 1]);
    }
  }

  /** With a limit of one and positive sizes the scheduler takes a single request. */
  lemma {:induction false} LimitOfOne(queue: seq<Request>, seed: Request, last: Option<string>, batch: seq<Request>, rest: seq<Request>)
    requires FairTake(queue, seed, 1, last, batch, rest) && Sized(batch)
    ensures |batch| == 1 && OfOneScope(Candidates(queue, seed), batch) && ServedInTurn(Candidates(queue, seed), last, batch)
  {
    TotalCounts(batch);
    assert batch[0] in batch && batch[0] in Candidates(queue, seed);
  }

  function Follower(p: nat, n: nat): nat {
    if p + 1 < n then p + 1 else 0
  }

  /** The scope served next is the one that follows cyclically. */
  lemma {:induction false} NextScope(order: seq<string>, all: seq<Request>, p: nat, last: Option<string>, batch: seq<Request>)
    requires ListsScopes(all, order) && p < |order| && last == Some(order[p]) && OfOneScope(all, batch) && ServedInTurn(all, last, batch)
    ensures batch[0].scope == order[Follower(p, |order|)]
  {
    var q := Follower(p, |order|);
    var i: nat :| IsFirst(all, i) && all[i].scope == order[q];
    assert all[i] in all;
    if all[i].scope != batch[0].scope {
      assert GoesBefore(all, last, batch[0].scope, all[i].scope);
      NoneBeforeFollower(order, all, p, i, batch[0].scope);
    }
  }

  /** No scope goes before the follower of the one served last. */
  lemma {:induction false} NoneBeforeFollower(order: seq<string>, all: seq<Request>, p: nat, i: nat, x: string)
    requires ListsScopes(all, order) && p < |order| && IsFirst(all, i) && all[i].scope == order[Follower(p, |order|)]
    ensures !GoesBefore(all, Some(order[p]), x, all[i].scope)
  {
    var last := Some(order[p]);
    AfterPlace(order, all, p, Follower(p, |order|), i);
    forall a: nat | IsFirst(all, a) ensures !TurnsBefore(all, last, a, i) {
      assert all[a] in all;
      var r: nat :| r < |order| && order[r] == all[a].scope;
      AfterPlace(order, all, p, r, a);
    }
    forall a: nat, b: nat | IsFirst(all, a) && IsFirst(all, b) && all[b].scope == all[i].scope ensures !TurnsBefore(all, last, a, b) {
      FirstIsUnique(all, i, b);
    }
  }

  lemma {:induction false} AfterPlace(order: seq<string>, all: seq<Request>, p: nat, q: nat, i: nat)
    requires ListsScopes(all, order) && p < |order| && q < |order| && IsFirst(all, i) && all[i].scope == order[q]
    ensures AfterLast(all, Some(order[p]), i) <==> p < q
  {
    var l: nat :| IsFirst(all, l) && all[l].scope == order[p];
    assert l < i <==> p < q;
    if AfterLast(all, Some(order[p]), i) {
      var m: nat :| m < i && IsFirst(all, m) && Some(order[p]) == Some(all[m].scope);
      FirstIsUnique(all, l, m);
    }
  }

  lemma {:induction false} StartPlace(order: seq<string>, all: seq<Request>, batch: seq<Request>) returns (p: nat)
    requires ListsScopes(all, order) && OfOneScope(all, batch)
    ensures p < |order| && batch[0].scope == order[p]
  {
    var x :| x in all && x.scope == batch[0].scope;
    p :| 0 <= p < |order| && order[p] == x.scope;
  }

  /** With the same scopes backlogged in the same order, the scopes are served cyclically. */
  lemma {:induction false} ServedCyclically(order: seq<string>, alls: seq<seq<Request>>, last: Option<string>, batches: seq<seq<Request>>, t: nat, m: nat, p: nat, q: nat)
    requires Takes(order, alls, last, batches) && t + m < |batches| && m < |order|
    requires p < |order| && batches[t] != [] && batches[t][0].scope == order[p] && q == Turned(p, m, |order|)
    ensures batches[t + m] != [] && batches[t + m][0].scope == order[q]
  {
    if m > 0 {
      var before := Turned(p, m - 1, |order|);
      ServedCyclically(order, alls, last, batches, t, m - 1, p, before);
      ServedNext(order, alls, last, batches, t + m - 1, before);
    }
  }

  lemma {:induction false} ServedNext(order: seq<string>, alls: seq<seq<Request>>, last: Option<string>, batches: seq<seq<Request>>, t: nat, q: nat)
    requires Takes(order, alls, last, batches) && t + 1 < |batches| && q < |order| && batches[t] != [] && batches[t][0].scope == order[q]
    ensures batches[t + 1] != [] && batches[t + 1][0].scope == order[Follower(q, |order|)]
  {
    LastIsFirst(order, alls, last, batches, t);
    NextTake(order, alls, last, batches, t);
    NextScope(order, alls[t + 1], q, Some(order[q]), batches[t + 1]);
  }

  /** A batch of one scope leaves that scope behind as the last one. */
  lemma {:induction false} LastIsFirst(order: seq<string>, alls: seq<seq<Request>>, last: Option<string>, batches: seq<seq<Request>>, t: nat)
    requires Takes(order, alls, last, batches) && t < |batches|
    ensures batches[t] != [] && LastScope(batches[t]) == Some(batches[t][0].scope)
  {
    assert TakesAt(order, alls, last, batches, t);
    var batch := batches[t];
    assert batch[|batch| - 1] in batch;
  }

  lemma {:induction false} NextTake(order: seq<string>, alls: seq<seq<Request>>, last: Option<string>, batches: seq<seq<Request>>, t: nat)
    requires Takes(order, alls, last, batches) && t + 1 < |batches|
    ensures |alls| == |batches| && ListsScopes(alls[t + 1], order) && OfOneScope(alls[t + 1], batches[t + 1])
    ensures ServedInTurn(alls[t + 1], LastScope(batches[t]), batches[t + 1])
  {
    assert TakesAt(order, alls, last, batches, t + 1);
  }

  /** The place m steps further. */
  function Turned(p: nat, m: nat, n: nat): nat
    requires p < n && m < n
  {
    if p + m < n then p + m else p + m - n
  }

  /** No scope is served twice before every scope is served once. */
  lemma {:induction false} EachOnce(order: seq<string>, alls: seq<seq<Request>>, last: Option<string>, batches: seq<seq<Request>>, t: nat)
    requires Takes(order, alls, last, batches) && t + |order| <= |batches|
    ensures forall u: nat, v: nat | t <= u < v < t + |order| :: batches[u] != [] && batches[v] != [] && batches[u][0].scope != batches[v][0].scope
    ensures forall s | s in order :: exists u: nat :: t <= u < t + |order| && batches[u] != [] && batches[u][0].scope == s
  {
    if order != [] {
      assert TakesAt(order, alls, last, batches, t);
      var p := StartPlace(order, alls[t], batches[t]);
      ListedOnce(order, alls[t]);
      forall u: nat, v: nat | t <= u < v < t + |order|
        ensures batches[u] != [] && batches[v] != [] && batches[u][0].scope != batches[v][0].scope
      {
        ServedApart(order, alls, last, batches, t, u, v, p);
      }
      forall s | s in order ensures exists u: nat :: t <= u < t + |order| && batches[u] != [] && batches[u][0].scope == s {
        var u := ServedOnce(order, alls, last, batches, t, p, s);
      }
    }
  }

  lemma {:induction false} ServedApart(order: seq<string>, alls: seq<seq<Request>>, last: Option<string>, batches: seq<seq<Request>>, t: nat, u: nat, v: nat, p: nat)
    requires Takes(order, alls, last, batches) && Distinct(order) && t <= u < v < t + |order| <= |batches|
    requires p < |order| && batches[t] != [] && batches[t][0].scope == order[p]
    ensures batches[u] != [] && batches[v] != [] && batches[u][0].scope != batches[v][0].scope
  {
    var a, b := Turned(p, u - t, |order|), Turned(p, v - t, |order|);
    ServedCyclically(order, alls, last, batches, t, u - t, p, a);
    ServedCyclically(order, alls, last, batches, t, v - t, p, b);
  }

  lemma {:induction false} ServedOnce(order: seq<string>, alls: seq<seq<Request>>, last: Option<string>, batches: seq<seq<Request>>, t: nat, p: nat, s: string)
    returns (u: nat)
    requires Takes(order, alls, last, batches) && t + |order| <= |batches| && s in order
    requires p < |order| && batches[t] != [] && batches[t][0].scope == order[p]
    ensures t <= u < t + |order| && batches[u] != [] && batches[u][0].scope == s
  {
    var q: nat :| q < |order| && order[q] == s;
    var m := if p <= q then q - p else q + |order| - p;
    ServedCyclically(order, alls, last, batches, t, m, p, q);
    u := t + m;
  }

  lemma {:induction false} ListedOnce(order: seq<string>, all: seq<Request>)
    requires ListsScopes(all, order)
    ensures Distinct(order)
  {
    forall p: nat, q: nat | p < q < |order| ensures order[p] != order[q] {
      PlacesDiffer(order, all, p, q);
    }
  }

  lemma {:induction false} PlacesDiffer(order: seq<string>, all: seq<Request>, p: nat, q: nat)
    requires ListsScopes(all, order) && p < |order| && q < |order| && p != q
    ensures order[p] != order[q]
  {
    assert Appears(all, order[p]);
    var i: nat :| IsFirst(all, i) && all[i].scope == order[p];
    assert order[p] == order[q] ==> (i < i <==> p < q) && (i < i <==> q < p);
  }
}
