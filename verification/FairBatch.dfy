/** Selection of the next batch of the inference scheduler: weighted round robin over the
    scopes that have requests of the seed's priority and group. */
module FairBatch {
  import opened Options
  import opened Sums
  import opened FairScopes
  import opened FairTurns
  import opened FairRuns

  // ----- the selection

  /** What one round did to a scope: it gave at most its weight, and with unit sizes it gave
      all of that unless it ran out or the batch filled up. */
  ghost predicate Shared(p: Pick, p': Pick, unit: bool, max: nat, s: string) {
    && s in p.left && s in p'.left
    && |p'.left[s]| <= |p.left[s]| && p'.left[s] == p.left[s][|p.left[s]| - |p'.left[s]|..]
    && (p.left[s] != [] ==> |p.left[s]| - |p'.left[s]| <= p.left[s][0].weight)
    && (unit && p'.size < max && p'.left[s] != [] ==> |p.left[s]| - |p'.left[s]| == p.left[s][0].weight)
  }

  ghost predicate Untouched(p: Pick, p': Pick, s: string) {
    s in p.left && s in p'.left && p'.left[s] == p.left[s]
  }

  /** Once the batch is not empty it grows, or every scope that had its turn is stuck. */
  ghost predicate Grows(all: seq<Request>, scopes: seq<string>, p: Pick, p': Pick, i: nat, max: nat)
    requires i <= |scopes|
  {
    && p.size <= p'.size
    && (p'.selected == [] ==> i == 0 && p.selected == [])
    && (Sized(all) && p'.size == p.size ==> p' == p && forall j | 0 <= j < i :: Stuck(p', scopes[j], max))
  }

  /** A batch after some turns of a round, the scopes before position i having had theirs. */
  ghost predicate Turning(all: seq<Request>, scopes: seq<string>, p: Pick, p': Pick, i: nat, max: nat) {
    && i <= |scopes|
    && Splits(all, p') && Fits(p', max) && p'.left.Keys == p.left.Keys
    && Grows(all, scopes, p, p', i, max)
    && Dealt(all, scopes, p, p', i, max)
  }

  /** Scopes before position i had their share, the others are as before. */
  ghost predicate Dealt(all: seq<Request>, scopes: seq<string>, p: Pick, p': Pick, i: nat, max: nat)
    requires i <= |scopes|
  {
    && (forall j | i <= j < |scopes| :: Untouched(p, p', scopes[j]))
    && (forall s | s in p.left && s !in scopes :: Untouched(p, p', s))
    && (forall j | 0 <= j < i :: Shared(p, p', Unit(all), max, scopes[j]))
  }

  ghost predicate Ready(all: seq<Request>, scopes: seq<string>, p: Pick, max: nat) {
    && Splits(all, p) && Fits(p, max) && p.size < max && Positive(all) && Distinct(scopes)
    && forall s | s in scopes :: s in p.left && p.left[s] != []
  }

  lemma {:induction false} TurnShares(all: seq<Request>, p: Pick, p': Pick, scope: string, max: nat, k: nat, size: nat)
    requires Splits(all, p') && Untouched(p, p', scope)
    requires GoodTurn(p'.left[scope], p'.selected != [], p'.size, k, size, max)
    ensures Shared(p, Served(p', scope, k, size), Unit(all), max, scope)
  {
    var q := p.left[scope];
    LeftHasScope(all, p', scope);
    SomeSize(all, q, k);
    assert q[k..] == q[|q| - |q[k..]|..];
  }

  lemma {:induction false} SharedLasts(all: seq<Request>, p: Pick, p': Pick, scope: string, other: string, max: nat, k: nat, size: nat)
    requires scope in p'.left && k <= |p'.left[scope]| && other != scope && p'.size <= size
    requires Shared(p, p', Unit(all), max, other)
    ensures Shared(p, Served(p', scope, k, size), Unit(all), max, other)
  {
  }

  lemma {:induction false} UntouchedLasts(p: Pick, p': Pick, scope: string, other: string, k: nat, size: nat)
    requires scope in p'.left && k <= |p'.left[scope]| && other != scope && Untouched(p, p', other)
    ensures Untouched(p, Served(p', scope, k, size), other)
  {
  }

  lemma {:induction false} TurnGrows(all: seq<Request>, scopes: seq<string>, p: Pick, p': Pick, i: nat, max: nat, k: nat, size: nat)
    requires i < |scopes| && Splits(all, p') && Grows(all, scopes, p, p', i, max) && scopes[i] in p'.left && p'.size < max
    requires GoodTurn(p'.left[scopes[i]], p'.selected != [], p'.size, k, size, max)
    requires p'.left[scopes[i]][0].weight > 0
    ensures Grows(all, scopes, p, Served(p', scopes[i], k, size), i + 1, max)
  {
    var q, p'' := p'.left[scopes[i]], Served(p', scopes[i], k, size);
    LeftHasScope(all, p', scopes[i]);
    SomeSize(all, q, k);
    if Sized(all) && p''.size == p.size {
      assert k == 0 && q[0..] == q && q[..0] == [];
      assert p''.left == p'.left && p''.selected == p'.selected;
    }
  }

  lemma {:induction false} DealStep(all: seq<Request>, scopes: seq<string>, p: Pick, p': Pick, i: nat, max: nat, k: nat, size: nat)
    requires i < |scopes| && Distinct(scopes) && Dealt(all, scopes, p, p', i, max) && p'.size <= size
    requires scopes[i] in p'.left && k <= |p'.left[scopes[i]]|
    requires Shared(p, Served(p', scopes[i], k, size), Unit(all), max, scopes[i])
    ensures Dealt(all, scopes, p, Served(p', scopes[i], k, size), i + 1, max)
  {
    var scope := scopes[i];
    var p'' := Served(p', scope, k, size);
    forall j | 0 <= j < i ensures Shared(p, p'', Unit(all), max, scopes[j]) {
      SharedLasts(all, p, p', scope, scopes[j], max, k, size);
    }
    forall j | i + 1 <= j < |scopes| ensures Untouched(p, p'', scopes[j]) {
      UntouchedLasts(p, p', scope, scopes[j], k, size);
    }
    forall s | s in p.left && s !in scopes ensures Untouched(p, p'', s) {
      UntouchedLasts(p, p', scope, s, k, size);
    }
  }

  lemma {:induction false} TurnStep(all: seq<Request>, scopes: seq<string>, p: Pick, p': Pick, i: nat, max: nat, k: nat, size: nat)
    requires Distinct(scopes) && Turning(all, scopes, p, p', i, max) && i < |scopes| && p'.size < max
    requires Untouched(p, p', scopes[i]) && GoodTurn(p'.left[scopes[i]], p'.selected != [], p'.size, k, size, max)
    requires p'.left[scopes[i]][0].weight > 0
    ensures Turning(all, scopes, p, Served(p', scopes[i], k, size), i + 1, max)
  {
    ServeKeepsSplit(all, p', scopes[i], k, size);
    ServeFits(p', scopes[i], k, size, max);
    TurnGrows(all, scopes, p, p', i, max, k, size);
    TurnShares(all, p, p', scopes[i], max, k, size);
    DealStep(all, scopes, p, p', i, max, k, size);
  }

  /** The scopes that had their turn and still have requests. */
  ghost predicate Remains(scopes: seq<string>, i: nat, p: Pick, remaining: seq<string>)
    requires i <= |scopes|
  {
    && Distinct(remaining)
    && (forall s | s in remaining :: s in scopes[..i] && s in p.left && p.left[s] != [])
    && (forall s | s in scopes[..i] && s in p.left && p.left[s] != [] :: s in remaining)
  }

  lemma {:induction false} RemainsStep(scopes: seq<string>, i: nat, p: Pick, remaining: seq<string>, k: nat, size: nat)
    requires i < |scopes| && Distinct(scopes) && Remains(scopes, i, p, remaining)
    requires scopes[i] in p.left && k <= |p.left[scopes[i]]|
    ensures var p' := Served(p, scopes[i], k, size);
            Remains(scopes, i + 1, p', if p'.left[scopes[i]] != [] then remaining + [scopes[i]] else remaining)
  {
    var scope := scopes[i];
    assert scopes[..i + 1] == scopes[..i] + [scope];
    forall s | s in scopes[..i] ensures s != scope {
      var j :| 0 <= j < i && scopes[..i][j] == s;
      assert scopes[j] == s;
    }
  }

  /** One round: every scope takes its turn until the batch is full. */
  method Round(all: seq<Request>, ghost order: seq<string>, ghost start: Pick, scopes: seq<string>, p: Pick, max: nat)
    returns (p': Pick, remaining: seq<string>, ghost done: nat)
    requires Ready(all, scopes, p, max) && OnTheWay(order, start, scopes, p, 0, max)
    ensures Turning(all, scopes, p, p', done, max) && (p'.size < max ==> done == |scopes|)
    ensures Distinct(remaining) && forall s | s in remaining :: s in scopes && p'.left[s] != []
    ensures p'.size < max ==> forall s | s in scopes && p'.left[s] != [] :: s in remaining
    ensures scopes != [] ==> p'.selected != []
    ensures Entering(scopes, p, p', done, max)
    ensures OnTheWay(order, start, scopes, p', done, max) && Listed(order, remaining)
  {
    p', remaining := p, [];
    done := 0;
    var i := 0;
    BeginRound(all, scopes, p, max);
    while i < |scopes| && p'.size < max
      invariant done == i && Turning(all, scopes, p, p', i, max) && Remains(scopes, i, p', remaining)
      invariant Entering(scopes, p, p', i, max)
      invariant OnTheWay(order, start, scopes, p', i, max) && Listed(order, remaining)
    {
      p', remaining := OneTurn(all, order, start, scopes, p, p', i, max, remaining);
      i := i + 1;
      done := i;
    }
    EndRound(scopes, i, p', remaining);
  }

  lemma {:induction false} BeginRound(all: seq<Request>, scopes: seq<string>, p: Pick, max: nat)
    requires Ready(all, scopes, p, max)
    ensures Turning(all, scopes, p, p, 0, max) && Remains(scopes, 0, p, []) && Entering(scopes, p, p, 0, max)
  {
  }

  lemma {:induction false} EndRound(scopes: seq<string>, i: nat, p: Pick, remaining: seq<string>)
    requires i <= |scopes| && Remains(scopes, i, p, remaining) && forall s | s in scopes :: s in p.left
    ensures forall s | s in remaining :: s in scopes && p.left[s] != []
    ensures i == |scopes| ==> forall s | s in scopes && p.left[s] != [] :: s in remaining
  {
    assert i == |scopes| ==> scopes[..i] == scopes;
  }

  /** The scope at position i takes its turn. */
  method OneTurn(ghost all: seq<Request>, ghost order: seq<string>, ghost start: Pick, scopes: seq<string>, ghost p: Pick, p': Pick, i: nat, max: nat,
                 remaining: seq<string>) returns (p'': Pick, remaining': seq<string>)
    requires Ready(all, scopes, p, max) && Turning(all, scopes, p, p', i, max) && i < |scopes| && p'.size < max
    requires Remains(scopes, i, p', remaining) && Entering(scopes, p, p', i, max)
    requires OnTheWay(order, start, scopes, p', i, max) && Listed(order, remaining)
    ensures Turning(all, scopes, p, p'', i + 1, max) && Remains(scopes, i + 1, p'', remaining') && Entering(scopes, p, p'', i + 1, max)
    ensures OnTheWay(order, start, scopes, p'', i + 1, max) && Listed(order, remaining')
  {
    var k, size := NextTurn(all, scopes, p, p', i, max);
    TurnStep(all, scopes, p, p', i, max, k, size);
    EnterStep(all, scopes, p, p', i, k, size, max);
    TurnOnTheWay(order, start, scopes, p', i, k, size, max);
    RemainsStep(scopes, i, p', remaining, k, size);
    ListedMore(order, scopes, p', i, remaining);
    p'' := Served(p', scopes[i], k, size);
    remaining' := if p''.left[scopes[i]] != [] then remaining + [scopes[i]] else remaining;
  }

  lemma {:induction false} ListedMore(order: seq<string>, scopes: seq<string>, p: Pick, i: nat, remaining: seq<string>)
    requires Listed(order, scopes) && Listed(order, remaining) && i < |scopes| && Remains(scopes, i, p, remaining)
    ensures Listed(order, remaining + [scopes[i]])
  {
    var more := remaining + [scopes[i]];
    forall a | 0 <= a < |remaining| ensures more[a] in order && IndexOf(order, more[a]) < IndexOf(order, scopes[i]) {
      assert remaining[a] in remaining;
      var j :| 0 <= j < i && scopes[j] == remaining[a];
    }
  }

  method NextTurn(ghost all: seq<Request>, scopes: seq<string>, ghost p: Pick, p': Pick, i: nat, max: nat) returns (k: nat, size: nat)
    requires Ready(all, scopes, p, max) && Turning(all, scopes, p, p', i, max) && i < |scopes| && p'.size < max
    ensures Untouched(p, p', scopes[i]) && GoodTurn(p'.left[scopes[i]], p'.selected != [], p'.size, k, size, max)
    ensures p'.left[scopes[i]][0].weight > 0
  {
    var scope := scopes[i];
    assert scope in scopes && Untouched(p, p', scope);
    LeftHasScope(all, p', scope);
    assert p'.left[scope][0] in p'.left[scope];
    k, size := TakeTurn(p'.left[scope], p'.selected != [], p'.size, max);
  }

  // ----- the order of service

  /** A first round: scopes enter the batch in order, the first one for certain, and a scope that
      had its turn in vain does not fit any more. */
  ghost predicate FirstRound(scopes: seq<string>, p: Pick, i: nat, max: nat) {
    Entered(scopes, p, i) && PassedBy(scopes, p, i, max)
  }

  ghost predicate Entered(scopes: seq<string>, p: Pick, i: nat) {
    && i <= |scopes| && (i == 0 <==> p.selected == []) && InPrefix(scopes, Scopes(p.selected), i)
    && (i > 0 ==> p.selected[0].scope == scopes[0])
  }

  /** Scopes before position i, in order. */
  ghost predicate InPrefix(scopes: seq<string>, xs: seq<string>, i: nat) {
    i <= |scopes| && (forall x | x in xs :: x in scopes[..i]) && InOrder(scopes, xs)
  }

  ghost predicate PassedBy(scopes: seq<string>, p: Pick, i: nat, max: nat) {
    i <= |scopes| && forall j | 0 <= j < i :: Closes(p, scopes[j], max)
  }

  /** The scope is in the batch or cannot enter it. */
  ghost predicate Closes(p: Pick, s: string, max: nat) {
    s in Scopes(p.selected) || Stuck(p, s, max)
  }

  /** No scope that is not in the batch yet can enter it. */
  ghost predicate Barred(p: Pick, max: nat) {
    p.selected != [] && forall s | s in p.left :: Closes(p, s, max)
  }

  /** A later round brings no new scope. */
  ghost predicate LaterRound(p: Pick, p': Pick, max: nat) {
    Barred(p', max) && Scopes(p'.selected) == Scopes(p.selected) && p'.selected[0] == p.selected[0]
  }

  ghost predicate Entering(scopes: seq<string>, p: Pick, p': Pick, i: nat, max: nat) {
    && (p.selected == [] ==> FirstRound(scopes, p', i, max))
    && (Barred(p, max) ==> LaterRound(p, p', max))
  }

  /** The scopes of the batch after a turn. */
  lemma {:induction false} TurnScopes(p: Pick, scope: string, k: nat, size: nat)
    requires scope in p.left && k <= |p.left[scope]| && forall x | x in p.left[scope] :: x.scope == scope
    ensures Scopes(Served(p, scope, k, size).selected)
            == if k == 0 || scope in Scopes(p.selected) then Scopes(p.selected) else Scopes(p.selected) + [scope]
  {
    var q := p.left[scope];
    forall i | 0 <= i < k ensures q[..k][i].scope == scope {
      assert q[i] in q;
    }
    ScopesOfMore(p.selected, q[..k], scope);
  }

  /** The head of the batch after a turn. */
  lemma {:induction false} TurnHead(p: Pick, scope: string, k: nat, size: nat, max: nat)
    requires scope in p.left && GoodTurn(p.left[scope], p.selected != [], p.size, k, size, max)
    requires forall x | x in p.left[scope] :: x.scope == scope
    ensures var p' := Served(p, scope, k, size);
      p'.selected != [] && if p.selected != [] then p'.selected[0] == p.selected[0] else k > 0 && p'.selected[0].scope == scope
  {
    if p.selected == [] {
      assert p.left[scope][0] in p.left[scope];
    }
  }

  /** What is closed stays closed after any turn, and the scope that had it is closed. */
  lemma {:induction false} ClosedLasts(p: Pick, scope: string, k: nat, size: nat, max: nat, s: string)
    requires scope in p.left && GoodTurn(p.left[scope], p.selected != [], p.size, k, size, max)
    requires forall x | x in p.left[scope] :: x.scope == scope
    requires p.size < max && p.left[scope][0].weight > 0 && (s == scope || Closes(p, s, max))
    ensures Closes(Served(p, scope, k, size), s, max)
  {
    TurnScopes(p, scope, k, size);
    if k == 0 && s == scope {
      VainTurn(p, scope, size, max);
    } else if s != scope && s !in Scopes(p.selected) {
      StuckLasts(p, scope, k, size, max, s);
    }
  }

  lemma {:induction false} EnterFirst(scopes: seq<string>, p: Pick, i: nat, k: nat, size: nat, max: nat)
    requires Entered(scopes, p, i) && i < |scopes| && scopes[i] in p.left
    requires GoodTurn(p.left[scopes[i]], p.selected != [], p.size, k, size, max)
    requires forall x | x in p.left[scopes[i]] :: x.scope == scopes[i]
    ensures Entered(scopes, Served(p, scopes[i], k, size), i + 1)
  {
    var xs := Scopes(p.selected);
    TurnScopes(p, scopes[i], k, size);
    TurnHead(p, scopes[i], k, size, max);
    PrefixMore(scopes, xs, i);
  }

  lemma {:induction false} PrefixMore(scopes: seq<string>, xs: seq<string>, i: nat)
    requires i < |scopes| && InPrefix(scopes, xs, i)
    ensures InPrefix(scopes, xs, i + 1) && InPrefix(scopes, xs + [scopes[i]], i + 1)
  {
    assert scopes[..i + 1] == scopes[..i] + [scopes[i]];
    OrderMore(scopes, xs, i);
  }

  lemma {:induction false} PassedByMore(scopes: seq<string>, p: Pick, i: nat, k: nat, size: nat, max: nat)
    requires PassedBy(scopes, p, i, max) && i < |scopes| && scopes[i] in p.left
    requires GoodTurn(p.left[scopes[i]], p.selected != [], p.size, k, size, max)
    requires forall x | x in p.left[scopes[i]] :: x.scope == scopes[i]
    requires p.size < max && p.left[scopes[i]][0].weight > 0
    ensures PassedBy(scopes, Served(p, scopes[i], k, size), i + 1, max)
  {
    forall j | 0 <= j < i + 1 ensures Closes(Served(p, scopes[i], k, size), scopes[j], max) {
      ClosedLasts(p, scopes[i], k, size, max, scopes[j]);
    }
  }

  lemma {:induction false} OrderMore(scopes: seq<string>, xs: seq<string>, i: nat)
    requires i < |scopes| && InOrder(scopes, xs) && forall x | x in xs :: x in scopes[..i]
    ensures InOrder(scopes, xs + [scopes[i]])
  {
    var more := xs + [scopes[i]];
    forall a, b | 0 <= a < b < |more| ensures ComesFirst(scopes, more[a], more[b]) {
      if b < |xs| {
        assert ComesFirst(scopes, xs[a], xs[b]);
      } else {
        assert xs[a] in xs;
        var p :| 0 <= p < i && scopes[p] == xs[a];
        assert scopes[p] == more[a] && scopes[i] == more[b];
      }
    }
  }

  lemma {:induction false} EnterLater(start: Pick, p: Pick, scope: string, k: nat, size: nat, max: nat)
    requires LaterRound(start, p, max) && scope in p.left
    requires GoodTurn(p.left[scope], p.selected != [], p.size, k, size, max)
    requires forall x | x in p.left[scope] :: x.scope == scope
    requires p.size < max && p.left[scope][0].weight > 0
    ensures LaterRound(start, Served(p, scope, k, size), max)
  {
    TurnScopes(p, scope, k, size);
    TurnHead(p, scope, k, size, max);
    assert Closes(p, scope, max);
    if scope !in Scopes(p.selected) {
      StuckTurn(p, scope, k, size, max);
    }
    forall s | s in Served(p, scope, k, size).left ensures Closes(Served(p, scope, k, size), s, max) {
      ClosedLasts(p, scope, k, size, max, s);
    }
  }

  lemma {:induction false} EnterStep(all: seq<Request>, scopes: seq<string>, p: Pick, p': Pick, i: nat, k: nat, size: nat, max: nat)
    requires Entering(scopes, p, p', i, max) && i < |scopes| && Splits(all, p') && scopes[i] in p'.left
    requires GoodTurn(p'.left[scopes[i]], p'.selected != [], p'.size, k, size, max) && p'.size < max && p'.left[scopes[i]][0].weight > 0
    ensures Entering(scopes, p, Served(p', scopes[i], k, size), i + 1, max)
  {
    LeftHasScope(all, p', scopes[i]);
    if p.selected == [] {
      EnterFirst(scopes, p', i, k, size, max);
      PassedByMore(scopes, p', i, k, size, max);
    }
    if Barred(p, max) {
      EnterLater(p, p', scopes[i], k, size, max);
    }
  }

  /** A completed first round leaves no scope out that could still enter. */
  lemma {:induction false} FirstRoundBars(scopes: seq<string>, p: Pick, max: nat)
    requires FirstRound(scopes, p, |scopes|, max) && scopes != []
    requires forall s | s in p.left && p.left[s] != [] :: s in scopes
    ensures Barred(p, max)
  {
    forall s | s in p.left ensures Closes(p, s, max) {
      if s in scopes {
        var j :| 0 <= j < |scopes| && scopes[j] == s;
      }
    }
  }

  /** The selection as a whole: the scopes enter the batch in the order they had at the start, and
      no turn was skipped. */
  ghost predicate Serving(order: seq<string>, start: Pick, scopes: seq<string>, p: Pick, max: nat) {
    && (if p.selected == [] then scopes == order else InTurn(order, p.selected) && (p.size < max ==> Barred(p, max)))
    && RunTo(order, start, p, max) && (p.size < max ==> OnTheWay(order, start, scopes, p, 0, max))
  }

  lemma {:induction false} ServingOn(all: seq<Request>, order: seq<string>, start: Pick, scopes: seq<string>, p: Pick, p': Pick, done: nat, max: nat,
                                     remaining: seq<string>)
    requires Serving(order, start, scopes, p, max) && scopes != [] && p.size < max && p'.selected != []
    requires Entering(scopes, p, p', done, max) && (p'.size < max ==> done == |scopes|)
    requires p'.left.Keys == p.left.Keys && Complete(scopes, p) && done <= |scopes| && Dealt(all, scopes, p, p', done, max)
    requires OnTheWay(order, start, scopes, p', done, max) && Listed(order, remaining)
    requires p'.size < max ==> forall s | s in scopes && s !in remaining :: s in p'.left && p'.left[s] == []
    ensures Serving(order, start, remaining, p', max)
  {
    if p'.size < max {
      RoundOnTheWay(order, start, scopes, p', remaining, max);
      if p.selected == [] {
        FirstRoundBars(scopes, p', max);
      }
    }
  }

  // ----- fairness and the end of the selection

  /** How many requests a scope has given. */
  ghost function Given(all: seq<Request>, p: Pick, s: string): int
    requires s in p.left
  {
    |Of(all, s)| - |p.left[s]|
  }

  ghost function Weight(all: seq<Request>, s: string): nat {
    if Of(all, s) == [] then 1 else Of(all, s)[0].weight
  }

  /** Unit sizes, and one weight per scope. */
  ghost predicate Regular(all: seq<Request>) {
    Unit(all) && forall x, y | x in all && y in all && x.scope == y.scope :: x.weight == y.weight
  }

  lemma {:induction false} HeadWeight(all: seq<Request>, p: Pick, s: string)
    requires Splits(all, p) && Regular(all) && s in p.left && p.left[s] != []
    ensures p.left[s][0].weight == Weight(all, s)
  {
    LeftHasScope(all, p, s);
    OfMembers(all, s);
    assert p.left[s][0] in p.left[s];
    assert Of(all, s) != [] by {
      assert Of(p.selected, s) + p.left[s] == Of(all, s);
    }
    assert Of(all, s)[0] in Of(all, s);
  }

  /** After r full rounds a scope has given r times its weight. */
  ghost predicate Even(all: seq<Request>, scopes: seq<string>, p: Pick, r: nat) {
    forall s | s in scopes :: s in p.left && Given(all, p, s) == r * Weight(all, s)
  }

  /** A backlogged scope has given between r and r + 1 times its weight. */
  ghost predicate FairShare(all: seq<Request>, p: Pick, r: nat) {
    forall s | s in p.left && p.left[s] != [] ::
      r * Weight(all, s) <= Given(all, p, s) <= r * Weight(all, s) + Weight(all, s)
  }

  ghost predicate Complete(scopes: seq<string>, p: Pick) {
    forall s | s in p.left && p.left[s] != [] :: s in scopes
  }

  lemma {:induction false} RoundScope(all: seq<Request>, scopes: seq<string>, p: Pick, p': Pick, done: nat, max: nat, r: nat, j: nat)
    requires Turning(all, scopes, p, p', done, max) && Splits(all, p) && Regular(all) && Even(all, scopes, p, r) && j < |scopes|
    requires scopes[j] in p'.left && p'.left[scopes[j]] != []
    ensures r * Weight(all, scopes[j]) <= Given(all, p', scopes[j]) <= r * Weight(all, scopes[j]) + Weight(all, scopes[j])
    ensures j < done && p'.size < max ==> Given(all, p', scopes[j]) == r * Weight(all, scopes[j]) + Weight(all, scopes[j])
  {
    var s := scopes[j];
    assert s in scopes;
    if j < done {
      assert Shared(p, p', Unit(all), max, s);
      HeadWeight(all, p, s);
    } else {
      assert Untouched(p, p', s);
    }
  }

  lemma {:induction false} RoundIsFair(all: seq<Request>, scopes: seq<string>, p: Pick, p': Pick, done: nat, max: nat, r: nat)
    requires Turning(all, scopes, p, p', done, max) && Splits(all, p) && Complete(scopes, p)
    requires Regular(all) && Even(all, scopes, p, r)
    ensures FairShare(all, p', r)
  {
    forall s | s in p'.left && p'.left[s] != []
      ensures r * Weight(all, s) <= Given(all, p', s) <= r * Weight(all, s) + Weight(all, s)
    {
      assert s in p.left && (s !in scopes ==> Untouched(p, p', s));
      var j :| 0 <= j < |scopes| && scopes[j] == s;
      RoundScope(all, scopes, p, p', done, max, r, j);
    }
  }

  lemma {:induction false} RoundIsEven(all: seq<Request>, scopes: seq<string>, p: Pick, p': Pick, max: nat, r: nat, remaining: seq<string>)
    requires Turning(all, scopes, p, p', |scopes|, max) && p'.size < max && Splits(all, p)
    requires forall s | s in remaining :: s in scopes && s in p'.left && p'.left[s] != []
    requires Regular(all) && Even(all, scopes, p, r)
    ensures Even(all, remaining, p', r + 1)
  {
    forall s | s in remaining ensures Given(all, p', s) == (r + 1) * Weight(all, s) {
      var j :| 0 <= j < |scopes| && scopes[j] == s;
      RoundScope(all, scopes, p, p', |scopes|, max, r, j);
      OneMore(r, Weight(all, s));
    }
  }

  lemma {:induction false} OneMore(r: nat, w: nat)
    ensures (r + 1) * w == r * w + w
  {
  }

  /** The selection ends full, or when nothing more fits. */
  ghost predicate Closed(all: seq<Request>, p: Pick, max: nat) {
    Sized(all) ==> p.size >= max || forall s | s in p.left :: Stuck(p, s, max)
  }

  /** The whole selection among the candidates. */
  ghost predicate Selected(all: seq<Request>, p: Pick, max: nat) {
    Splits(all, p) && Fits(p, max) && Closed(all, p, max) && (all != [] ==> p.selected != [])
  }

  /** What the selection promises: it ends full or stuck, serves the scopes in turn and, for unit
      sizes, in proportion to their weights. */
  ghost predicate Chosen(all: seq<Request>, last: Option<string>, p: Pick, max: nat, rounds: nat) {
    && Selected(all, p, max) && p.left.Keys == (set x | x in all :: x.scope)
    && (all != [] ==> ServedInTurn(all, last, p.selected)) && SelectedByTurns(all, last, p, max)
    && (Regular(all) ==> FairShare(all, p, rounds))
  }

  lemma {:induction false} StopsStuck(all: seq<Request>, scopes: seq<string>, p: Pick, p': Pick, max: nat)
    requires Turning(all, scopes, p, p', |scopes|, max) && Complete(scopes, p) && p'.size == p.size
    ensures Closed(all, p', max)
  {
    if Sized(all) {
      forall s | s in p'.left ensures Stuck(p', s, max) {
        if p'.left[s] != [] {
          var j :| 0 <= j < |scopes| && scopes[j] == s;
        }
      }
    }
  }

  lemma {:induction false} EvenIsFair(all: seq<Request>, scopes: seq<string>, p: Pick, r: nat)
    requires Even(all, scopes, p, r) && Complete(scopes, p)
    ensures FairShare(all, p, r)
  {
  }

  lemma {:induction false} StartSplit(all: seq<Request>, p: Pick)
    requires p.left == (map s | s in Scopes(all) :: Of(all, s)) && p.selected == [] && p.size == 0
    ensures Splits(all, p) && p.left.Keys == (set x | x in all :: x.scope)
  {
    KeysAreScopes(all);
  }

  lemma {:induction false} StartFair(all: seq<Request>, scopes: seq<string>, p: Pick)
    requires p.left == map s | s in Scopes(all) :: Of(all, s)
    requires forall x :: x in scopes <==> x in Scopes(all)
    ensures Complete(scopes, p) && Even(all, scopes, p, 0) && FairShare(all, p, 0)
    ensures forall s | s in scopes :: s in p.left && p.left[s] != []
    ensures all != [] ==> scopes != []
  {
    forall s | s in Scopes(all) ensures Of(all, s) != [] {
      ScopeHasRequests(all, s);
    }
    KeysAreScopes(all);
  }

  method SelectBatch(all: seq<Request>, max: nat, last: Option<string>) returns (p: Pick, ghost rounds: nat)
    requires max > 0 && Positive(all)
    ensures Chosen(all, last, p, max, rounds)
  {
    var scopes := Rotated(Scopes(all), last);
    ghost var order := scopes;
    p := Pick(map s | s in Scopes(all) :: Of(all, s), [], 0, last);
    rounds := 0;
    StartSelecting(all, scopes, p, max);
    ghost var start := p;
    RotatedIsOrder(all, last);
    StartOnTheWay(order, start, max);
    while scopes != [] && p.size < max
      invariant Selecting(all, scopes, p, max, rounds) && Serving(order, start, scopes, p, max)
      decreases max - p.size
    {
      var before := p;
      var remaining; ghost var done;
      p, remaining, done := Round(all, order, start, scopes, before, max);
      rounds := RoundDone(all, last, order, start, scopes, before, p, done, max, rounds, remaining);
      if p.size == before.size {
        return;
      }
      scopes := remaining;
    }
    SelectionEnds(all, scopes, p, max, rounds);
    ChosenInTurn(all, last, order, start, p, max, rounds);
  }

  /** A round that took nothing has ended the selection; after any other one it goes on. */
  lemma {:induction false} RoundDone(all: seq<Request>, last: Option<string>, order: seq<string>, start: Pick, scopes: seq<string>, before: Pick, p: Pick,
                                     done: nat, max: nat, rounds: nat, remaining: seq<string>) returns (rounds': nat)
    requires Selecting(all, scopes, before, max, rounds) && Serving(order, start, scopes, before, max) && scopes != [] && before.size < max
    requires Turning(all, scopes, before, p, done, max) && (p.size < max ==> done == |scopes|) && p.selected != []
    requires Distinct(remaining) && forall s | s in remaining :: s in scopes && s in p.left && p.left[s] != []
    requires p.size < max ==> forall s | s in scopes && s in p.left && p.left[s] != [] :: s in remaining
    requires Entering(scopes, before, p, done, max) && OnTheWay(order, start, scopes, p, done, max) && Listed(order, remaining)
    requires IsOrder(all, last, order) && start == StartPick(all, last)
    ensures if p.size == before.size then Chosen(all, last, p, max, rounds')
            else Selecting(all, remaining, p, max, rounds') && Serving(order, start, remaining, p, max)
  {
    ServingOn(all, order, start, scopes, before, p, done, max, remaining);
    if p.size == before.size {
      rounds' := rounds;
      LastRound(all, scopes, before, p, done, max, rounds);
      ChosenInTurn(all, last, order, start, p, max, rounds);
    } else {
      rounds' := NextRound(all, scopes, before, p, done, max, rounds, remaining);
    }
  }

  lemma {:induction false} ChosenInTurn(all: seq<Request>, last: Option<string>, order: seq<string>, start: Pick, p: Pick, max: nat, rounds: nat)
    requires Selected(all, p, max) && p.left.Keys == (set x | x in all :: x.scope) && (Regular(all) ==> FairShare(all, p, rounds))
    requires IsOrder(all, last, order) && (p.selected != [] ==> InTurn(order, p.selected))
    requires start == StartPick(all, last) && RunTo(order, start, p, max)
    ensures Chosen(all, last, p, max, rounds)
  {
    if all != [] {
      ServesInTurn(all, last, order, p.selected);
    }
  }

  lemma {:induction false} RotatedIsOrder(all: seq<Request>, last: Option<string>)
    ensures IsOrder(all, last, Rotated(Scopes(all), last))
  {
    RotatedTurns(all, last);
    SameDistinct(Scopes(all), Rotated(Scopes(all), last));
    forall s | s in Scopes(all) ensures exists x :: x in all && x.scope == s {
      var i :| 0 <= i < |all| && all[i].scope == s;
      assert all[i] in all;
    }
  }

  /** What the selection keeps between two rounds. */
  ghost predicate Selecting(all: seq<Request>, scopes: seq<string>, p: Pick, max: nat, rounds: nat) {
    && Splits(all, p) && Fits(p, max) && Distinct(scopes) && p.left.Keys == (set x | x in all :: x.scope)
    && (forall s | s in scopes :: s in p.left && p.left[s] != [])
    && (p.size < max ==> Complete(scopes, p))
    && (p.selected == [] ==> p.size == 0 && (all != [] ==> scopes != []))
    && (Regular(all) ==> FairShare(all, p, rounds) && (p.size < max ==> Even(all, scopes, p, rounds)))
  }

  lemma {:induction false} StartSelecting(all: seq<Request>, scopes: seq<string>, p: Pick, max: nat)
    requires max > 0 && p.left == (map s | s in Scopes(all) :: Of(all, s)) && p.selected == [] && p.size == 0
    requires multiset(scopes) == multiset(Scopes(all)) && forall x :: x in scopes <==> x in Scopes(all)
    ensures Selecting(all, scopes, p, max, 0)
  {
    StartSplit(all, p);
    StartFair(all, scopes, p);
    SameDistinct(Scopes(all), scopes);
  }

  lemma {:induction false} SelectionEnds(all: seq<Request>, scopes: seq<string>, p: Pick, max: nat, rounds: nat)
    requires Selecting(all, scopes, p, max, rounds) && (scopes == [] || p.size >= max) && max > 0
    ensures Selected(all, p, max)
  {
  }

  /** A round that took nothing ends the selection. */
  lemma {:induction false} LastRound(all: seq<Request>, scopes: seq<string>, before: Pick, p: Pick, done: nat, max: nat, rounds: nat)
    requires Selecting(all, scopes, before, max, rounds) && scopes != [] && before.size < max && p.size == before.size
    requires Turning(all, scopes, before, p, done, max) && done == |scopes| && p.selected != []
    ensures Selected(all, p, max) && p.left.Keys == (set x | x in all :: x.scope) && (Regular(all) ==> FairShare(all, p, rounds))
  {
    if Regular(all) {
      RoundIsFair(all, scopes, before, p, done, max, rounds);
    }
    StopsStuck(all, scopes, before, p, max);
  }

  lemma {:induction false} NextRound(all: seq<Request>, scopes: seq<string>, before: Pick, p: Pick, done: nat, max: nat, rounds: nat, remaining: seq<string>)
    returns (rounds': nat)
    requires Selecting(all, scopes, before, max, rounds) && scopes != [] && before.size < max
    requires Turning(all, scopes, before, p, done, max) && (p.size < max ==> done == |scopes|) && p.selected != []
    requires Distinct(remaining) && forall s | s in remaining :: s in scopes && s in p.left && p.left[s] != []
    requires p.size < max ==> forall s | s in scopes && s in p.left && p.left[s] != [] :: s in remaining
    ensures Selecting(all, remaining, p, max, rounds')
  {
    rounds' := rounds;
    if Regular(all) {
      RoundIsFair(all, scopes, before, p, done, max, rounds);
      if p.size < max {
        RoundIsEven(all, scopes, before, p, max, rounds, remaining);
        rounds' := rounds + 1;
        EvenIsFair(all, remaining, p, rounds');
      }
    }
  }

  /** Any two backlogged scopes are served in proportion to their weights, up to one round. */
  lemma {:induction false} WeightedFairness(all: seq<Request>, p: Pick, r: nat, a: string, b: string)
    requires Regular(all) && FairShare(all, p, r)
    requires a in p.left && p.left[a] != [] && b in p.left && p.left[b] != []
    ensures var (nA, nB, wA, wB) := (Given(all, p, a), Given(all, p, b), Weight(all, a), Weight(all, b));
            -(wA * wB) <= nA * wB - nB * wA <= wA * wB
  {
    Proportion(Given(all, p, a), Given(all, p, b), Weight(all, a), Weight(all, b), r);
  }

  lemma {:induction false} Proportion(nA: int, nB: int, wA: nat, wB: nat, r: nat)
    requires r * wA <= nA <= r * wA + wA && r * wB <= nB <= r * wB + wB
    ensures -(wA * wB) <= nA * wB - nB * wA <= wA * wB
  {
    var x, y := nA - r * wA, nB - r * wB;
    assert 0 <= x * wB <= wA * wB && 0 <= y * wA <= wB * wA;
    calc {
      nA * wB - nB * wA;
      (r * wA + x) * wB - (r * wB + y) * wA;
      r * wA * wB + x * wB - (r * wB * wA + y * wA);
      { assert r * wA * wB == r * wB * wA; }
      x * wB - y * wA;
    }
  }

  // ----- the batch and the rest of the queue

  function IdsOf(s: seq<Request>): set<nat> {
    set x | x in s :: x.id
  }

  /** The requests whose ids are not among the given ones, in order. */
  function Rest(queue: seq<Request>, gone: set<nat>): (r: seq<Request>)
    ensures forall x :: x in r <==> x in queue && x.id !in gone
    ensures |r| <= |queue|
  {
    if queue == [] then []
    else
      var init, last := Rest(queue[..|queue| - 1], gone), queue[|queue| - 1];
      assert queue == queue[..|queue| - 1] + [last];
      if last.id in gone then init else init + [last]
  }

  lemma {:induction false} RestDistinct(queue: seq<Request>, gone: set<nat>)
    requires DistinctIds(queue)
    ensures DistinctIds(Rest(queue, gone))
  {
    if queue != [] {
      var init, last := queue[..|queue| - 1], queue[|queue| - 1];
      RestDistinct(init, gone);
      forall x | x in init ensures x.id != last.id {
        var i :| 0 <= i < |init| && init[i] == x;
        assert queue[i] == x;
      }
    }
  }

  /** What the scheduler's batch selection promises. */
  ghost predicate FairTake(queue: seq<Request>, seed: Request, max: nat, last: Option<string>, batch: seq<Request>, rest: seq<Request>) {
    && batch != [] && ServedInTurn(Candidates(queue, seed), last, batch)
    && (forall x | x in batch :: x in queue && Alike(x, seed))
    && rest == Rest(queue, IdsOf(batch))
    && DistinctIds(batch)
    && (forall s :: Of(batch, s) <= Of(Candidates(queue, seed), s))
    && (Total(batch) <= max || |batch| == 1)
  }

  /** Choose the next batch for the seed and take it out of the queue.  With positive sizes
      the selection ends full or with nothing left that fits. */
  method TakeFairBatch(queue: seq<Request>, seed: Request, max: nat, last: Option<string>)
    returns (batch: seq<Request>, rest: seq<Request>, last': Option<string>, ghost p: Pick, ghost rounds: nat)
    requires seed in queue && max > 0 && DistinctIds(queue) && Positive(queue)
    ensures FairTake(queue, seed, max, last, batch, rest)
    ensures Selected(Candidates(queue, seed), p, max) && batch == p.selected
    ensures last' == Some(batch[|batch| - 1].scope)
    ensures Regular(Candidates(queue, seed)) ==> FairShare(Candidates(queue, seed), p, rounds)
    ensures SelectedByTurns(Candidates(queue, seed), last, p, max)
  {
    var all := Candidates(queue, seed);
    var pick;
    pick, rounds := SelectBatch(all, max, last);
    p := pick;
    batch, last' := pick.selected, pick.last;
    PickedFromAll(all, p);
    CandidatesDistinct(queue, seed);
    PickedDistinct(all, p);
    forall s ensures Of(batch, s) <= Of(all, s) {
      if s !in p.left {
        NoneOf(batch, s);
      }
    }
    rest := Rest(queue, IdsOf(batch));
  }

  /** The batch and the rest of the queue, without the account of the shares. */
  method NextBatch(queue: seq<Request>, seed: Request, max: nat, last: Option<string>)
    returns (batch: seq<Request>, rest: seq<Request>, last': Option<string>)
    requires seed in queue && max > 0 && DistinctIds(queue) && Positive(queue)
    ensures FairTake(queue, seed, max, last, batch, rest) && last' == Some(batch[|batch| - 1].scope)
  {
    ghost var p, rounds;
    batch, rest, last', p, rounds := TakeFairBatch(queue, seed, max, last);
  }

  lemma {:induction false} NoneOf(s: seq<Request>, scope: string)
    requires forall x | x in s :: x.scope != scope
    ensures Of(s, scope) == []
  {
    OfMembers(s, scope);
    if Of(s, scope) != [] {
      assert Of(s, scope)[0] in Of(s, scope);
    }
  }

  lemma {:induction false} PickedFromAll(all: seq<Request>, p: Pick)
    requires Splits(all, p)
    ensures forall x | x in p.selected :: x in all
  {
    forall x | x in p.selected ensures x in all {
      OfMembers(p.selected, x.scope);
      OfMembers(all, x.scope);
      assert x in Of(p.selected, x.scope) + p.left[x.scope];
    }
  }

  lemma {:induction false} CandidatesDistinct(queue: seq<Request>, seed: Request)
    requires DistinctIds(queue)
    ensures DistinctIds(Candidates(queue, seed))
  {
    if queue != [] {
      var init, last := queue[..|queue| - 1], queue[|queue| - 1];
      CandidatesDistinct(init, seed);
      forall x | x in init ensures x.id != last.id {
        var i :| 0 <= i < |init| && init[i] == x;
        assert queue[i] == x;
      }
    }
  }

  lemma {:induction false} OfDistinct(s: seq<Request>, scope: string)
    requires DistinctIds(s)
    ensures DistinctIds(Of(s, scope))
  {
    if s != [] {
      var init, last := s[..|s| - 1], s[|s| - 1];
      OfDistinct(init, scope);
      OfMembers(init, scope);
      forall x | x in Of(init, scope) ensures x.id != last.id {
        var i :| 0 <= i < |init| && init[i] == x;
        assert s[i] == x;
      }
    }
  }

  /** Where the requests of a scope stand in the filtered list. */
  lemma {:induction false} OfIndexes(s: seq<Request>, i: nat, j: nat) returns (a: nat, b: nat)
    requires i < j < |s| && s[i].scope == s[j].scope
    ensures a < b < |Of(s, s[i].scope)| && Of(s, s[i].scope)[a] == s[i] && Of(s, s[i].scope)[b] == s[j]
  {
    var init, last, scope := s[..|s| - 1], s[|s| - 1], s[i].scope;
    if j < |s| - 1 {
      a, b := OfIndexes(init, i, j);
    } else {
      OfMembers(init, scope);
      assert init[i] in Of(init, scope);
      a :| 0 <= a < |Of(init, scope)| && Of(init, scope)[a] == s[i];
      b := |Of(init, scope)|;
    }
  }

  /** A batch of prefixes of distinct requests has distinct requests. */
  lemma {:induction false} PickedDistinct(all: seq<Request>, p: Pick)
    requires Splits(all, p) && DistinctIds(all)
    ensures DistinctIds(p.selected)
  {
    var s := p.selected;
    PickedFromAll(all, p);
    forall i, j | 0 <= i < j < |s| ensures s[i].id != s[j].id {
      if s[i].scope == s[j].scope {
        var a, b := OfIndexes(s, i, j);
        OfDistinct(all, s[i].scope);
        var whole := Of(all, s[i].scope);
        assert Of(s, s[i].scope) + p.left[s[i].scope] == whole;
        assert whole[a] == s[i] && whole[b] == s[j];
      } else {
        assert s[i] in all && s[j] in all;
      }
    }
  }

  /** Batch and rest together are the queue, nothing lost and nothing twice. */
  lemma {:induction false} NothingLost(queue: seq<Request>, batch: seq<Request>)
    requires DistinctIds(queue) && DistinctIds(batch) && forall x | x in batch :: x in queue
    ensures multiset(batch) + multiset(Rest(queue, IdsOf(batch))) == multiset(queue)
  {
    var rest := Rest(queue, IdsOf(batch));
    RestDistinct(queue, IdsOf(batch));
    forall x ensures (multiset(batch) + multiset(rest))[x] == multiset(queue)[x] {
      OnlyOnce(queue, x);
      OnlyOnce(batch, x);
      OnlyOnce(rest, x);
      if x in queue && x !in batch && x.id in IdsOf(batch) {
        var y :| y in batch && y.id == x.id;
        SameId(queue, x, y);
      }
    }
  }

  lemma {:induction false} SameId(queue: seq<Request>, x: Request, y: Request)
    requires DistinctIds(queue) && x in queue && y in queue && x.id == y.id
    ensures x == y
  {
  }

  lemma {:induction false} OnlyOnce(s: seq<Request>, x: Request)
    requires DistinctIds(s)
    ensures multiset(s)[x] == if x in s then 1 else 0
  {
    if x in s {
      var i :| 0 <= i < |s| && s[i] == x;
      assert s == s[..i] + [x] + s[i + 1..];
      assert x !in s[..i] && x !in s[i + 1..];
    }
  }
}
