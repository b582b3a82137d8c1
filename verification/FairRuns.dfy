/** Whole selections as runs of turns: each turn goes to the next scope that can still give, in
    cyclic order.  Such a run is determined by the candidates. */
module FairRuns {
  import opened Options
  import opened Sums
  import opened FairScopes
  import opened FairTurns

  // ----- runs of turns

  /** Strictly between two places, going round. */
  predicate Between(l: nat, c: nat, j: nat) {
    if l < c then l < j < c else l < j || j < c
  }

  /** No scope strictly between the one served last and this place can give anything. */
  ghost predicate Cleared(order: seq<string>, p: Pick, c: nat, max: nat) {
    && p.last.Some? && p.last.value in order
    && forall j: nat | j < |order| && Between(IndexOf(order, p.last.value), c, j) :: Stuck(p, order[j], max)
  }

  /** The turn goes to this scope: the first of all at the start, and later the next one, going
      round, that can give something. */
  ghost predicate HasTurn(order: seq<string>, p: Pick, s: string, max: nat) {
    && s in order && p.size < max
    && if p.selected == [] then s == order[0] else Cleared(order, p, IndexOf(order, s), max)
  }

  /** A turn: the scope gives at least one request, and as many as its weight and the limit allow. */
  ghost predicate Turns(order: seq<string>, p: Pick, s: string, k: nat, size: nat, max: nat) {
    && HasTurn(order, p, s, max) && s in p.left && k > 0
    && GoodTurn(p.left[s], p.selected != [], p.size, k, size, max)
  }

  /** One turn leads from one state of the selection to the next. */
  ghost predicate TurnTo(order: seq<string>, p: Pick, p': Pick, max: nat) {
    exists s, k: nat, size: nat :: Turns(order, p, s, k, size, max) && p' == Served(p, s, k, size)
  }

  ghost predicate TurnAt(order: seq<string>, states: seq<Pick>, i: nat, max: nat) {
    i + 1 < |states| && TurnTo(order, states[i], states[i + 1], max)
  }

  /** The states of the selection before and after each turn. */
  ghost predicate RunOf(order: seq<string>, states: seq<Pick>, max: nat) {
    states != [] && forall i: nat {:trigger TurnAt(order, states, i, max)} | i + 1 < |states| :: TurnAt(order, states, i, max)
  }

  /** A run of turns leads from one state of the selection to another. */
  ghost predicate RunTo(order: seq<string>, start: Pick, p: Pick, max: nat) {
    exists states :: RunOf(order, states, max) && states[0] == start && states[|states| - 1] == p
  }

  lemma {:induction false} OneMoreState(order: seq<string>, states: seq<Pick>, p: Pick, max: nat)
    requires RunOf(order, states, max) && TurnTo(order, states[|states| - 1], p, max)
    ensures RunOf(order, states + [p], max)
  {
    var more := states + [p];
    forall i: nat | i + 1 < |more| ensures TurnAt(order, more, i, max) {
      if i + 1 < |states| {
        assert TurnAt(order, states, i, max);
      }
    }
  }

  lemma {:induction false} OneMoreTurn(order: seq<string>, start: Pick, p: Pick, p': Pick, max: nat)
    requires RunTo(order, start, p, max) && TurnTo(order, p, p', max)
    ensures RunTo(order, start, p', max)
  {
    var states :| RunOf(order, states, max) && states[0] == start && states[|states| - 1] == p;
    OneMoreState(order, states, p', max);
    assert (states + [p'])[0] == start && (states + [p'])[|states|] == p';
  }

  // ----- the next turn is determined

  lemma {:induction false} IndexIs(order: seq<string>, j: nat)
    requires Distinct(order) && j < |order|
    ensures IndexOf(order, order[j]) == j
  {
  }

  /** Of two different scopes one lies before the other on the way round. */
  lemma {:induction false} OneTurnOnly(order: seq<string>, p: Pick, s: string, k: nat, size: nat, t: string, m: nat, z: nat, max: nat)
    requires Distinct(order) && Turns(order, p, s, k, size, max) && Turns(order, p, t, m, z, max)
    ensures s == t
  {
    if p.selected != [] && s != t {
      var (l, a, b) := (IndexOf(order, p.last.value), IndexOf(order, s), IndexOf(order, t));
      if Between(l, b, a) {
        StuckTurn(p, s, k, size, max);
      } else {
        StuckTurn(p, t, m, z, max);
      }
    }
  }

  lemma {:induction false} TotalGrows(q: seq<Request>, k: nat, m: nat)
    requires k < m <= |q|
    ensures Total(q[..m]) >= Total(q[..k]) + q[k].size
    decreases m
  {
    assert q[..m][..m - 1] == q[..m - 1] && q[..m][m - 1] == q[m - 1];
    if k < m - 1 {
      TotalGrows(q, k, m - 1);
    }
  }

  /** One request more than a turn gave would have been too many. */
  lemma {:induction false} LongerIsTooBig(q: seq<Request>, started: bool, before: nat, k: nat, size: nat, m: nat, max: nat)
    requires GoodTurn(q, started, before, k, size, max) && 0 < k < m <= |q| && m <= q[0].weight
    requires forall x | x in q :: x.size > 0
    ensures before + Total(q[..m]) > max
  {
    TotalGrows(q, k, m);
    assert q[k] in q;
  }

  /** A turn gives a number of requests that its scope and the limit determine. */
  lemma {:induction false} TurnNotLonger(q: seq<Request>, started: bool, before: nat, k: nat, size: nat, m: nat, z: nat, max: nat)
    requires GoodTurn(q, started, before, k, size, max) && GoodTurn(q, started, before, m, z, max) && k > 0
    requires forall x | x in q :: x.size > 0
    ensures m <= k
  {
    if k < m {
      LongerIsTooBig(q, started, before, k, size, m, max);
    }
  }

  lemma {:induction false} SameTurn(all: seq<Request>, order: seq<string>, p: Pick, s: string, k: nat, size: nat, t: string, m: nat, z: nat, max: nat)
    requires Distinct(order) && Splits(all, p) && Sized(all) && Turns(order, p, s, k, size, max) && Turns(order, p, t, m, z, max)
    ensures s == t && k == m && size == z
  {
    OneTurnOnly(order, p, s, k, size, t, m, z, max);
    LeftHasScope(all, p, s);
    TurnNotLonger(p.left[s], p.selected != [], p.size, k, size, m, z, max);
    TurnNotLonger(p.left[s], p.selected != [], p.size, m, z, k, size, max);
  }

  /** The selection is over: the batch is full or nothing more fits. */
  ghost predicate Over(p: Pick, max: nat) {
    p.size >= max || forall s | s in p.left :: Stuck(p, s, max)
  }

  lemma {:induction false} OverMeansNoTurn(order: seq<string>, p: Pick, s: string, k: nat, size: nat, max: nat)
    requires Over(p, max)
    ensures !Turns(order, p, s, k, size, max)
  {
    if s in p.left && Stuck(p, s, max) && GoodTurn(p.left[s], p.selected != [], p.size, k, size, max) {
      StuckTurn(p, s, k, size, max);
    }
  }

  lemma {:induction false} OverIsLast(order: seq<string>, p: Pick, p': Pick, max: nat)
    requires Over(p, max)
    ensures !TurnTo(order, p, p', max)
  {
    forall s, k: nat, size: nat ensures !Turns(order, p, s, k, size, max) {
      OverMeansNoTurn(order, p, s, k, size, max);
    }
  }

  lemma {:induction false} NextIsUnique(all: seq<Request>, order: seq<string>, p: Pick, a: Pick, b: Pick, max: nat)
    requires Distinct(order) && Splits(all, p) && Sized(all) && TurnTo(order, p, a, max) && TurnTo(order, p, b, max)
    ensures a == b && Splits(all, a)
  {
    var s, k: nat, size: nat :| Turns(order, p, s, k, size, max) && a == Served(p, s, k, size);
    var t, j: nat, z: nat :| Turns(order, p, t, j, z, max) && b == Served(p, t, j, z);
    SameTurn(all, order, p, s, k, size, t, j, z, max);
    ServeKeepsSplit(all, p, s, k, size);
  }

  lemma {:induction false} SameStates(all: seq<Request>, order: seq<string>, a: seq<Pick>, b: seq<Pick>, i: nat, max: nat)
    requires Distinct(order) && Sized(all) && RunOf(order, a, max) && RunOf(order, b, max) && a[0] == b[0] && Splits(all, a[0])
    requires i < |a| && i < |b|
    ensures a[i] == b[i] && Splits(all, a[i])
  {
    if i > 0 {
      SameStates(all, order, a, b, i - 1, max);
      assert TurnAt(order, a, i - 1, max) && TurnAt(order, b, i - 1, max);
      NextIsUnique(all, order, a[i - 1], a[i], b[i], max);
    }
  }

  lemma {:induction false} NotLonger(all: seq<Request>, order: seq<string>, a: seq<Pick>, b: seq<Pick>, max: nat)
    requires Distinct(order) && Sized(all) && RunOf(order, a, max) && RunOf(order, b, max) && a[0] == b[0] && Splits(all, a[0])
    requires Over(a[|a| - 1], max)
    ensures |b| <= |a|
  {
    if |a| < |b| {
      SameStates(all, order, a, b, |a| - 1, max);
      assert TurnAt(order, b, |a| - 1, max);
      OverIsLast(order, b[|a| - 1], b[|a|], max);
    }
  }

  /** Runs from the same start to their end are the same. */
  lemma {:induction false} RunsUnique(all: seq<Request>, order: seq<string>, p: Pick, a: Pick, b: Pick, max: nat)
    requires Distinct(order) && Splits(all, p) && Sized(all) && RunTo(order, p, a, max) && RunTo(order, p, b, max) && Over(a, max) && Over(b, max)
    ensures a == b
  {
    var s := RunStates(order, p, a, max);
    var t := RunStates(order, p, b, max);
    RunsMeet(all, order, s, t, max);
  }

  lemma {:induction false} RunStates(order: seq<string>, start: Pick, p: Pick, max: nat) returns (states: seq<Pick>)
    requires RunTo(order, start, p, max)
    ensures RunOf(order, states, max) && states[0] == start && states[|states| - 1] == p
  {
    states :| RunOf(order, states, max) && states[0] == start && states[|states| - 1] == p;
  }

  lemma {:induction false} RunsMeet(all: seq<Request>, order: seq<string>, s: seq<Pick>, t: seq<Pick>, max: nat)
    requires Distinct(order) && Sized(all) && RunOf(order, s, max) && RunOf(order, t, max) && s[0] == t[0] && Splits(all, s[0])
    requires Over(s[|s| - 1], max) && Over(t[|t| - 1], max)
    ensures s[|s| - 1] == t[|t| - 1]
  {
    NotLonger(all, order, s, t, max);
    NotLonger(all, order, t, s, max);
    SameStates(all, order, s, t, |s| - 1, max);
  }

  // ----- the order of the turns is determined

  lemma {:induction false} GoesOneWay(all: seq<Request>, last: Option<string>, x: string, y: string)
    requires GoesBefore(all, last, x, y)
    ensures !GoesBefore(all, last, y, x)
  {
    var i: nat, j: nat :| IsFirst(all, i) && IsFirst(all, j) && all[i].scope == x && all[j].scope == y && TurnsBefore(all, last, i, j);
    forall a: nat, b: nat | IsFirst(all, a) && IsFirst(all, b) && all[a].scope == y && all[b].scope == x ensures !TurnsBefore(all, last, a, b) {
      FirstIsUnique(all, a, j);
      FirstIsUnique(all, b, i);
    }
  }

  /** The order of the turns lists every scope once. */
  ghost predicate IsOrder(all: seq<Request>, last: Option<string>, order: seq<string>) {
    TurnOrder(all, last, order) && Distinct(order) && forall s | s in order :: exists x :: x in all && x.scope == s
  }

  lemma {:induction false} OrderIsUnique(all: seq<Request>, last: Option<string>, a: seq<string>, b: seq<string>)
    requires IsOrder(all, last, a) && IsOrder(all, last, b)
    ensures a == b
  {
    assert forall s :: s in a <==> s in b;
    SameOrder(all, last, a, b);
  }

  ghost predicate Ranked(all: seq<Request>, last: Option<string>, a: seq<string>) {
    forall p: nat, q: nat | p < q < |a| :: GoesBefore(all, last, a[p], a[q])
  }

  lemma {:induction false} SameOrder(all: seq<Request>, last: Option<string>, a: seq<string>, b: seq<string>)
    requires Ranked(all, last, a) && Ranked(all, last, b) && Distinct(a) && Distinct(b) && forall s :: s in a <==> s in b
    ensures a == b
  {
    EmptyIff(a);
    EmptyIff(b);
    if a != [] {
      var a', b' := a[1..], b[1..];
      SameFirst(all, last, a, b);
      TailHas(all, last, a, a');
      TailHas(all, last, b, b');
      SameOrder(all, last, a', b');
    }
  }

  lemma {:induction false} EmptyIff(a: seq<string>)
    ensures a == [] <==> forall s :: s !in a
    ensures a != [] ==> a[0] in a
  {
    if a != [] {
      assert a[0] in a;
    }
  }

  lemma {:induction false} SameFirst(all: seq<Request>, last: Option<string>, a: seq<string>, b: seq<string>)
    requires Ranked(all, last, a) && Ranked(all, last, b) && a != [] && b != [] && a[0] in b && b[0] in a
    ensures a[0] == b[0]
  {
    var i: nat :| i < |b| && b[i] == a[0];
    var j: nat :| j < |a| && a[j] == b[0];
    NotBothWays(all, last, a[0], b[0]);
  }

  lemma {:induction false} NotBothWays(all: seq<Request>, last: Option<string>, x: string, y: string)
    ensures !(GoesBefore(all, last, x, y) && GoesBefore(all, last, y, x))
  {
    if GoesBefore(all, last, x, y) {
      GoesOneWay(all, last, x, y);
    }
  }

  lemma {:induction false} TailHas(all: seq<Request>, last: Option<string>, a: seq<string>, tail: seq<string>)
    requires Distinct(a) && a != [] && tail == a[1..] && Ranked(all, last, a)
    ensures Distinct(tail) && Ranked(all, last, tail) && (forall s :: s in tail <==> s in a && s != a[0]) && a == [a[0]] + tail
  {
    assert a == [a[0]] + tail;
  }

  // ----- the whole selection

  function StartPick(all: seq<Request>, last: Option<string>): Pick {
    Pick(map s | s in Scopes(all) :: Of(all, s), [], 0, last)
  }

  /** The selection is a run of turns in the order of the turns. */
  ghost predicate SelectedByTurns(all: seq<Request>, last: Option<string>, p: Pick, max: nat) {
    exists order :: IsOrder(all, last, order) && RunTo(order, StartPick(all, last), p, max)
  }

  /** With positive sizes only one batch can be selected. */
  lemma {:induction false} SelectionIsUnique(all: seq<Request>, last: Option<string>, a: Pick, b: Pick, max: nat)
    requires Sized(all) && SelectedByTurns(all, last, a, max) && SelectedByTurns(all, last, b, max) && Over(a, max) && Over(b, max)
    ensures a == b
  {
    var order :| IsOrder(all, last, order) && RunTo(order, StartPick(all, last), a, max);
    var order' :| IsOrder(all, last, order') && RunTo(order', StartPick(all, last), b, max);
    OrderIsUnique(all, last, order, order');
    StartSplits(all, last);
    RunsUnique(all, order, StartPick(all, last), a, b, max);
  }

  lemma {:induction false} StartSplits(all: seq<Request>, last: Option<string>)
    ensures Splits(all, StartPick(all, last))
  {
    forall s | s in StartPick(all, last).left ensures Of([], s) + Of(all, s) == Of(all, s) {
    }
  }

  // ----- the loop makes such a run

  /** The rest of a round, from the scope at position i on. */
  function Cursor(order: seq<string>, scopes: seq<string>, i: nat): nat {
    if i < |scopes| && scopes[i] in order then IndexOf(order, scopes[i]) else |order|
  }

  /** The scopes of a round stand in the order of the turns. */
  ghost predicate Listed(order: seq<string>, scopes: seq<string>) {
    && Distinct(order) && (forall a | 0 <= a < |scopes| :: scopes[a] in order)
    && forall a, b | 0 <= a < b < |scopes| :: IndexOf(order, scopes[a]) < IndexOf(order, scopes[b])
  }

  /** All other scopes have nothing left. */
  ghost predicate OthersSpent(order: seq<string>, scopes: seq<string>, p: Pick) {
    forall s | s in order && s !in scopes :: s in p.left && p.left[s] == []
  }

  /** The selection so far is a run of turns, and no scope was passed by that could have given. */
  ghost predicate OnTheWay(order: seq<string>, start: Pick, scopes: seq<string>, p: Pick, i: nat, max: nat) {
    && Listed(order, scopes) && OthersSpent(order, scopes, p) && i <= |scopes|
    && (if p.selected == [] then i == 0 && scopes == order else Cleared(order, p, Cursor(order, scopes, i), max))
    && RunTo(order, start, p, max)
  }

  /** Between two cursors of a round lie spent scopes only. */
  lemma {:induction false} GapSpent(order: seq<string>, scopes: seq<string>, p: Pick, i: nat, j: nat, max: nat)
    requires Listed(order, scopes) && OthersSpent(order, scopes, p) && i < |scopes|
    requires j < |order| && Cursor(order, scopes, i) < j < Cursor(order, scopes, i + 1)
    ensures Stuck(p, order[j], max)
  {
    IndexIs(order, j);
    forall a | 0 <= a < |scopes| ensures scopes[a] != order[j] {
      assert scopes[i] in order && scopes[a] in order;
      if i + 1 < |scopes| {
        assert scopes[i + 1] in order;
      }
    }
  }

  lemma {:induction false} BeforeFirstSpent(order: seq<string>, scopes: seq<string>, p: Pick, j: nat, max: nat)
    requires Listed(order, scopes) && OthersSpent(order, scopes, p) && j < |order| && j < Cursor(order, scopes, 0)
    ensures Stuck(p, order[j], max)
  {
    IndexIs(order, j);
    forall a | 0 <= a < |scopes| ensures scopes[a] != order[j] {
      assert scopes[0] in order && scopes[a] in order;
    }
  }

  lemma {:induction false} CursorsClimb(order: seq<string>, scopes: seq<string>, i: nat)
    requires Listed(order, scopes) && i < |scopes|
    ensures Cursor(order, scopes, i) < Cursor(order, scopes, i + 1) <= |order| && order[Cursor(order, scopes, i)] == scopes[i]
  {
    assert scopes[i] in order;
    if i + 1 < |scopes| {
      assert scopes[i + 1] in order;
    }
  }

  /** A turn in vain: the cursor moves on past a stuck scope and spent ones. */
  lemma {:induction false} VainMovesOn(order: seq<string>, scopes: seq<string>, p: Pick, i: nat, max: nat)
    requires Listed(order, scopes) && OthersSpent(order, scopes, p) && i < |scopes|
    requires Cleared(order, p, Cursor(order, scopes, i), max) && Stuck(p, scopes[i], max)
    ensures Cleared(order, p, Cursor(order, scopes, i + 1), max)
  {
    var (l, c, d) := (IndexOf(order, p.last.value), Cursor(order, scopes, i), Cursor(order, scopes, i + 1));
    CursorsClimb(order, scopes, i);
    forall j: nat | j < |order| && Between(l, d, j) ensures Stuck(p, order[j], max) {
      if c < j < d {
        GapSpent(order, scopes, p, i, j, max);
      }
    }
  }

  /** After a turn the cursor stands behind the scope that had it. */
  lemma {:induction false} TakeMovesOn(order: seq<string>, scopes: seq<string>, p: Pick, i: nat, k: nat, size: nat, max: nat)
    requires Listed(order, scopes) && OthersSpent(order, scopes, p) && i < |scopes| && scopes[i] in p.left && 0 < k <= |p.left[scopes[i]]|
    ensures OthersSpent(order, scopes, Served(p, scopes[i], k, size)) && Cleared(order, Served(p, scopes[i], k, size), Cursor(order, scopes, i + 1), max)
  {
    var (p', c, d) := (Served(p, scopes[i], k, size), Cursor(order, scopes, i), Cursor(order, scopes, i + 1));
    CursorsClimb(order, scopes, i);
    IndexIs(order, c);
    assert scopes[i] in scopes;
    forall j: nat | j < |order| && Between(c, d, j) ensures Stuck(p', order[j], max) {
      GapSpent(order, scopes, p', i, j, max);
    }
  }

  lemma {:induction false} TurnIsTaken(order: seq<string>, start: Pick, scopes: seq<string>, p: Pick, i: nat, k: nat, size: nat, max: nat)
    requires OnTheWay(order, start, scopes, p, i, max) && i < |scopes| && scopes[i] in p.left && p.size < max && k > 0
    requires GoodTurn(p.left[scopes[i]], p.selected != [], p.size, k, size, max)
    ensures RunTo(order, start, Served(p, scopes[i], k, size), max)
  {
    assert scopes[i] in order;
    assert Turns(order, p, scopes[i], k, size, max);
    OneMoreTurn(order, start, p, Served(p, scopes[i], k, size), max);
  }

  lemma {:induction false} SameIfVain(p: Pick, scope: string, size: nat)
    requires scope in p.left && size == p.size
    ensures Served(p, scope, 0, size) == p
  {
    assert p.left[scope][0..] == p.left[scope] && p.left[scope][..0] == [];
    assert p.left[scope := p.left[scope]] == p.left;
  }

  /** One more turn of a round, given or in vain. */
  lemma {:induction false} TurnOnTheWay(order: seq<string>, start: Pick, scopes: seq<string>, p: Pick, i: nat, k: nat, size: nat, max: nat)
    requires OnTheWay(order, start, scopes, p, i, max) && i < |scopes| && scopes[i] in p.left && p.size < max && p.left[scopes[i]] != [] && p.left[scopes[i]][0].weight > 0
    requires GoodTurn(p.left[scopes[i]], p.selected != [], p.size, k, size, max)
    ensures OnTheWay(order, start, scopes, Served(p, scopes[i], k, size), i + 1, max)
  {
    if k > 0 {
      TurnIsTaken(order, start, scopes, p, i, k, size, max);
      TakeMovesOn(order, scopes, p, i, k, size, max);
    } else {
      assert p.left[scopes[i]][..0] == [];
      VainTurn(p, scopes[i], size, max);
      SameIfVain(p, scopes[i], size);
      VainMovesOn(order, scopes, p, i, max);
    }
  }

  /** The next round begins where the last one ended. */
  lemma {:induction false} RoundOnTheWay(order: seq<string>, start: Pick, scopes: seq<string>, p: Pick, remaining: seq<string>, max: nat)
    requires OnTheWay(order, start, scopes, p, |scopes|, max) && p.selected != [] && Listed(order, remaining)
    requires forall s | s in scopes && s !in remaining :: s in p.left && p.left[s] == []
    ensures OnTheWay(order, start, remaining, p, 0, max)
  {
    assert OthersSpent(order, remaining, p);
    var (l, c) := (IndexOf(order, p.last.value), Cursor(order, remaining, 0));
    forall j: nat | j < |order| && Between(l, c, j) ensures Stuck(p, order[j], max) {
      if j < c && j <= l {
        BeforeFirstSpent(order, remaining, p, j, max);
      } else {
        assert Between(l, Cursor(order, scopes, |scopes|), j);
      }
    }
  }

  lemma {:induction false} StartOnTheWay(order: seq<string>, start: Pick, max: nat)
    requires Distinct(order) && start.selected == []
    ensures OnTheWay(order, start, order, start, 0, max)
  {
    assert RunOf(order, [start], max);
    forall a | 0 <= a < |order| ensures order[a] in order && IndexOf(order, order[a]) == a {
      IndexIs(order, a);
    }
  }
}
