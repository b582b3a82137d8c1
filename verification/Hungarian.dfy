/** The Hungarian solver of the tracker: shortest augmenting paths over row and
    column potentials, kept in place in arrays indexed from 1 (index 0 is the
    artificial column that holds the row being inserted). */
module Hungarian {
  import opened Matchings
  import opened Sums

  /** A column distance: infinite until the column has been reached. */
  datatype Bound = Infinite | Finite(value: int)

  predicate Below(a: Bound, b: Bound) {
    a.Finite? && (b.Infinite? || a.value < b.value)
  }

  // ----- the square cost table

  type Costs = seq<seq<int>>

  ghost predicate Square(cost: Costs, n: nat) {
    |cost| == n && forall r | 0 <= r < n :: |cost[r]| == n
  }

  /** The dearest cell is a missing one: a pair of score s costs (top - s), a missing
      pair costs (top + 1). */
  function CostTable(scores: Scores, n: nat, top: nat): (cost: Costs)
    ensures Square(cost, n)
  {
    seq(n, r => seq(n, c => if (r, c) in scores then top - scores[(r, c)] else top + ONE))
  }

  /** Cost of row r and column c, both counted from 1, reduced by the potentials. */
  ghost function Slack(cost: Costs, n: nat, u: seq<int>, v: seq<int>, r: nat, c: nat): int
    requires Square(cost, n) && |u| == |v| == n + 1
    requires 1 <= r <= n && 1 <= c <= n
  {
    cost[r - 1][c - 1] - u[r] - v[c]
  }

  ghost predicate Feasible(cost: Costs, n: nat, u: seq<int>, v: seq<int>) {
    && Square(cost, n) && |u| == |v| == n + 1
    && forall r: nat, c: nat | 1 <= r <= n && 1 <= c <= n :: Slack(cost, n, u, v, r, c) >= 0
  }

  /** Every matched cell is tight. */
  ghost predicate Tight(cost: Costs, n: nat, u: seq<int>, v: seq<int>, p: seq<nat>)
    requires Square(cost, n) && |u| == |v| == |p| == n + 1
  {
    forall c: nat | 1 <= c <= n && p[c] != 0 :: p[c] <= n && Slack(cost, n, u, v, p[c], c) == 0
  }

  /** The columns other than `hole` hold the rows 1..rows, each exactly once; `hole` is
      n + 1 when no column is left out. */
  ghost predicate HoldsRows(n: nat, p: seq<nat>, rows: nat, hole: nat) {
    && |p| == n + 1 && rows <= n
    && (forall c: nat | c <= n && c != hole :: p[c] <= rows)
    && (forall c: nat, d: nat | c < d <= n && c != hole && d != hole && p[c] != 0 :: p[c] != p[d])
    && (forall r: nat | 1 <= r <= rows :: Held(n, p, hole, r))
  }

  ghost predicate Held(n: nat, p: seq<nat>, hole: nat, r: nat)
    requires |p| == n + 1
  {
    exists c: nat :: c <= n && c != hole && p[c] == r
  }

  // ----- the search tree that one insertion grows

  /** The columns reached so far, in order; `used` marks all but the last one.  Each
      reached column hangs from an earlier one by a tight cell. */
  ghost predicate Trail(cost: Costs, n: nat, u: seq<int>, v: seq<int>, p: seq<nat>, way: seq<nat>, trail: seq<nat>)
    requires Square(cost, n) && |u| == |v| == |p| == |way| == n + 1
  {
    && 1 <= |trail| && trail[0] == 0
    && (forall k: nat | k < |trail| :: trail[k] <= n)
    && (forall j: nat, k: nat | j < k < |trail| :: trail[j] != trail[k])
    && (forall k: nat | k < |trail| - 1 :: 1 <= p[trail[k]] <= n)
    && (forall k: nat | 1 <= k < |trail| :: Hangs(cost, n, u, v, p, way, trail, k))
  }

  ghost predicate Hangs(cost: Costs, n: nat, u: seq<int>, v: seq<int>, p: seq<nat>, way: seq<nat>, trail: seq<nat>, k: nat)
    requires Square(cost, n) && |u| == |v| == |p| == |way| == n + 1
    requires k < |trail|
  {
    && 1 <= trail[k] <= n
    && way[trail[k]] in trail[..k]
    && way[trail[k]] <= n
    && 1 <= p[way[trail[k]]] <= n
    && Slack(cost, n, u, v, p[way[trail[k]]], trail[k]) == 0
  }

  ghost predicate Marks(n: nat, used: seq<bool>, marked: seq<nat>) {
    |used| == n + 1 && forall c: nat | c <= n :: used[c] <==> c in marked
  }

  ghost predicate Rowed(n: nat, p: seq<nat>, used: seq<bool>) {
    |p| == |used| == n + 1 && forall d: nat | d <= n && used[d] :: 1 <= p[d] <= n
  }

  ghost predicate Injective(n: nat, p: seq<nat>) {
    |p| == n + 1 && forall c: nat, d: nat | c < d <= n && p[c] != 0 :: p[c] != p[d]
  }

  /** Distance of an unmarked column: the least slack towards a marked column's row,
      attained at its predecessor. */
  ghost predicate Frontier(cost: Costs, n: nat, u: seq<int>, v: seq<int>, p: seq<nat>, way: seq<nat>,
                           used: seq<bool>, dist: seq<Bound>, c: nat)
    requires Square(cost, n) && |u| == |v| == |p| == |way| == |used| == |dist| == n + 1
    requires 1 <= c <= n
    requires Rowed(n, p, used)
  {
    && dist[c].Finite?
    && way[c] <= n && used[way[c]]
    && dist[c].value == Slack(cost, n, u, v, p[way[c]], c)
    && forall d: nat | d <= n && used[d] :: dist[c].value <= Slack(cost, n, u, v, p[d], c)
  }

  ghost predicate Frontiers(cost: Costs, n: nat, u: seq<int>, v: seq<int>, p: seq<nat>, way: seq<nat>,
                            used: seq<bool>, dist: seq<Bound>)
    requires Square(cost, n) && |u| == |v| == |p| == |way| == |used| == |dist| == n + 1
    requires Rowed(n, p, used)
  {
    forall c: nat | 1 <= c <= n && !used[c] :: Frontier(cost, n, u, v, p, way, used, dist, c)
  }

  /** Potentials after every marked column moved by delta. */
  ghost predicate Shifted(n: nat, p: seq<nat>, used: seq<bool>, delta: int,
                          u: seq<int>, v: seq<int>, u': seq<int>, v': seq<int>)
    requires |p| == |used| == n + 1
  {
    && |u| == |v| == |u'| == |v'| == n + 1
    && (forall c: nat | c <= n && used[c] :: p[c] <= n && u'[p[c]] == u[p[c]] + delta)
    && (forall r: nat | r <= n && (forall c: nat | c <= n && used[c] :: p[c] != r) :: u'[r] == u[r])
    && (forall c: nat | c <= n :: v'[c] == if used[c] then v[c] - delta else v[c])
  }

  /** One column relaxed through the row of the newly marked column. */
  ghost predicate Relaxed(before: Bound, wayBefore: nat, current: int, column: nat, after: Bound, wayAfter: nat) {
    if Below(Finite(current), before) then after == Finite(current) && wayAfter == column
    else after == before && wayAfter == wayBefore
  }

  /** Every unmarked column relaxed; the predecessors of marked ones stay. */
  ghost predicate AllRelaxed(cost: Costs, n: nat, u: seq<int>, v: seq<int>, row: nat, column: nat, used: seq<bool>,
                             dist: seq<Bound>, way: seq<nat>, dist': seq<Bound>, way': seq<nat>)
    requires Square(cost, n) && |u| == |v| == |used| == |dist| == |way| == n + 1 && 1 <= row <= n
  {
    && |dist'| == |way'| == n + 1
    && (forall c: nat | 1 <= c <= n && !used[c] :: Relaxed(dist[c], way[c], Slack(cost, n, u, v, row, c), column, dist'[c], way'[c]))
    && (forall c: nat | c <= n && used[c] :: way'[c] == way[c])
  }

  ghost predicate Nearest(n: nat, used: seq<bool>, dist: seq<Bound>, next: nat, delta: int)
    requires |used| == |dist| == n + 1
  {
    && 1 <= next <= n && !used[next] && dist[next] == Finite(delta)
    && forall c: nat | 1 <= c <= n && !used[c] :: dist[c].Finite? && delta <= dist[c].value
  }

  ghost predicate Shortened(n: nat, used: seq<bool>, delta: int, dist: seq<Bound>, dist': seq<Bound>)
    requires |used| == |dist| == n + 1
  {
    && |dist'| == n + 1
    && forall c: nat | c <= n && !used[c] && dist[c].Finite? :: dist'[c] == Finite(dist[c].value - delta)
  }

  // ----- counting

  /** A search tree cannot cover every column: its rows are distinct. */
  lemma {:induction false} FreeColumn(n: nat, p: seq<nat>, rows: nat, marked: seq<nat>) returns (free: nat)
    requires |p| == n + 1 && rows <= n
    requires forall k: nat | k < |marked| :: marked[k] <= n && 1 <= p[marked[k]] <= rows
    requires forall j: nat, k: nat | j < k < |marked| :: marked[j] != marked[k]
    requires Injective(n, p)
    requires 0 in marked
    ensures 1 <= free <= n && free !in marked && |marked| <= n
  {
    var rowsOf := seq(|marked|, (k: nat) requires k < |marked| && marked[k] < |p| => p[marked[k]]);
    forall j: nat, k: nat | j < k < |marked| ensures rowsOf[j] != rowsOf[k] {
      assert marked[j] != marked[k];
    }
    DistinctWithin(rowsOf, 1, rows + 1);
    if forall c: nat | 1 <= c <= n :: c in marked {
      ElementsSize(marked);
      SubsetSize(Range(0, n + 1), Elements(marked));
      assert false;
    }
    free :| 1 <= free <= n && free !in marked;
  }

  // ----- potentials

  /** Moving the marked columns by the least distance keeps the potentials feasible and
      the matched cells tight. */
  lemma {:induction false} ShiftKeepsDual(cost: Costs, n: nat, p: seq<nat>, way: seq<nat>, used: seq<bool>, dist: seq<Bound>, delta: int,
                       u: seq<int>, v: seq<int>, u': seq<int>, v': seq<int>)
    requires Feasible(cost, n, u, v) && |p| == |way| == |used| == |dist| == n + 1
    requires Rowed(n, p, used)
    requires Injective(n, p)
    requires Frontiers(cost, n, u, v, p, way, used, dist)
    requires forall c: nat | 1 <= c <= n && !used[c] :: delta <= dist[c].value
    requires 0 <= delta
    requires Shifted(n, p, used, delta, u, v, u', v')
    ensures Feasible(cost, n, u', v')
    ensures Tight(cost, n, u, v, p) ==> Tight(cost, n, u', v', p)
  {
    forall r: nat, c: nat | 1 <= r <= n && 1 <= c <= n ensures Slack(cost, n, u', v', r, c) >= 0 {
      assert Slack(cost, n, u, v, r, c) >= 0;
      if d: nat :| d <= n && used[d] && p[d] == r {
        if !used[c] {
          assert Frontier(cost, n, u, v, p, way, used, dist, c);
        }
      }
    }
    if Tight(cost, n, u, v, p) {
      forall c: nat | 1 <= c <= n && p[c] != 0 ensures Slack(cost, n, u', v', p[c], c) == 0 {
        if !used[c] {
          assert forall d: nat | d <= n && used[d] :: p[d] != p[c];
        }
      }
    }
  }

  /** The distances that remain are exact for the moved potentials. */
  lemma {:induction false} ShiftKeepsFrontiers(cost: Costs, n: nat, p: seq<nat>, way: seq<nat>, used: seq<bool>, dist: seq<Bound>, dist': seq<Bound>,
                            delta: int, u: seq<int>, v: seq<int>, u': seq<int>, v': seq<int>)
    requires Square(cost, n) && |u| == |v| == |p| == |way| == |used| == |dist| == |dist'| == n + 1
    requires Rowed(n, p, used)
    requires Frontiers(cost, n, u, v, p, way, used, dist)
    requires Shifted(n, p, used, delta, u, v, u', v')
    requires forall c: nat | 1 <= c <= n && !used[c] && dist[c].Finite? :: dist'[c] == Finite(dist[c].value - delta)
    ensures Frontiers(cost, n, u', v', p, way, used, dist')
  {
    forall c: nat | 1 <= c <= n && !used[c] ensures Frontier(cost, n, u', v', p, way, used, dist', c) {
      assert Frontier(cost, n, u, v, p, way, used, dist, c);
      forall d: nat | d <= n && used[d] ensures Slack(cost, n, u', v', p[d], c) == Slack(cost, n, u, v, p[d], c) - delta {
      }
    }
  }

  /** Relaxing every unmarked column through the newly marked one makes the distances exact
      for the enlarged marking. */
  lemma {:induction false} RelaxKeepsFrontiers(cost: Costs, n: nat, u: seq<int>, v: seq<int>, p: seq<nat>, column: nat,
                            used: seq<bool>, used': seq<bool>, way: seq<nat>, way': seq<nat>, dist: seq<Bound>, dist': seq<Bound>)
    requires Square(cost, n) && |u| == |v| == |p| == n + 1 && column <= n
    requires |way| == |way'| == |used| == |used'| == |dist| == |dist'| == n + 1
    requires used' == used[column := true]
    requires Rowed(n, p, used')
    requires AllRelaxed(cost, n, u, v, p[column], column, used', dist, way, dist', way')
    requires Frontiers(cost, n, u, v, p, way, used, dist)
             || ((forall c: nat | c <= n :: !used[c]) && (forall c: nat | c <= n :: dist[c] == Infinite))
    ensures Frontiers(cost, n, u, v, p, way', used', dist')
  {
    forall c: nat | 1 <= c <= n && !used'[c] ensures Frontier(cost, n, u, v, p, way', used', dist', c) {
      assert Relaxed(dist[c], way[c], Slack(cost, n, u, v, p[column], c), column, dist'[c], way'[c]);
      if Frontiers(cost, n, u, v, p, way, used, dist) {
        assert Frontier(cost, n, u, v, p, way, used, dist, c);
      }
    }
  }

  /** The cells of the trail stay tight when the marked columns move, because both ends move. */
  lemma {:induction false} ShiftKeepsTrail(cost: Costs, n: nat, p: seq<nat>, way: seq<nat>, used: seq<bool>, delta: int, trail: seq<nat>,
                        u: seq<int>, v: seq<int>, u': seq<int>, v': seq<int>)
    requires Square(cost, n) && |u| == |v| == |p| == |way| == n + 1
    requires Trail(cost, n, u, v, p, way, trail)
    requires 1 <= p[trail[|trail| - 1]] <= n
    requires Marks(n, used, trail)
    requires Shifted(n, p, used, delta, u, v, u', v')
    ensures Trail(cost, n, u', v', p, way, trail)
  {
    forall k: nat | 1 <= k < |trail| ensures Hangs(cost, n, u', v', p, way, trail, k) {
      assert Hangs(cost, n, u, v, p, way, trail, k);
      assert trail[k] in trail && way[trail[k]] in trail;
      assert used[trail[k]] && used[way[trail[k]]];
    }
  }

  lemma {:induction false} ExtendTrail(cost: Costs, n: nat, u: seq<int>, v: seq<int>, p: seq<nat>, way: seq<nat>, trail: seq<nat>, next: nat)
    requires Square(cost, n) && |u| == |v| == |p| == |way| == n + 1
    requires Trail(cost, n, u, v, p, way, trail)
    requires 1 <= p[trail[|trail| - 1]] <= n
    requires 1 <= next <= n && next !in trail
    requires way[next] in trail
    requires way[next] <= n && 1 <= p[way[next]] <= n && Slack(cost, n, u, v, p[way[next]], next) == 0
    ensures Trail(cost, n, u, v, p, way, trail + [next])
  {
    var trail' := trail + [next];
    forall k: nat | 1 <= k < |trail'| ensures Hangs(cost, n, u, v, p, way, trail', k) {
      assert trail'[..k] == trail[..k];
      if k < |trail| {
        assert Hangs(cost, n, u, v, p, way, trail, k);
      } else {
        assert trail[..k] == trail;
      }
    }
  }

  /** Relaxation leaves the predecessors of reached columns alone. */
  lemma {:induction false} TrailKeepsWay(cost: Costs, n: nat, u: seq<int>, v: seq<int>, p: seq<nat>, way: seq<nat>, way': seq<nat>, trail: seq<nat>)
    requires Square(cost, n) && |u| == |v| == |p| == |way| == |way'| == n + 1
    requires Trail(cost, n, u, v, p, way, trail)
    requires forall k: nat | k < |trail| :: way'[trail[k]] == way[trail[k]]
    ensures Trail(cost, n, u, v, p, way', trail)
  {
    forall k: nat | 1 <= k < |trail| ensures Hangs(cost, n, u, v, p, way', trail, k) {
      assert Hangs(cost, n, u, v, p, way, trail, k);
    }
  }

  // ----- the loops

  /** One sweep over the unmarked columns: relax each through the row of `column` and
      find the nearest. */
  method ScanColumns(cost: Costs, n: nat, u: array<int>, v: array<int>, row: nat, column: nat,
                     used: array<bool>, dist: array<Bound>, way: array<nat>) returns (delta: int, next: nat)
    requires Square(cost, n) && u.Length == v.Length == used.Length == dist.Length == way.Length == n + 1
    requires 1 <= row <= n && column <= n
    requires exists c: nat :: 1 <= c <= n && !used[c]
    modifies dist, way
    ensures AllRelaxed(cost, n, u[..], v[..], row, column, used[..], old(dist[..]), old(way[..]), dist[..], way[..])
    ensures Nearest(n, used[..], dist[..], next, delta)
  {
    var nearest := Infinite;
    next := 0;
    for c := 1 to n + 1
      invariant forall d: nat | 1 <= d < c && !used[d] ::
                  Relaxed(old(dist[d]), old(way[d]), Slack(cost, n, u[..], v[..], row, d), column, dist[d], way[d])
      invariant forall d: nat | c <= d <= n :: dist[d] == old(dist[d]) && way[d] == old(way[d])
      invariant forall d: nat | d <= n && used[d] :: way[d] == old(way[d])
      invariant forall d: nat | 1 <= d < c && !used[d] :: dist[d].Finite? && nearest.Finite? && nearest.value <= dist[d].value
      invariant nearest.Finite? ==> 1 <= next < c && !used[next] && dist[next] == nearest
    {
      if !used[c] {
        var current := cost[row - 1][c - 1] - u[row] - v[c];
        if Below(Finite(current), dist[c]) {
          dist[c] := Finite(current);
          way[c] := column;
        }
        if Below(dist[c], nearest) {
          nearest := dist[c];
          next := c;
        }
      }
    }
    delta := nearest.value;
  }

  /** Move the potentials of the marked columns and shorten the other distances. */
  method ShiftPotentials(n: nat, matching: array<nat>, used: array<bool>, delta: int,
                         u: array<int>, v: array<int>, dist: array<Bound>)
    requires u != v && u.Length == v.Length == used.Length == dist.Length == matching.Length == n + 1
    requires Rowed(n, matching[..], used[..]) && Injective(n, matching[..])
    modifies u, v, dist
    ensures Shifted(n, matching[..], used[..], delta, old(u[..]), old(v[..]), u[..], v[..])
    ensures Shortened(n, used[..], delta, old(dist[..]), dist[..])
  {
    ghost var moved: set<nat> := {};
    for c := 0 to n + 1
      invariant forall d: nat | d < c && used[d] :: matching[d] in moved
      invariant forall r | r in moved :: exists d: nat :: d < c && used[d] && matching[d] == r
      invariant forall r: nat | r <= n :: u[r] == old(u[r]) + if r in moved then delta else 0
      invariant forall d: nat | d <= n :: v[d] == if d < c && used[d] then old(v[d]) - delta else old(v[d])
      invariant forall d: nat | d < c && !used[d] && old(dist[d]).Finite? :: dist[d] == Finite(old(dist[d]).value - delta)
      invariant forall d: nat | c <= d <= n :: dist[d] == old(dist[d])
    {
      if used[c] {
        u[matching[c]] := u[matching[c]] + delta;
        moved := moved + {matching[c]};
        v[c] := v[c] - delta;
      } else if dist[c].Finite? {
        dist[c] := Finite(dist[c].value - delta);
      }
    }
  }

  ghost predicate Solved(cost: Costs, n: nat, u: seq<int>, v: seq<int>, p: seq<nat>, rows: nat, hole: nat) {
    Feasible(cost, n, u, v) && |p| == n + 1 && Tight(cost, n, u, v, p) && HoldsRows(n, p, rows, hole)
  }

  /** What the search keeps before each column is marked. */
  ghost predicate Growing(cost: Costs, n: nat, row: nat, u: seq<int>, v: seq<int>, p: seq<nat>, way: seq<nat>,
                          used: seq<bool>, dist: seq<Bound>, trail: seq<nat>)
  {
    && Solved(cost, n, u, v, p, row, n + 1)
    && |way| == |dist| == n + 1
    && Trail(cost, n, u, v, p, way, trail)
    && Marks(n, used, trail[..|trail| - 1])
    && (if |trail| == 1 then forall c: nat | c <= n :: dist[c] == Infinite && !used[c]
        else Frontiers(cost, n, u, v, p, way, used, dist))
  }

  lemma {:induction false} MarkLast(n: nat, used: seq<bool>, trail: seq<nat>)
    requires trail != [] && Marks(n, used, trail[..|trail| - 1]) && trail[|trail| - 1] <= n
    ensures Marks(n, used[trail[|trail| - 1] := true], trail)
  {
    assert trail == trail[..|trail| - 1] + [trail[|trail| - 1]];
  }

  lemma {:induction false} MarkedHaveRows(cost: Costs, n: nat, u: seq<int>, v: seq<int>, p: seq<nat>, way: seq<nat>, trail: seq<nat>, used: seq<bool>)
    requires Square(cost, n) && |u| == |v| == |p| == |way| == n + 1
    requires Trail(cost, n, u, v, p, way, trail) && Marks(n, used, trail)
    requires 1 <= p[trail[|trail| - 1]] <= n
    ensures Rowed(n, p, used)
  {
  }

  /** Marking the last column of the trail and scanning keeps the trail and makes the
      distances exact. */
  lemma {:induction false} ScanStep(cost: Costs, n: nat, row: nat, u: seq<int>, v: seq<int>, p: seq<nat>, column: nat, trail: seq<nat>,
                 way: seq<nat>, way': seq<nat>, used: seq<bool>, used': seq<bool>, dist: seq<Bound>, dist': seq<Bound>)
    requires Growing(cost, n, row, u, v, p, way, used, dist, trail)
    requires column == trail[|trail| - 1] && p[column] != 0
    requires used' == used[column := true]
    requires AllRelaxed(cost, n, u, v, p[column], column, used', dist, way, dist', way')
    ensures Marks(n, used', trail)
    ensures Rowed(n, p, used')
    ensures Trail(cost, n, u, v, p, way', trail)
    ensures Frontiers(cost, n, u, v, p, way', used', dist')
  {
    MarkLast(n, used, trail);
    MarkedHaveRows(cost, n, u, v, p, way, trail, used');
    RelaxKeepsFrontiers(cost, n, u, v, p, column, used, used', way, way', dist, dist');
    TrailKeepsWay(cost, n, u, v, p, way, way', trail);
  }

  /** Moving the potentials by the least distance makes the nearest column the next one of
      the trail. */
  lemma {:induction false} ShiftStep(cost: Costs, n: nat, row: nat, p: seq<nat>, way: seq<nat>, used: seq<bool>, trail: seq<nat>, next: nat, delta: int,
                  u: seq<int>, v: seq<int>, dist: seq<Bound>, u': seq<int>, v': seq<int>, dist': seq<Bound>)
    requires Solved(cost, n, u, v, p, row, n + 1) && |way| == |dist| == n + 1
    requires Trail(cost, n, u, v, p, way, trail) && Marks(n, used, trail)
    requires Rowed(n, p, used)
    requires Frontiers(cost, n, u, v, p, way, used, dist)
    requires Nearest(n, used, dist, next, delta)
    requires Shifted(n, p, used, delta, u, v, u', v')
    requires Shortened(n, used, delta, dist, dist')
    ensures Growing(cost, n, row, u', v', p, way, used, dist', trail + [next])
  {
    assert Frontier(cost, n, u, v, p, way, used, dist, next);
    assert p[way[next]] != 0 && Slack(cost, n, u, v, p[way[next]], next) >= 0;
    ShiftKeepsDual(cost, n, p, way, used, dist, delta, u, v, u', v');
    ShiftKeepsFrontiers(cost, n, p, way, used, dist, dist', delta, u, v, u', v');
    assert trail[|trail| - 1] in trail;
    ShiftKeepsTrail(cost, n, p, way, used, delta, trail, u, v, u', v');
    assert Frontier(cost, n, u', v', p, way, used, dist', next);
    ExtendTrail(cost, n, u', v', p, way, trail, next);
    assert (trail + [next])[..|trail|] == trail;
  }

  /** What a scan leaves: the trail is marked, the distances are exact and the nearest column known. */
  ghost predicate Scanned(cost: Costs, n: nat, row: nat, u: seq<int>, v: seq<int>, p: seq<nat>, way: seq<nat>,
                          used: seq<bool>, dist: seq<Bound>, trail: seq<nat>, next: nat, delta: int)
  {
    && Solved(cost, n, u, v, p, row, n + 1) && |way| == |dist| == n + 1
    && Trail(cost, n, u, v, p, way, trail) && Marks(n, used, trail) && Rowed(n, p, used)
    && Frontiers(cost, n, u, v, p, way, used, dist) && Nearest(n, used, dist, next, delta)
  }

  /** Mark the last reached column and scan from its row. */
  method MarkAndScan(cost: Costs, n: nat, row: nat, u: array<int>, v: array<int>, matching: array<nat>, predecessor: array<nat>,
                     used: array<bool>, dist: array<Bound>, column: nat, ghost trail: seq<nat>) returns (delta: int, next: nat)
    requires matching != predecessor && u.Length == v.Length == matching.Length == predecessor.Length == n + 1
    requires used.Length == dist.Length == n + 1
    requires Growing(cost, n, row, u[..], v[..], matching[..], predecessor[..], used[..], dist[..], trail)
    requires column == trail[|trail| - 1] && column <= n && matching[column] != 0
    modifies predecessor, used, dist
    ensures Scanned(cost, n, row, u[..], v[..], matching[..], predecessor[..], used[..], dist[..], trail, next, delta)
    ensures next <= n && |trail| <= n
  {
    ghost var free := FreeColumn(n, matching[..], row, trail);
    MarkLast(n, used[..], trail);
    used[column] := true;
    assert used[..] == old(used[..])[column := true];
    assert !used[..][free];
    delta, next := ScanColumns(cost, n, u, v, matching[column], column, used, dist, predecessor);
    ScanStep(cost, n, row, u[..], v[..], matching[..], column, trail, old(predecessor[..]), predecessor[..],
             old(used[..]), used[..], old(dist[..]), dist[..]);
  }

  /** One round of the search: mark the last reached column and reach the nearest one. */
  method ReachNearest(cost: Costs, n: nat, row: nat, u: array<int>, v: array<int>, matching: array<nat>, predecessor: array<nat>,
                      used: array<bool>, dist: array<Bound>, column: nat, ghost trail: seq<nat>) returns (next: nat)
    requires u != v && matching != predecessor && u.Length == v.Length == matching.Length == predecessor.Length == n + 1
    requires used.Length == dist.Length == n + 1
    requires Growing(cost, n, row, u[..], v[..], matching[..], predecessor[..], used[..], dist[..], trail)
    requires column == trail[|trail| - 1] && column <= n && matching[column] != 0
    modifies u, v, predecessor, used, dist
    ensures Growing(cost, n, row, u[..], v[..], matching[..], predecessor[..], used[..], dist[..], trail + [next])
    ensures next <= n && |trail| <= n
  {
    var delta;
    delta, next := MarkAndScan(cost, n, row, u, v, matching, predecessor, used, dist, column, trail);
    ghost var us, vs, ds := u[..], v[..], dist[..];
    assert Injective(n, matching[..]);
    ShiftPotentials(n, matching, used, delta, u, v, dist);
    ShiftStep(cost, n, row, matching[..], predecessor[..], used[..], trail, next, delta, us, vs, ds, u[..], v[..], dist[..]);
  }

  /** Grow the search tree from the artificial column until it reaches a free column. */
  method GrowTree(cost: Costs, n: nat, row: nat, u: array<int>, v: array<int>, matching: array<nat>, predecessor: array<nat>)
    returns (column: nat, ghost trail: seq<nat>)
    requires u != v && matching != predecessor && u.Length == v.Length == matching.Length == predecessor.Length == n + 1
    requires 1 <= row <= n && matching[0] == row
    requires Solved(cost, n, u[..], v[..], matching[..], row, n + 1)
    modifies u, v, predecessor
    ensures matching[..] == old(matching[..])
    ensures Solved(cost, n, u[..], v[..], matching[..], row, n + 1)
    ensures Trail(cost, n, u[..], v[..], matching[..], predecessor[..], trail)
    ensures column == trail[|trail| - 1] && column <= n && matching[column] == 0
  {
    var dist := new Bound[n + 1](_ => Infinite);
    var used := new bool[n + 1](_ => false);
    column := 0;
    trail := [0];
    assert Growing(cost, n, row, u[..], v[..], matching[..], predecessor[..], used[..], dist[..], trail);
    while matching[column] != 0
      invariant Growing(cost, n, row, u[..], v[..], matching[..], predecessor[..], used[..], dist[..], trail)
      invariant column == trail[|trail| - 1] && column <= n
      decreases n + 1 - |trail|
    {
      var next := ReachNearest(cost, n, row, u, v, matching, predecessor, used, dist, column, trail);
      trail := trail + [next];
      column := next;
    }
  }

  /** Rows handed down to the hole: the hole moves to `previous`. */
  lemma {:induction false} MoveHole(n: nat, p: seq<nat>, p': seq<nat>, rows: nat, column: nat, previous: nat)
    requires HoldsRows(n, p, rows, column) && column <= n && previous <= n && previous != column
    requires p' == p[column := p[previous]]
    ensures HoldsRows(n, p', rows, previous)
  {
    forall r: nat | 1 <= r <= rows ensures Held(n, p', previous, r) {
      assert Held(n, p, column, r);
      var c: nat :| c <= n && c != column && p[c] == r;
      assert p'[if c == previous then column else c] == r;
    }
  }

  /** Tightness everywhere but at the hole. */
  ghost predicate TightBut(cost: Costs, n: nat, u: seq<int>, v: seq<int>, p: seq<nat>, hole: nat)
    requires Square(cost, n) && |u| == |v| == |p| == n + 1
  {
    forall c: nat | 1 <= c <= n && c != hole && p[c] != 0 :: p[c] <= n && Slack(cost, n, u, v, p[c], c) == 0
  }

  /** Pass the rows one column down the trail until the artificial column is free again. */
  method Augment(cost: Costs, n: nat, row: nat, start: nat, ghost u: seq<int>, ghost v: seq<int>, ghost trail: seq<nat>,
                 matching: array<nat>, predecessor: array<nat>)
    requires matching != predecessor && matching.Length == predecessor.Length == n + 1
    requires Solved(cost, n, u, v, matching[..], row, n + 1)
    requires Trail(cost, n, u, v, matching[..], predecessor[..], trail)
    requires |trail| > 1 && start == trail[|trail| - 1] && start <= n && matching[start] == 0
    modifies matching
    ensures Solved(cost, n, u, v, matching[..], row, 0)
  {
    ghost var p, way := matching[..], predecessor[..];
    var column := start;
    ghost var k: nat := |trail| - 1;
    assert HoldsRows(n, p, row, start) by {
      assert forall r: nat | 1 <= r <= row :: Held(n, p, n + 1, r) ==> Held(n, p, start, r);
    }
    while column != 0
      invariant k < |trail| && column == trail[k] && column <= n
      invariant forall j: nat | j < k :: matching[..][trail[j]] == p[trail[j]]
      invariant HoldsRows(n, matching[..], row, column)
      invariant TightBut(cost, n, u, v, matching[..], column)
      decreases k
    {
      assert Hangs(cost, n, u, v, p, way, trail, k);
      var previous := predecessor[column];
      ghost var j: nat :| j < k && trail[j] == previous;
      ghost var q := matching[..];
      matching[column] := matching[previous];
      assert matching[..] == q[column := q[previous]];
      MoveHole(n, q, matching[..], row, column, previous);
      column := previous;
      k := j;
    }
  }

  // ----- optimality

  /** A cover charges rows and columns, and every pair is paid for by its two charges. */
  ghost predicate Covers(y: seq<int>, z: seq<int>, scores: Scores, pairs: seq<Cell>) {
    && (forall r | 0 <= r < |y| :: y[r] >= 0) && (forall c | 0 <= c < |z| :: z[c] >= 0)
    && forall i | 0 <= i < |pairs| :: Paid(y, z, scores, pairs[i])
  }

  ghost predicate Paid(y: seq<int>, z: seq<int>, scores: Scores, p: Cell) {
    p in scores && p.0 < |y| && p.1 < |z| && scores[p] + ONE <= y[p.0] + z[p.1]
  }

  /** Weak duality: independent pairs weigh at most the total charge. */
  lemma {:induction false} WeakDuality(y: seq<int>, z: seq<int>, scores: Scores, pairs: seq<Cell>)
    requires Covers(y, z, scores, pairs) && Inside(scores, pairs) && Independent(pairs)
    ensures TotalWeight(scores, pairs) <= Sum(y) + Sum(z)
    decreases |pairs|
  {
    if pairs == [] {
      SumNonNegative(y);
      SumNonNegative(z);
    } else {
      var p := pairs[0];
      assert Paid(y, z, scores, p);
      var y', z' := y[p.0 := 0], z[p.1 := 0];
      SumUpdate(y, p.0, 0);
      SumUpdate(z, p.1, 0);
      var rest := pairs[1..];
      forall i | 0 <= i < |rest| ensures Paid(y', z', scores, rest[i]) {
        assert Paid(y, z, scores, pairs[i + 1]);
      }
      WeakDuality(y', z', scores, rest);
    }
  }

  /** The costs encode the scores: a cell of the table is cheaper than a missing one by
      its weight. */
  ghost predicate Encodes(cost: Costs, n: nat, scores: Scores, missing: int) {
    && Square(cost, n)
    && (forall r: nat, c: nat | r < n && c < n :: cost[r][c] == missing - CellWeight(scores, r, c))
    && (forall p | p in scores :: p.0 < n && p.1 < n)
  }

  ghost function CellWeight(scores: Scores, r: nat, c: nat): nat {
    if (r, c) in scores then scores[(r, c)] + ONE else 0
  }

  /** The charges that potentials stand for, with t the largest column potential. */
  ghost predicate Charges(n: nat, u: seq<int>, v: seq<int>, missing: int, t: int, y: seq<int>, z: seq<int>) {
    && |u| == |v| == n + 1 && |y| == |z| == n
    && (forall r | 0 <= r < n :: y[r] == missing - u[r + 1] - t)
    && (forall c | 0 <= c < n :: z[c] == t - v[c + 1])
  }

  lemma {:induction false} Largest(v: seq<int>, n: nat) returns (k: nat)
    requires 1 <= n < |v|
    ensures 1 <= k <= n && forall c | 1 <= c <= n :: v[c] <= v[k]
  {
    if n == 1 {
      k := 1;
    } else {
      k := Largest(v, n - 1);
      if v[k] < v[n] {
        k := n;
      }
    }
  }

  /** Feasible potentials charge non-negative amounts that pay for every cell of the table. */
  lemma {:induction false} PotentialsCover(cost: Costs, n: nat, u: seq<int>, v: seq<int>, scores: Scores, missing: int)
    returns (y: seq<int>, z: seq<int>, t: int)
    requires n > 0 && Feasible(cost, n, u, v) && Encodes(cost, n, scores, missing)
    ensures Charges(n, u, v, missing, t, y, z)
    ensures forall pairs | Inside(scores, pairs) :: Covers(y, z, scores, pairs)
  {
    var k := Largest(v, n);
    t := v[k];
    y := seq(n, r requires 0 <= r < n => missing - u[r + 1] - t);
    z := seq(n, c requires 0 <= c < n => t - v[c + 1]);
    forall r: nat | r < n ensures y[r] >= 0 {
      assert Slack(cost, n, u, v, r + 1, k) >= 0;
    }
    forall p | p in scores ensures Paid(y, z, scores, p) {
      assert Slack(cost, n, u, v, p.0 + 1, p.1 + 1) >= 0;
    }
  }

  /** Holding all n rows in n columns leaves no column free. */
  lemma {:induction false} NoFreeColumn(n: nat, p: seq<nat>)
    requires HoldsRows(n, p, n, 0)
    ensures forall c: nat | 1 <= c <= n :: p[c] != 0
  {
    var columnOf := seq(n, (r: nat) requires r < n =>
      assert Held(n, p, 0, r + 1); var d: nat :| d <= n && d != 0 && p[d] == r + 1; d);
    forall j: nat, k: nat | j < k < |columnOf| ensures columnOf[j] != columnOf[k] {
      assert p[columnOf[j]] == j + 1 && p[columnOf[k]] == k + 1;
    }
    DistinctWithin(columnOf, 1, n + 1);
    forall c: nat | 1 <= c <= n ensures p[c] != 0 {
      assert c in columnOf;
      var k: nat :| k < n && columnOf[k] == c;
      assert p[columnOf[k]] == k + 1;
    }
  }

  /** The pairs are the cells of the table that the first c columns hold. */
  ghost predicate ReadOff(n: nat, p: seq<nat>, scores: Scores, pairs: seq<Cell>, c: nat) {
    && |p| == n + 1 && c <= n
    && (forall d: nat | 1 <= d <= n :: 1 <= p[d] <= n)
    && Inside(scores, pairs) && Independent(pairs)
    && forall q | q in pairs :: q.1 < c && p[q.1 + 1] == q.0 + 1
  }

  function Next(p: seq<nat>, scores: Scores, pairs: seq<Cell>, c: nat): seq<Cell>
    requires c + 1 < |p| && p[c + 1] != 0
  {
    if (p[c + 1] - 1, c) in scores then pairs + [(p[c + 1] - 1, c)] else pairs
  }

  lemma {:induction false} ReadOffNext(n: nat, p: seq<nat>, scores: Scores, pairs: seq<Cell>, c: nat)
    requires ReadOff(n, p, scores, pairs, c) && HoldsRows(n, p, n, 0) && c < n
    ensures ReadOff(n, p, scores, Next(p, scores, pairs, c), c + 1)
  {
    var pairs' := Next(p, scores, pairs, c);
    forall i, j | 0 <= i < j < |pairs'| ensures pairs'[i].0 != pairs'[j].0 && pairs'[i].1 != pairs'[j].1 {
      assert pairs'[i] in pairs;
      if j == |pairs| {
        assert pairs'[j] == (p[c + 1] - 1, c);
      }
    }
  }

  /** The charges of the first c columns and of their rows are spent. */
  ghost predicate Spent(n: nat, p: seq<nat>, c: nat, y: seq<int>, z: seq<int>, y': seq<int>, z': seq<int>) {
    && |p| == n + 1 && |y| == |z| == |y'| == |z'| == n && c <= n
    && (forall r: nat | r < n :: y'[r] == if r + 1 in p[1..c + 1] then 0 else y[r])
    && (forall d: nat | d < n :: z'[d] == if d < c then 0 else z[d])
  }

  lemma {:induction false} SpendNext(n: nat, p: seq<nat>, c: nat, y: seq<int>, z: seq<int>, y': seq<int>, z': seq<int>)
    requires Spent(n, p, c, y, z, y', z') && HoldsRows(n, p, n, 0) && c < n && p[c + 1] != 0
    ensures Spent(n, p, c + 1, y, z, y'[p[c + 1] - 1 := 0], z'[c := 0])
    ensures Sum(y') + Sum(z') == Sum(y'[p[c + 1] - 1 := 0]) + Sum(z'[c := 0]) + y[p[c + 1] - 1] + z[c]
  {
    assert p[1..c + 2] == p[1..c + 1] + [p[c + 1]];
    assert p[c + 1] !in p[1..c + 1];
    SumUpdate(y', p[c + 1] - 1, 0);
    SumUpdate(z', c, 0);
  }

  lemma {:induction false} AllSpent(n: nat, p: seq<nat>, y: seq<int>, z: seq<int>, y': seq<int>, z': seq<int>)
    requires Spent(n, p, n, y, z, y', z') && HoldsRows(n, p, n, 0)
    ensures Sum(y') == 0 && Sum(z') == 0
  {
    forall r: nat | r < n ensures y'[r] == 0 {
      assert Held(n, p, 0, r + 1);
      var c: nat :| c <= n && c != 0 && p[c] == r + 1;
      assert p[1..n + 1][c - 1] == r + 1;
    }
    SumZeros(y');
    SumZeros(z');
  }

  lemma {:induction false} NextWeight(p: seq<nat>, scores: Scores, pairs: seq<Cell>, c: nat)
    requires c + 1 < |p| && p[c + 1] != 0 && Inside(scores, pairs)
    ensures Inside(scores, Next(p, scores, pairs, c))
    ensures TotalWeight(scores, Next(p, scores, pairs, c)) == TotalWeight(scores, pairs) + CellWeight(scores, p[c + 1] - 1, c)
  {
    if (p[c + 1] - 1, c) in scores {
      TotalScoreAppend(scores, pairs, (p[c + 1] - 1, c));
    }
  }

  /** A tight cell spends exactly its weight. */
  lemma {:induction false} TightCellSpends(cost: Costs, n: nat, u: seq<int>, v: seq<int>, scores: Scores, missing: int, t: int, y: seq<int>, z: seq<int>,
                        p: seq<nat>, c: nat)
    requires Square(cost, n) && |u| == |v| == |p| == n + 1 && Tight(cost, n, u, v, p)
    requires Encodes(cost, n, scores, missing)
    requires Charges(n, u, v, missing, t, y, z)
    requires c < n && 1 <= p[c + 1] <= n
    ensures CellWeight(scores, p[c + 1] - 1, c) == y[p[c + 1] - 1] + z[c]
  {
    assert Slack(cost, n, u, v, p[c + 1], c + 1) == 0;
  }

  /** What the final loop keeps: the weight read so far and the charges left add up. */
  ghost predicate Reading(n: nat, p: seq<nat>, scores: Scores, pairs: seq<Cell>, c: nat,
                          y: seq<int>, z: seq<int>, y': seq<int>, z': seq<int>)
  {
    && ReadOff(n, p, scores, pairs, c)
    && Spent(n, p, c, y, z, y', z')
    && TotalWeight(scores, pairs) + Sum(y') + Sum(z') == Sum(y) + Sum(z)
  }

  lemma {:induction false} ReadStep(n: nat, p: seq<nat>, scores: Scores, pairs: seq<Cell>, c: nat, y: seq<int>, z: seq<int>, y': seq<int>, z': seq<int>)
    requires Reading(n, p, scores, pairs, c, y, z, y', z') && HoldsRows(n, p, n, 0) && c < n
    requires CellWeight(scores, p[c + 1] - 1, c) == y[p[c + 1] - 1] + z[c]
    ensures Reading(n, p, scores, Next(p, scores, pairs, c), c + 1, y, z, y'[p[c + 1] - 1 := 0], z'[c := 0])
  {
    ReadOffNext(n, p, scores, pairs, c);
    NextWeight(p, scores, pairs, c);
    SpendNext(n, p, c, y, z, y', z');
  }

  /** The final loop of the solver: keep the matched cells that are in the table. */
  method ReadPairs(scores: Scores, n: nat, trackCount: nat, detectionCount: nat, matching: array<nat>,
                   ghost y: seq<int>, ghost z: seq<int>) returns (pairs: seq<Cell>)
    requires matching.Length == n + 1 && |y| == |z| == n
    requires HoldsRows(n, matching[..], n, 0)
    requires forall p | p in scores :: p.0 < trackCount && p.1 < detectionCount
    requires forall c: nat | c < n && 1 <= matching[c + 1] <= n ::
               CellWeight(scores, matching[c + 1] - 1, c) == y[matching[c + 1] - 1] + z[c]
    ensures Inside(scores, pairs) && Independent(pairs)
    ensures TotalWeight(scores, pairs) == Sum(y) + Sum(z)
  {
    ghost var p := matching[..];
    NoFreeColumn(n, p);
    pairs := [];
    ghost var y', z' := y, z;
    for c := 0 to n
      invariant Reading(n, p, scores, pairs, c, y, z, y', z')
    {
      ReadStep(n, p, scores, pairs, c, y, z, y', z');
      var row: nat := matching[c + 1] - 1;
      y', z' := y'[row := 0], z'[c := 0];
      if row < trackCount && c < detectionCount && (row, c) in scores {
        pairs := pairs + [(row, c)];
      }
    }
    AllSpent(n, p, y, z, y', z');
  }

  /** No matching of the table has a larger sum of (score + 1). */
  ghost predicate MaximisesWeight(scores: Scores, pairs: seq<Cell>) {
    && IsMatching(scores, pairs)
    && forall other | IsMatching(scores, other) :: TotalWeight(scores, other) <= TotalWeight(scores, pairs)
  }

  lemma {:induction false} AttainedIsOptimal(scores: Scores, pairs: seq<Cell>, y: seq<int>, z: seq<int>)
    requires Inside(scores, pairs) && Independent(pairs) && TotalWeight(scores, pairs) == Sum(y) + Sum(z)
    requires forall other | Inside(scores, other) :: Covers(y, z, scores, other)
    ensures MaximisesWeight(scores, SortCells(pairs))
  {
    SortedIsMatching(scores, pairs);
    forall other | IsMatching(scores, other) ensures TotalWeight(scores, other) <= TotalWeight(scores, SortCells(pairs)) {
      WeakDuality(y, z, scores, other);
    }
  }

  /** The largest score of a non-empty table. */
  method MaxScore(scores: Scores) returns (top: nat)
    requires scores != map[]
    ensures forall p | p in scores :: scores[p] <= top
    ensures exists p :: p in scores && scores[p] == top
  {
    var first :| first in scores;
    top := scores[first];
    var rest := scores.Keys - {first};
    ghost var best := first;
    while rest != {}
      invariant rest <= scores.Keys
      invariant best in scores && scores[best] == top
      invariant forall p | p in scores && p !in rest :: scores[p] <= top
      decreases |rest|
    {
      var p :| p in rest;
      if top < scores[p] {
        top := scores[p];
        best := p;
      }
      rest := rest - {p};
    }
  }

  lemma {:induction false} EnterRow(n: nat, p: seq<nat>, p': seq<nat>, row: nat)
    requires 1 <= row <= n && HoldsRows(n, p, row - 1, 0) && p' == p[0 := row]
    ensures HoldsRows(n, p', row, n + 1)
  {
    var hole := n + 1;
    forall r: nat | 1 <= r <= row ensures Held(n, p', hole, r) {
      if r == row {
        assert p'[0] == r;
      } else {
        assert Held(n, p, 0, r);
        var c: nat :| c <= n && c != 0 && p[c] == r;
        assert p'[c] == r;
      }
    }
  }

  /** One row of the outer loop: the matching grows by one row and stays optimal. */
  method InsertRow(cost: Costs, n: nat, row: nat, u: array<int>, v: array<int>, matching: array<nat>, predecessor: array<nat>)
    requires u != v && matching != predecessor && u.Length == v.Length == matching.Length == predecessor.Length == n + 1
    requires 1 <= row <= n
    requires Solved(cost, n, u[..], v[..], matching[..], row - 1, 0)
    modifies u, v, matching, predecessor
    ensures Solved(cost, n, u[..], v[..], matching[..], row, 0)
  {
    ghost var p := matching[..];
    matching[0] := row;
    EnterRow(n, p, matching[..], row);
    assert Tight(cost, n, u[..], v[..], matching[..]);
    var column; ghost var trail;
    column, trail := GrowTree(cost, n, row, u, v, matching, predecessor);
    assert matching[..][0] == row;
    Augment(cost, n, row, column, u[..], v[..], trail, matching, predecessor);
  }

  /** Insert row after row. */
  method SolveRows(cost: Costs, n: nat) returns (matching: array<nat>, ghost u: seq<int>, ghost v: seq<int>)
    requires Square(cost, n)
    requires forall r: nat, c: nat | r < n && c < n :: cost[r][c] >= 0
    ensures matching.Length == n + 1 && fresh(matching)
    ensures Solved(cost, n, u, v, matching[..], n, 0)
  {
    var potentialsU := new int[n + 1](_ => 0);
    var potentialsV := new int[n + 1](_ => 0);
    var predecessor := new nat[n + 1](_ => 0);
    matching := new nat[n + 1](_ => 0);
    assert Feasible(cost, n, potentialsU[..], potentialsV[..]);
    for row := 1 to n + 1
      invariant Solved(cost, n, potentialsU[..], potentialsV[..], matching[..], row - 1, 0)
    {
      InsertRow(cost, n, row, potentialsU, potentialsV, matching, predecessor);
    }
    u, v := potentialsU[..], potentialsV[..];
  }

  lemma {:induction false} OnlyEmptyMatching(scores: Scores)
    requires scores == map[]
    ensures MaximisesWeight(scores, [])
  {
    assert forall other: seq<Cell> | Inside(scores, other) :: other == [] || other[0] in scores;
  }

  /** The whole solver.  The table may only be empty when there is nothing to assign:
      the solver takes the maximum of its scores. */
  method AssignmentPairs(scores: Scores, trackCount: nat, detectionCount: nat) returns (pairs: seq<Cell>)
    requires scores != map[] || (trackCount == 0 && detectionCount == 0)
    requires forall p | p in scores :: p.0 < trackCount && p.1 < detectionCount
    ensures MaximisesWeight(scores, pairs)
  {
    var n := if trackCount < detectionCount then detectionCount else trackCount;
    if n == 0 {
      OnlyEmptyMatching(scores);
      return [];
    }
    var top := MaxScore(scores);
    var cost := CostTable(scores, n, top);
    var matching; ghost var u, v;
    matching, u, v := SolveRows(cost, n);
    ghost var y, z, t := PotentialsCover(cost, n, u, v, scores, top + ONE);
    forall c: nat | c < n && 1 <= matching[c + 1] <= n
      ensures CellWeight(scores, matching[c + 1] - 1, c) == y[matching[c + 1] - 1] + z[c]
    {
      TightCellSpends(cost, n, u, v, scores, top + ONE, t, y, z, matching[..], c);
    }
    pairs := ReadPairs(scores, n, trackCount, detectionCount, matching, y, z);
    AttainedIsOptimal(scores, pairs, y, z);
    pairs := SortCells(pairs);
  }
}
