/** The exact solver of the tracker: dynamic programming over the tracks and the bit mask
    of used detections, with a memo table and a three-level tie-break. */
module ExactAssignment {
  import opened Matchings
  import opened Hungarian

  // ----- bit masks

  predicate HasBit(mask: nat, d: nat)
    decreases d
  {
    if d == 0 then mask % 2 == 1 else HasBit(mask / 2, d - 1)
  }

  /** The mask with bit d set, as the bitwise or with 2^d. */
  function SetBit(mask: nat, d: nat): nat
    decreases d
  {
    if d == 0 then 2 * (mask / 2) + 1 else 2 * SetBit(mask / 2, d - 1) + mask % 2
  }

  lemma {:induction false} SetBitHas(mask: nat, d: nat, e: nat)
    ensures HasBit(SetBit(mask, d), e) <==> e == d || HasBit(mask, e)
    decreases d
  {
    if d > 0 && e > 0 {
      SetBitHas(mask / 2, d - 1, e - 1);
    }
  }

  lemma {:induction false} NoBits(d: nat)
    ensures !HasBit(0, d)
  {
    if d > 0 {
      NoBits(d - 1);
    }
  }

  // ----- plans and their order

  datatype Plan = Plan(score: nat, pairs: seq<Cell>)

  function PlanOf(scores: Scores, pairs: seq<Cell>): Plan
    requires Inside(scores, pairs)
  {
    Plan(TotalScore(scores, pairs), pairs)
  }

  /** Order of Python's tuples of pairs. */
  predicate PairsLess(a: seq<Cell>, b: seq<Cell>) {
    if a == [] || b == [] then a == [] && b != []
    else CellLess(a[0], b[0]) || (a[0] == b[0] && PairsLess(a[1..], b[1..]))
  }

  /** Higher score first, then more pairs, then the smaller list of pairs. */
  predicate Better(candidate: Plan, current: Plan) {
    || candidate.score > current.score
    || (candidate.score == current.score && |candidate.pairs| > |current.pairs|)
    || (candidate.score == current.score && |candidate.pairs| == |current.pairs| && PairsLess(candidate.pairs, current.pairs))
  }

  ghost predicate AtLeast(a: Plan, b: Plan) {
    a == b || Better(a, b)
  }

  lemma {:induction false} PairsLessTransitive(a: seq<Cell>, b: seq<Cell>, c: seq<Cell>)
    requires PairsLess(a, b) && PairsLess(b, c)
    ensures PairsLess(a, c)
  {
    if a != [] && a[0] == b[0] && b[0] == c[0] {
      PairsLessTransitive(a[1..], b[1..], c[1..]);
    }
  }

  lemma {:induction false} PairsLessTotal(a: seq<Cell>, b: seq<Cell>)
    ensures a == b || PairsLess(a, b) || PairsLess(b, a)
    ensures !(PairsLess(a, b) && PairsLess(b, a))
  {
    if a != [] && b != [] {
      PairsLessTotal(a[1..], b[1..]);
      if a[1..] == b[1..] && a[0] == b[0] {
        assert a == [a[0]] + a[1..] && b == [b[0]] + b[1..];
      }
    }
  }

  lemma {:induction false} BetterTransitive(a: Plan, b: Plan, c: Plan)
    requires AtLeast(a, b) && AtLeast(b, c)
    ensures AtLeast(a, c)
  {
    if PairsLess(a.pairs, b.pairs) && PairsLess(b.pairs, c.pairs) {
      PairsLessTransitive(a.pairs, b.pairs, c.pairs);
    }
  }

  /** The tie-break leaves no ties. */
  lemma {:induction false} BetterTotal(a: Plan, b: Plan)
    ensures AtLeast(a, b) || AtLeast(b, a)
    ensures AtLeast(a, b) && AtLeast(b, a) ==> a == b
  {
    PairsLessTotal(a.pairs, b.pairs);
  }

  function Prepend(score: nat, p: Cell, plan: Plan): Plan {
    Plan(score + plan.score, [p] + plan.pairs)
  }

  lemma {:induction false} PrependMonotone(score: nat, p: Cell, a: Plan, b: Plan)
    requires AtLeast(a, b)
    ensures AtLeast(Prepend(score, p, a), Prepend(score, p, b))
  {
    assert ([p] + a.pairs)[1..] == a.pairs && ([p] + b.pairs)[1..] == b.pairs;
  }

  // ----- the recursion

  /** A score table over positions below the two counts. */
  ghost predicate Within(scores: Scores, tracks: nat, detections: nat) {
    forall p | p in scores :: p.0 < tracks && p.1 < detections
  }

  /** The plain recursion: the best plan for the tracks from `track` on. */
  function Best(scores: Scores, tracks: nat, detections: nat, track: nat, mask: nat): Plan
    decreases tracks - track, 1, 0
  {
    if track >= tracks then Plan(0, []) else BestUpTo(scores, tracks, detections, track, mask, detections)
  }

  /** The best plan that leaves `track` out or gives it a detection below `limit`. */
  function BestUpTo(scores: Scores, tracks: nat, detections: nat, track: nat, mask: nat, limit: nat): Plan
    requires track < tracks
    decreases tracks - track, 0, limit
  {
    if limit == 0 then Best(scores, tracks, detections, track + 1, mask)
    else
      var best := BestUpTo(scores, tracks, detections, track, mask, limit - 1);
      var d := limit - 1;
      if HasBit(mask, d) || (track, d) !in scores then best
      else
        var candidate := Prepend(scores[(track, d)], (track, d), Best(scores, tracks, detections, track + 1, SetBit(mask, d)));
        if Better(candidate, best) then candidate else best
  }

  /** The matchings the recursion ranges over. */
  ghost predicate Available(scores: Scores, track: nat, mask: nat, pairs: seq<Cell>) {
    && IsMatching(scores, pairs)
    && forall i | 0 <= i < |pairs| :: track <= pairs[i].0 && !HasBit(mask, pairs[i].1)
  }

  /** The plan is one of the available matchings, and every other one is worse. */
  ghost predicate IsBest(scores: Scores, track: nat, mask: nat, plan: Plan) {
    && Available(scores, track, mask, plan.pairs)
    && plan == PlanOf(scores, plan.pairs)
    && forall other: seq<Cell> | Available(scores, track, mask, other) :: AtLeast(plan, PlanOf(scores, other))
  }

  lemma {:induction false} BestIsUnique(scores: Scores, track: nat, mask: nat, a: Plan, b: Plan)
    requires IsBest(scores, track, mask, a) && IsBest(scores, track, mask, b)
    ensures a == b
  {
    BetterTotal(a, b);
    assert AtLeast(a, PlanOf(scores, b.pairs)) && AtLeast(b, PlanOf(scores, a.pairs));
  }

  lemma {:induction false} AvailableTail(scores: Scores, track: nat, mask: nat, pairs: seq<Cell>)
    requires pairs != [] && Available(scores, track, mask, pairs) && pairs[0].0 == track
    ensures Available(scores, track + 1, SetBit(mask, pairs[0].1), pairs[1..])
    ensures PlanOf(scores, pairs) == Prepend(scores[pairs[0]], pairs[0], PlanOf(scores, pairs[1..]))
  {
    assert pairs == [pairs[0]] + pairs[1..];
    var rest := pairs[1..];
    forall i | 0 <= i < |rest| ensures track + 1 <= rest[i].0 && !HasBit(SetBit(mask, pairs[0].1), rest[i].1) {
      assert rest[i] == pairs[i + 1];
      SetBitHas(mask, pairs[0].1, rest[i].1);
    }
  }

  lemma {:induction false} AvailablePrepend(scores: Scores, track: nat, mask: nat, d: nat, pairs: seq<Cell>)
    requires Available(scores, track + 1, SetBit(mask, d), pairs) && (track, d) in scores && !HasBit(mask, d)
    ensures Available(scores, track, mask, [(track, d)] + pairs)
    ensures PlanOf(scores, [(track, d)] + pairs) == Prepend(scores[(track, d)], (track, d), PlanOf(scores, pairs))
  {
    var all := [(track, d)] + pairs;
    assert all[1..] == pairs;
    forall i | 0 <= i < |pairs| ensures d != pairs[i].1 && !HasBit(mask, pairs[i].1) {
      SetBitHas(mask, d, pairs[i].1);
    }
  }

  /** Matchings that leave `track` out or give it a detection below `limit`. */
  ghost predicate AvailableUpTo(scores: Scores, track: nat, mask: nat, limit: nat, pairs: seq<Cell>) {
    Available(scores, track, mask, pairs) && (pairs != [] && pairs[0].0 == track ==> pairs[0].1 < limit)
  }

  ghost predicate IsBestUpTo(scores: Scores, track: nat, mask: nat, limit: nat, plan: Plan) {
    && AvailableUpTo(scores, track, mask, limit, plan.pairs)
    && plan == PlanOf(scores, plan.pairs)
    && forall other: seq<Cell> | AvailableUpTo(scores, track, mask, limit, other) :: AtLeast(plan, PlanOf(scores, other))
  }

  /** One more detection considered by the loop. */
  lemma {:induction false} ConsiderDetection(scores: Scores, track: nat, mask: nat, d: nat, best: Plan, next: Plan)
    requires IsBestUpTo(scores, track, mask, d, best)
    requires !HasBit(mask, d) && (track, d) in scores
    requires IsBest(scores, track + 1, SetBit(mask, d), next)
    ensures var candidate := Prepend(scores[(track, d)], (track, d), next);
            IsBestUpTo(scores, track, mask, d + 1, if Better(candidate, best) then candidate else best)
  {
    var candidate := Prepend(scores[(track, d)], (track, d), next);
    AvailablePrepend(scores, track, mask, d, next.pairs);
    BetterTotal(candidate, best);
    var winner := if Better(candidate, best) then candidate else best;
    forall other: seq<Cell> | AvailableUpTo(scores, track, mask, d + 1, other) ensures AtLeast(winner, PlanOf(scores, other)) {
      if other != [] && other[0] == (track, d) {
        AvailableTail(scores, track, mask, other);
        PrependMonotone(scores[(track, d)], (track, d), next, PlanOf(scores, other[1..]));
        BetterTransitive(winner, candidate, PlanOf(scores, other));
      } else {
        assert AvailableUpTo(scores, track, mask, d, other);
        BetterTransitive(winner, best, PlanOf(scores, other));
      }
    }
  }

  lemma {:induction false} SkipDetection(scores: Scores, track: nat, mask: nat, d: nat, best: Plan)
    requires IsBestUpTo(scores, track, mask, d, best)
    requires HasBit(mask, d) || (track, d) !in scores
    ensures IsBestUpTo(scores, track, mask, d + 1, best)
  {
    forall other: seq<Cell> | AvailableUpTo(scores, track, mask, d + 1, other) ensures AvailableUpTo(scores, track, mask, d, other) {
      if other != [] {
        assert other[0] in scores && !HasBit(mask, other[0].1);
      }
    }
  }

  lemma {:induction false} LeaveOut(scores: Scores, track: nat, mask: nat, best: Plan)
    requires IsBest(scores, track + 1, mask, best)
    ensures IsBestUpTo(scores, track, mask, 0, best)
  {
    forall other: seq<Cell> | AvailableUpTo(scores, track, mask, 0, other) ensures Available(scores, track + 1, mask, other) {
      forall i | 0 <= i < |other| ensures track + 1 <= other[i].0 {
        assert other[0].0 <= other[i].0;
      }
    }
  }

  /** The recursion finds the best of all available matchings. */
  lemma {:induction false} BestIsBest(scores: Scores, tracks: nat, detections: nat, track: nat, mask: nat)
    requires Within(scores, tracks, detections)
    ensures IsBest(scores, track, mask, Best(scores, tracks, detections, track, mask))
    decreases tracks - track, 1, 0
  {
    if track >= tracks {
      forall other: seq<Cell> | Available(scores, track, mask, other) ensures other == [] {
        assert other == [] || (other[0] in scores && track <= other[0].0);
      }
    } else {
      BestUpToIsBest(scores, tracks, detections, track, mask, detections);
      var best := BestUpTo(scores, tracks, detections, track, mask, detections);
      forall other: seq<Cell> | Available(scores, track, mask, other) ensures AtLeast(best, PlanOf(scores, other)) {
        assert other != [] ==> other[0] in scores;
        assert AvailableUpTo(scores, track, mask, detections, other);
      }
    }
  }

  lemma {:induction false} BestUpToIsBest(scores: Scores, tracks: nat, detections: nat, track: nat, mask: nat, limit: nat)
    requires Within(scores, tracks, detections) && track < tracks
    ensures IsBestUpTo(scores, track, mask, limit, BestUpTo(scores, tracks, detections, track, mask, limit))
    decreases tracks - track, 0, limit
  {
    if limit == 0 {
      BestIsBest(scores, tracks, detections, track + 1, mask);
      LeaveOut(scores, track, mask, Best(scores, tracks, detections, track + 1, mask));
    } else {
      var d := limit - 1;
      BestUpToIsBest(scores, tracks, detections, track, mask, d);
      var best := BestUpTo(scores, tracks, detections, track, mask, d);
      if HasBit(mask, d) || (track, d) !in scores {
        SkipDetection(scores, track, mask, d, best);
      } else {
        BestIsBest(scores, tracks, detections, track + 1, SetBit(mask, d));
        ConsiderDetection(scores, track, mask, d, best, Best(scores, tracks, detections, track + 1, SetBit(mask, d)));
      }
    }
  }

  /** The canonical best matching of the whole table: highest total score, then most pairs,
      then the least list of pairs. */
  ghost predicate CanonicalBest(scores: Scores, pairs: seq<Cell>) {
    && IsMatching(scores, pairs)
    && forall other: seq<Cell> | IsMatching(scores, other) :: AtLeast(PlanOf(scores, pairs), PlanOf(scores, other))
  }

  /** The first list is smaller: at the first place where they differ it has the earlier pair, or it
      is a part of the other. */
  ghost predicate ComesBefore(a: seq<Cell>, b: seq<Cell>) {
    || (|a| < |b| && a == b[..|a|])
    || exists k :: 0 <= k < |a| && k < |b| && a[..k] == b[..k] && (a[k].0 < b[k].0 || (a[k].0 == b[k].0 && a[k].1 < b[k].1))
  }

  lemma {:induction false} PairsLessIff(a: seq<Cell>, b: seq<Cell>)
    requires PairsLess(a, b)
    ensures ComesBefore(a, b)
  {
    if a != [] && a[0] == b[0] {
      PairsLessIff(a[1..], b[1..]);
      assert a == [a[0]] + a[1..] && b == [b[0]] + b[1..];
      if |a| < |b| && a[1..] == b[1..][..|a| - 1] {
        assert a == b[..|a|];
      } else {
        var k :| 0 <= k < |a| - 1 && k < |b| - 1 && a[1..][..k] == b[1..][..k]
                 && (a[1..][k].0 < b[1..][k].0 || (a[1..][k].0 == b[1..][k].0 && a[1..][k].1 < b[1..][k].1));
        assert a[..k + 1] == [a[0]] + a[1..][..k] && b[..k + 1] == [b[0]] + b[1..][..k];
      }
    } else if a != [] {
      assert a[..0] == b[..0];
    }
  }

  /** Any other matching scores less, or as much with fewer pairs, or as much with as many pairs and
      a later list. */
  lemma {:induction false} CanonicalMeans(scores: Scores, pairs: seq<Cell>, other: seq<Cell>)
    requires CanonicalBest(scores, pairs) && IsMatching(scores, other) && other != pairs
    ensures || TotalScore(scores, other) < TotalScore(scores, pairs)
            || (TotalScore(scores, other) == TotalScore(scores, pairs)
                && (|other| < |pairs| || (|other| == |pairs| && ComesBefore(pairs, other))))
  {
    assert AtLeast(PlanOf(scores, pairs), PlanOf(scores, other));
    if PairsLess(pairs, other) {
      PairsLessIff(pairs, other);
    }
  }

  lemma {:induction false} BestIsCanonical(scores: Scores, pairs: seq<Cell>)
    requires Inside(scores, pairs) && IsBest(scores, 0, 0, PlanOf(scores, pairs))
    ensures CanonicalBest(scores, pairs)
  {
    forall other: seq<Cell> | IsMatching(scores, other) ensures Available(scores, 0, 0, other) {
      forall i | 0 <= i < |other| ensures !HasBit(0, other[i].1) {
        NoBits(other[i].1);
      }
    }
  }

  // ----- the memo table

  class ExactSolver {
    const scores: Scores
    const tracks: nat
    const detections: nat
    var cache: map<(nat, nat), Plan>

    /** Every memoised plan is what the plain recursion gives. */
    ghost predicate Valid()
      reads this
    {
      forall key | key in cache :: cache[key] == Best(scores, tracks, detections, key.0, key.1)
    }

    constructor (scores: Scores, tracks: nat, detections: nat)
      ensures Valid() && this.scores == scores && this.tracks == tracks && this.detections == detections
      ensures cache == map[]
    {
      this.scores, this.tracks, this.detections := scores, tracks, detections;
      cache := map[];
    }

    method Solve(track: nat, mask: nat) returns (best: Plan)
      requires Valid()
      modifies this`cache
      ensures Valid() && best == Best(scores, tracks, detections, track, mask)
      ensures forall key | key in old(cache) :: key in cache
      decreases tracks - track
    {
      if (track, mask) in cache {
        return cache[(track, mask)];
      }
      if track >= tracks {
        return Plan(0, []);
      }
      best := Solve(track + 1, mask);
      for d := 0 to detections
        invariant Valid() && best == BestUpTo(scores, tracks, detections, track, mask, d)
        invariant forall key | key in old(cache) :: key in cache
      {
        if !HasBit(mask, d) && (track, d) in scores {
          var next := Solve(track + 1, SetBit(mask, d));
          var candidate := Prepend(scores[(track, d)], (track, d), next);
          if Better(candidate, best) {
            best := candidate;
          }
        }
      }
      cache := cache[(track, mask) := best];
    }
  }

  // ----- choosing the solver

  /** The assignment of a frame.  Few tracks and detections are solved exactly, more of
      them by the Hungarian solver, which maximises the sum of (score + 1) instead. */
  method GlobalAssignment(scores: Scores, tracks: nat, detections: nat, maxExactSize: int) returns (pairs: seq<Cell>)
    requires Within(scores, tracks, detections)
    ensures IsMatching(scores, pairs)
    ensures tracks <= maxExactSize && detections <= maxExactSize ==> CanonicalBest(scores, pairs)
    ensures tracks > maxExactSize || detections > maxExactSize ==> MaximisesWeight(scores, pairs)
  {
    if scores == map[] {
      OnlyEmptyMatching(scores);
      assert forall other: seq<Cell> | IsMatching(scores, other) :: |other| == 0 by {
        forall other: seq<Cell> | IsMatching(scores, other) ensures |other| == 0 {
          assert TotalWeight(scores, other) <= TotalWeight(scores, []);
        }
      }
      return [];
    }
    if tracks > maxExactSize || detections > maxExactSize {
      pairs := AssignmentPairs(scores, tracks, detections);
    } else {
      var solver := new ExactSolver(scores, tracks, detections);
      var plan := solver.Solve(0, 0);
      BestIsBest(scores, tracks, detections, 0, 0);
      BestIsCanonical(scores, plan.pairs);
      pairs := plan.pairs;
    }
  }

  // ----- how the two solvers differ

  /** On one table the Hungarian result never has fewer pairs and never a higher total
      score; it loses at most 1.0 per extra pair, and it loses nothing exactly when it has
      no extra pair. */
  lemma {:induction false} SolversCompared(scores: Scores, hungarian: seq<Cell>, exact: seq<Cell>)
    requires MaximisesWeight(scores, hungarian) && CanonicalBest(scores, exact)
    ensures |exact| <= |hungarian|
    ensures TotalScore(scores, hungarian) <= TotalScore(scores, exact)
    ensures TotalScore(scores, exact) - TotalScore(scores, hungarian) <= ONE * (|hungarian| - |exact|)
    ensures TotalScore(scores, exact) == TotalScore(scores, hungarian) <==> |exact| == |hungarian|
  {
    assert TotalWeight(scores, exact) <= TotalWeight(scores, hungarian);
    assert AtLeast(PlanOf(scores, exact), PlanOf(scores, hungarian));
  }

  /** The two objectives do differ: one strong pair against two weak ones. */
  lemma {:induction false} SolversDisagree()
    ensures var scores: Scores := map[(0, 0) := 900_000, (0, 1) := 300_000, (1, 0) := 300_000];
            && (forall pairs | CanonicalBest(scores, pairs) :: pairs == [(0, 0)])
            && (forall pairs | MaximisesWeight(scores, pairs) :: |pairs| == 2)
  {
    var scores: Scores := map[(0, 0) := 900_000, (0, 1) := 300_000, (1, 0) := 300_000];
    var one: seq<Cell>, two: seq<Cell> := [(0, 0)], [(0, 1), (1, 0)];
    assert IsMatching(scores, one) && IsMatching(scores, two);
    assert one[1..] == [] && two[1..] == [(1, 0)] && two[1..][1..] == [];
    assert TotalScore(scores, one) == 900_000 && TotalScore(scores, two) == 600_000;
    forall pairs: seq<Cell> | IsMatching(scores, pairs)
      ensures pairs == two || (|pairs| <= 1 && TotalScore(scores, pairs) <= 900_000 && (pairs != one ==> TotalScore(scores, pairs) <= 300_000))
    {
      MatchingsOfExample(scores, pairs);
    }
    forall pairs: seq<Cell> | CanonicalBest(scores, pairs) ensures pairs == one {
      assert AtLeast(PlanOf(scores, pairs), PlanOf(scores, one));
    }
    forall pairs: seq<Cell> | MaximisesWeight(scores, pairs) ensures |pairs| == 2 {
      assert TotalWeight(scores, two) <= TotalWeight(scores, pairs);
    }
  }

  lemma {:induction false} RowsClimb(scores: Scores, pairs: seq<Cell>, k: nat)
    requires IsMatching(scores, pairs) && k < |pairs|
    ensures k <= pairs[k].0
  {
    if k > 0 {
      RowsClimb(scores, pairs, k - 1);
      assert pairs[k - 1].0 != pairs[k].0;
    }
  }

  lemma {:induction false} MatchingsOfExample(scores: Scores, pairs: seq<Cell>)
    requires scores == map[(0, 0) := 900_000, (0, 1) := 300_000, (1, 0) := 300_000]
    requires IsMatching(scores, pairs)
    ensures pairs == [(0, 1), (1, 0)]
            || (|pairs| <= 1 && TotalScore(scores, pairs) <= 900_000 && (pairs != [(0, 0)] ==> TotalScore(scores, pairs) <= 300_000))
  {
    if pairs != [] {
      RowsClimb(scores, pairs, |pairs| - 1);
      assert pairs[|pairs| - 1] in scores;
    }
    if |pairs| == 1 {
      assert pairs[0] in scores && pairs == [pairs[0]] && pairs[1..] == [];
    } else if |pairs| == 2 {
      assert pairs[0] in scores && pairs[1] in scores;
    }
  }
}
