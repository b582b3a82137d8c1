/** Greedy non-maximum suppression: boxes are taken by falling score, and each box taken drops
    the later ones that overlap it too much. */
module Nms {
  import opened Orders
  import opened Sums

  datatype Box = Box(x1: real, y1: real, x2: real, y2: real)

  function Min(a: real, b: real): real {
    if a <= b then a else b
  }

  function Area(b: Box): real {
    RealMax(0.0, b.x2 - b.x1) * RealMax(0.0, b.y2 - b.y1)
  }

  function Intersection(a: Box, b: Box): real {
    RealMax(0.0, Min(a.x2, b.x2) - RealMax(a.x1, b.x1)) * RealMax(0.0, Min(a.y2, b.y2) - RealMax(a.y1, b.y1))
  }

  function Iou(a: Box, b: Box): real {
    Intersection(a, b) / RealMax(Area(a) + Area(b) - Intersection(a, b), 0.0000001)
  }

  lemma {:induction false} IouSymmetric(a: Box, b: Box)
    ensures Iou(a, b) == Iou(b, a)
  {
    assert Intersection(a, b) == Intersection(b, a);
  }

  lemma {:induction false} LengthsMultiply(a: real, b: real, c: real, d: real)
    requires 0.0 <= a <= c && 0.0 <= b <= d
    ensures 0.0 <= a * b <= c * d
  {
    assert a * b <= c * b <= c * d;
  }

  lemma {:induction false} IntersectionWithin(a: Box, b: Box)
    ensures 0.0 <= Intersection(a, b) <= Area(a) && Intersection(a, b) <= Area(b)
  {
    var (w, h) := (RealMax(0.0, Min(a.x2, b.x2) - RealMax(a.x1, b.x1)), RealMax(0.0, Min(a.y2, b.y2) - RealMax(a.y1, b.y1)));
    LengthsMultiply(w, h, RealMax(0.0, a.x2 - a.x1), RealMax(0.0, a.y2 - a.y1));
    LengthsMultiply(w, h, RealMax(0.0, b.x2 - b.x1), RealMax(0.0, b.y2 - b.y1));
  }

  /** One box lies inside the other. */
  predicate InsideOf(a: Box, b: Box) {
    b.x1 <= a.x1 <= a.x2 <= b.x2 && b.y1 <= a.y1 <= a.y2 <= b.y2
  }

  predicate Disjoint(a: Box, b: Box) {
    a.x2 <= b.x1 || b.x2 <= a.x1 || a.y2 <= b.y1 || b.y2 <= a.y1
  }

  lemma {:induction false} FactorInRange(q: real, y: real, x: real)
    requires q * y == x && 0.0 <= x <= y && y > 0.0
    ensures 0.0 <= q <= 1.0
  {
  }

  lemma {:induction false} Quotient(x: real, y: real)
    requires 0.0 <= x <= y && y > 0.0
    ensures 0.0 <= x / y <= 1.0 && (x == y ==> x / y == 1.0) && (x == 0.0 ==> x / y == 0.0)
  {
    var q := x / y;
    assert q * y == x;
    FactorInRange(q, y, x);
  }

  /** The overlap of two boxes is a share: none for boxes that are apart, the share of the areas for
      a box inside another, and all for a box and itself. */
  lemma {:induction false} IouIsShare(a: Box, b: Box)
    ensures 0.0 <= Iou(a, b) <= 1.0
    ensures Disjoint(a, b) ==> Iou(a, b) == 0.0
    ensures InsideOf(a, b) && (b.x2 - b.x1) * (b.y2 - b.y1) >= 0.0000001 ==>
              Iou(a, b) == ((a.x2 - a.x1) * (a.y2 - a.y1)) / ((b.x2 - b.x1) * (b.y2 - b.y1))
  {
    IntersectionWithin(a, b);
    Quotient(Intersection(a, b), RealMax(Area(a) + Area(b) - Intersection(a, b), 0.0000001));
  }

  predicate InBounds(boxes: seq<Box>, order: seq<nat>) {
    forall i | 0 <= i < |order| :: order[i] < |boxes|
  }

  /** An order of all boxes by falling score, equal scores in any order. */
  ghost predicate ByScore(boxes: seq<Box>, scores: seq<real>, order: seq<nat>) {
    && |scores| == |boxes| == |order| && InBounds(boxes, order) && Distinct(order)
    && (forall b: nat | b < |boxes| :: b in order)
    && forall i, j | 0 <= i < j < |order| :: scores[order[i]] >= scores[order[j]]
  }

  predicate Clash(boxes: seq<Box>, t: real, a: nat, b: nat) {
    a < |boxes| && b < |boxes| && Iou(boxes[a], boxes[b]) > t
  }

  /** The later boxes that a box leaves over. */
  function Spared(boxes: seq<Box>, t: real, a: nat, rest: seq<nat>): (r: seq<nat>)
    ensures |r| <= |rest|
    ensures forall x :: x in r <==> x in rest && !Clash(boxes, t, a, x)
  {
    if rest == [] then []
    else if Clash(boxes, t, a, rest[0]) then Spared(boxes, t, a, rest[1..])
    else [rest[0]] + Spared(boxes, t, a, rest[1..])
  }

  function Kept(boxes: seq<Box>, t: real, order: seq<nat>): seq<nat>
    decreases |order|
  {
    if order == [] then [] else [order[0]] + Kept(boxes, t, Spared(boxes, t, order[0], order[1..]))
  }

  lemma {:induction false} SparedStep(boxes: seq<Box>, t: real, a: nat, rest: seq<nat>, i: nat, spared: seq<nat>)
    requires i < |rest| && spared + Spared(boxes, t, a, rest[i..]) == Spared(boxes, t, a, rest)
    ensures (if Clash(boxes, t, a, rest[i]) then spared else spared + [rest[i]]) + Spared(boxes, t, a, rest[i + 1..]) == Spared(boxes, t, a, rest)
  {
    var left, more := rest[i..], Spared(boxes, t, a, rest[i + 1..]);
    assert left[0] == rest[i] && left[1..] == rest[i + 1..];
    assert Spared(boxes, t, a, left) == if Clash(boxes, t, a, rest[i]) then more else [rest[i]] + more;
    Reassociate(spared, [rest[i]], more);
  }

  lemma {:induction false} Reassociate(a: seq<nat>, b: seq<nat>, c: seq<nat>)
    ensures (a + b) + c == a + (b + c)
  {
  }

  method Spare(boxes: seq<Box>, t: real, a: nat, rest: seq<nat>) returns (spared: seq<nat>)
    ensures spared == Spared(boxes, t, a, rest)
  {
    spared := [];
    for i := 0 to |rest|
      invariant spared + Spared(boxes, t, a, rest[i..]) == Spared(boxes, t, a, rest)
    {
      SparedStep(boxes, t, a, rest, i, spared);
      if !Clash(boxes, t, a, rest[i]) {
        spared := spared + [rest[i]];
      }
    }
  }

  method NonMaximumSuppression(boxes: seq<Box>, scores: seq<real>, t: real, order: seq<nat>) returns (keep: seq<nat>)
    requires ByScore(boxes, scores, order)
    ensures keep == Kept(boxes, t, order)
    ensures Suppression(boxes, scores, t, keep) && Greedy(boxes, t, order, Members(keep))
  {
    keep := Suppress(boxes, t, order);
    KeptSuppresses(boxes, scores, t, order);
    DistinctIsOnce(order);
    KeptIsGreedy(boxes, t, order);
  }

  method Suppress(boxes: seq<Box>, t: real, order: seq<nat>) returns (keep: seq<nat>)
    ensures keep == Kept(boxes, t, order)
  {
    keep := [];
    var left := order;
    while left != []
      invariant keep + Kept(boxes, t, left) == Kept(boxes, t, order)
      decreases |left|
    {
      var current := left[0];
      keep := keep + [current];
      left := Spare(boxes, t, current, left[1..]);
    }
  }

  // ----- what stands earlier in a list

  ghost predicate Earlier(s: seq<nat>, a: nat, b: nat) {
    s != [] && ((s[0] == a && b in s[1..]) || Earlier(s[1..], a, b))
  }

  lemma {:induction false} EarlierAt(s: seq<nat>, a: nat, b: nat)
    ensures Earlier(s, a, b) <==> exists i, j :: 0 <= i < j < |s| && s[i] == a && s[j] == b
  {
    if s != [] {
      EarlierAt(s[1..], a, b);
      if s[0] == a && b in s[1..] {
        var j :| 0 <= j < |s[1..]| && s[1..][j] == b;
        assert s[0] == a && s[j + 1] == b;
      } else if i, j :| 0 <= i < j < |s[1..]| && s[1..][i] == a && s[1..][j] == b {
        assert s[i + 1] == a && s[j + 1] == b;
      }
      if i, j :| 0 <= i < j < |s| && s[i] == a && s[j] == b {
        assert s[1..][j - 1] == b;
        assert i > 0 ==> s[1..][i - 1] == a;
      }
    }
  }

  lemma {:induction false} SparedEarlier(boxes: seq<Box>, t: real, h: nat, rest: seq<nat>, a: nat, b: nat)
    ensures Earlier(Spared(boxes, t, h, rest), a, b) <==> Earlier(rest, a, b) && !Clash(boxes, t, h, a) && !Clash(boxes, t, h, b)
  {
    if rest != [] {
      SparedEarlier(boxes, t, h, rest[1..], a, b);
      assert !Clash(boxes, t, h, rest[0]) ==> Spared(boxes, t, h, rest)[1..] == Spared(boxes, t, h, rest[1..]);
    }
  }

  lemma {:induction false} EarlierMember(s: seq<nat>, a: nat, b: nat)
    requires Earlier(s, a, b)
    ensures a in s && b in s
  {
    if !(s[0] == a && b in s[1..]) {
      EarlierMember(s[1..], a, b);
    }
  }

  // ----- what is kept

  ghost predicate Survives(boxes: seq<Box>, t: real, order: seq<nat>, kept: set<nat>, b: nat) {
    forall a | a in kept && Earlier(order, a, b) :: !Clash(boxes, t, a, b)
  }

  /** A set of boxes in which a box is kept exactly when no earlier kept box clashes with it. */
  ghost predicate Greedy(boxes: seq<Box>, t: real, order: seq<nat>, kept: set<nat>) {
    && (forall b | b in kept :: b in order)
    && forall b | b in order :: b in kept <==> Survives(boxes, t, order, kept, b)
  }

  ghost function Members(s: seq<nat>): set<nat> {
    set x | x in s
  }

  lemma {:induction false} KeptEarlier(boxes: seq<Box>, t: real, order: seq<nat>, a: nat, b: nat)
    requires Earlier(Kept(boxes, t, order), a, b)
    ensures Earlier(order, a, b)
    decreases |order|
  {
    var spared := Spared(boxes, t, order[0], order[1..]);
    var kept := Kept(boxes, t, order);
    assert kept[1..] == Kept(boxes, t, spared);
    if Earlier(kept[1..], a, b) {
      KeptEarlier(boxes, t, spared, a, b);
      SparedEarlier(boxes, t, order[0], order[1..], a, b);
    } else {
      KeptMembers(boxes, t, spared);
    }
  }

  lemma {:induction false} KeptMembers(boxes: seq<Box>, t: real, order: seq<nat>)
    ensures forall b | b in Kept(boxes, t, order) :: b in order
    decreases |order|
  {
    if order != [] {
      KeptMembers(boxes, t, Spared(boxes, t, order[0], order[1..]));
    }
  }

  ghost predicate Once(s: seq<nat>) {
    forall a :: !Earlier(s, a, a)
  }

  lemma {:induction false} SparedOnce(boxes: seq<Box>, t: real, order: seq<nat>)
    requires Once(order) && order != []
    ensures Once(Spared(boxes, t, order[0], order[1..])) && order[0] !in order[1..]
  {
    forall a ensures !Earlier(Spared(boxes, t, order[0], order[1..]), a, a) {
      SparedEarlier(boxes, t, order[0], order[1..], a, a);
      assert !Earlier(order, a, a);
    }
    assert !Earlier(order, order[0], order[0]);
  }

  /** Greedy suppression keeps what its definition says. */
  lemma {:induction false} KeptIsGreedy(boxes: seq<Box>, t: real, order: seq<nat>)
    requires Once(order)
    ensures Greedy(boxes, t, order, Members(Kept(boxes, t, order)))
    decreases |order|
  {
    KeptMembers(boxes, t, order);
    if order != [] {
      var h, rest := order[0], order[1..];
      SparedOnce(boxes, t, order);
      KeptIsGreedy(boxes, t, Spared(boxes, t, h, rest));
      forall b | b in order ensures b in Members(Kept(boxes, t, order)) <==> Survives(boxes, t, order, Members(Kept(boxes, t, order)), b) {
        GreedyStep(boxes, t, order, b);
      }
    }
  }

  lemma {:induction false} GreedyStep(boxes: seq<Box>, t: real, order: seq<nat>, b: nat)
    requires order != [] && Once(order) && b in order && order[0] !in order[1..]
    requires var spared := Spared(boxes, t, order[0], order[1..]); Greedy(boxes, t, spared, Members(Kept(boxes, t, spared)))
    ensures b in Kept(boxes, t, order) <==> Survives(boxes, t, order, Members(Kept(boxes, t, order)), b)
  {
    var h, rest := order[0], order[1..];
    var spared := Spared(boxes, t, h, rest);
    var inner := Members(Kept(boxes, t, spared));
    var outer := Members(Kept(boxes, t, order));
    assert outer == inner + {h};
    if b == h {
      forall a ensures !Earlier(order, a, h) {
        NotLater(order, a);
      }
    } else if Clash(boxes, t, h, b) {
      assert Earlier(order, h, b) && h in outer;
      assert b !in spared;
    } else {
      assert b in spared;
      forall a | a in inner ensures Earlier(order, a, b) <==> Earlier(spared, a, b) {
        SparedEarlier(boxes, t, h, rest, a, b);
      }
      assert Survives(boxes, t, order, outer, b) <==> Survives(boxes, t, spared, inner, b);
    }
  }

  /** Nothing stands before the head of a list without repetition. */
  lemma {:induction false} NotLater(order: seq<nat>, a: nat)
    requires order != [] && order[0] !in order[1..]
    ensures !Earlier(order, a, order[0])
  {
    if Earlier(order[1..], a, order[0]) {
      EarlierMember(order[1..], a, order[0]);
    }
  }

  lemma {:induction false} DistinctIsOnce(order: seq<nat>)
    ensures Distinct(order) <==> Once(order)
  {
    if Distinct(order) {
      forall a ensures !Earlier(order, a, a) {
        EarlierAt(order, a, a);
      }
    } else {
      var i, j :| 0 <= i < j < |order| && order[i] == order[j];
      EarlierAt(order, order[i], order[i]);
    }
  }

  /** There is only one such set. */
  lemma {:induction false} GreedyIsUnique(boxes: seq<Box>, t: real, order: seq<nat>, k1: set<nat>, k2: set<nat>, i: nat)
    requires Distinct(order) && Greedy(boxes, t, order, k1) && Greedy(boxes, t, order, k2) && i <= |order|
    ensures forall b | b in order[..i] :: b in k1 <==> b in k2
    ensures i == |order| ==> k1 == k2
  {
    if i > 0 {
      GreedyIsUnique(boxes, t, order, k1, k2, i - 1);
      var b := order[i - 1];
      assert order[..i] == order[..i - 1] + [b];
      forall a | Earlier(order, a, b) ensures a in order[..i - 1] {
        EarlierAt(order, a, b);
        var p, q :| 0 <= p < q < |order| && order[p] == a && order[q] == b;
        assert q == i - 1;
        assert order[..i - 1][p] == a;
      }
      assert Survives(boxes, t, order, k1, b) <==> Survives(boxes, t, order, k2, b);
    }
    assert i == |order| ==> order[..i] == order;
  }

  /** What suppression promises: the kept boxes, by falling score and without repetition, are
      pairwise compatible, and each dropped box clashes with a kept one that scores no less. */
  ghost predicate Suppression(boxes: seq<Box>, scores: seq<real>, t: real, keep: seq<nat>) {
    && |scores| == |boxes| && InBounds(boxes, keep) && Distinct(keep)
    && (forall i, j | 0 <= i < j < |keep| :: scores[keep[i]] >= scores[keep[j]])
    && (forall i, j | 0 <= i < |keep| && 0 <= j < |keep| && i != j :: !Clash(boxes, t, keep[i], keep[j]))
    && (forall b: nat | b < |boxes| && b !in keep :: exists a: nat :: a in keep && Clash(boxes, t, a, b) && scores[a] >= scores[b])
  }

  lemma {:induction false} PairwiseCompatible(boxes: seq<Box>, t: real, order: seq<nat>, i: nat, j: nat)
    requires Once(order)
    requires i < |Kept(boxes, t, order)| && j < |Kept(boxes, t, order)| && i < j
    ensures var keep := Kept(boxes, t, order);
      !Clash(boxes, t, keep[i], keep[j]) && !Clash(boxes, t, keep[j], keep[i]) && Earlier(order, keep[i], keep[j])
  {
    var keep := Kept(boxes, t, order);
    KeptMembers(boxes, t, order);
    EarlierAt(keep, keep[i], keep[j]);
    KeptEarlier(boxes, t, order, keep[i], keep[j]);
    KeptIsGreedy(boxes, t, order);
    assert keep[i] in Members(keep) && keep[j] in Members(keep) && keep[j] in order;
    assert Survives(boxes, t, order, Members(keep), keep[j]);
    ClashSymmetric(boxes, t, keep[i], keep[j]);
  }

  lemma {:induction false} ClashSymmetric(boxes: seq<Box>, t: real, a: nat, b: nat)
    ensures Clash(boxes, t, a, b) <==> Clash(boxes, t, b, a)
  {
    if a < |boxes| && b < |boxes| {
      IouSymmetric(boxes[a], boxes[b]);
    }
  }

  lemma {:induction false} ScoresFall(boxes: seq<Box>, scores: seq<real>, order: seq<nat>, a: nat, b: nat)
    requires ByScore(boxes, scores, order) && Earlier(order, a, b)
    ensures a < |scores| && b < |scores| && scores[a] >= scores[b]
  {
    EarlierAt(order, a, b);
  }

  lemma {:induction false} KeptDistinct(boxes: seq<Box>, t: real, order: seq<nat>)
    requires Distinct(order)
    ensures Distinct(Kept(boxes, t, order))
  {
    DistinctIsOnce(order);
    var keep := Kept(boxes, t, order);
    forall i, j | 0 <= i < j < |keep| ensures keep[i] != keep[j] {
      PairwiseCompatible(boxes, t, order, i, j);
      assert !Earlier(order, keep[i], keep[i]);
    }
  }

  lemma {:induction false} DroppedHasReason(boxes: seq<Box>, scores: seq<real>, t: real, order: seq<nat>, b: nat) returns (a: nat)
    requires ByScore(boxes, scores, order) && b < |boxes| && b !in Kept(boxes, t, order)
    ensures a in Kept(boxes, t, order) && a < |boxes| && Clash(boxes, t, a, b) && scores[a] >= scores[b]
  {
    DistinctIsOnce(order);
    KeptIsGreedy(boxes, t, order);
    assert b in order && !Survives(boxes, t, order, Members(Kept(boxes, t, order)), b);
    a :| a in Members(Kept(boxes, t, order)) && Earlier(order, a, b) && Clash(boxes, t, a, b);
    ScoresFall(boxes, scores, order, a, b);
  }

  lemma {:induction false} KeptSuppresses(boxes: seq<Box>, scores: seq<real>, t: real, order: seq<nat>)
    requires ByScore(boxes, scores, order)
    ensures Suppression(boxes, scores, t, Kept(boxes, t, order))
  {
    var keep := Kept(boxes, t, order);
    DistinctIsOnce(order);
    KeptMembers(boxes, t, order);
    KeptDistinct(boxes, t, order);
    forall i | 0 <= i < |keep| ensures keep[i] < |boxes| {
      assert keep[i] in order;
    }
    forall i, j | 0 <= i < j < |keep|
      ensures scores[keep[i]] >= scores[keep[j]] && !Clash(boxes, t, keep[i], keep[j]) && !Clash(boxes, t, keep[j], keep[i])
    {
      PairwiseCompatible(boxes, t, order, i, j);
      ScoresFall(boxes, scores, order, keep[i], keep[j]);
    }
    forall b: nat | b < |boxes| && b !in keep ensures exists a: nat :: a in keep && Clash(boxes, t, a, b) && scores[a] >= scores[b] {
      var a := DroppedHasReason(boxes, scores, t, order, b);
    }
  }

  // ----- a second pass

  lemma {:induction false} SparesAll(boxes: seq<Box>, t: real, a: nat, rest: seq<nat>)
    requires forall x | x in rest :: !Clash(boxes, t, a, x)
    ensures Spared(boxes, t, a, rest) == rest
  {
    if rest != [] {
      SparesAll(boxes, t, a, rest[1..]);
    }
  }

  lemma {:induction false} CompatibleStays(boxes: seq<Box>, t: real, order: seq<nat>)
    requires forall i, j | 0 <= i < j < |order| :: !Clash(boxes, t, order[i], order[j])
    ensures Kept(boxes, t, order) == order
    decreases |order|
  {
    if order != [] {
      var rest := order[1..];
      forall x | x in rest ensures !Clash(boxes, t, order[0], x) {
        var j :| 0 <= j < |rest| && rest[j] == x;
        assert order[j + 1] == x;
      }
      SparesAll(boxes, t, order[0], rest);
      CompatibleStays(boxes, t, rest);
    }
  }

  /** Running again on the kept boxes, in the order they were kept, keeps them all. */
  lemma {:induction false} SecondPassChangesNothing(boxes: seq<Box>, scores: seq<real>, t: real, order: seq<nat>)
    requires ByScore(boxes, scores, order)
    ensures var keep := Kept(boxes, t, order);
      && InBounds(boxes, keep) && |scores| == |boxes|
      && var (again, rescored, same) := (seq(|keep|, (i: nat) requires i < |keep| && keep[i] < |boxes| => boxes[keep[i]]),
                                       seq(|keep|, (i: nat) requires i < |keep| && keep[i] < |scores| => scores[keep[i]]),
                                       seq(|keep|, (i: nat) => i));
         ByScore(again, rescored, same) && Kept(again, t, same) == same
  {
    var keep := Kept(boxes, t, order);
    KeptSuppresses(boxes, scores, t, order);
    var again := seq(|keep|, (i: nat) requires i < |keep| && keep[i] < |boxes| => boxes[keep[i]]);
    var same := seq(|keep|, (i: nat) => i);
    forall i, j | 0 <= i < j < |same| ensures !Clash(again, t, same[i], same[j]) {
      assert !Clash(boxes, t, keep[i], keep[j]);
    }
    forall b: nat | b < |again| ensures b in same {
      assert same[b] == b;
    }
    CompatibleStays(again, t, same);
  }
}
