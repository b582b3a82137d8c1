/** Matchings of active tracks with detections, the value that both assignment
    solvers of the tracker return.  Scores are rounded to six decimals by the
    tracker, so they are whole numbers of millionths here. */
module Matchings {

  /** A track position paired with a detection position. */
  type Cell = (nat, nat)

  /** The pairs whose association score reaches the threshold, with that score. */
  type Scores = map<Cell, nat>

  /** The score 1.0. */
  const ONE: nat := 1_000_000

  ghost predicate Inside(scores: Scores, pairs: seq<Cell>) {
    forall i | 0 <= i < |pairs| :: pairs[i] in scores
  }

  /** No track and no detection is used twice. */
  ghost predicate Independent(pairs: seq<Cell>) {
    forall i, j | 0 <= i < j < |pairs| :: pairs[i].0 != pairs[j].0 && pairs[i].1 != pairs[j].1
  }

  ghost predicate ByTrack(pairs: seq<Cell>) {
    forall i, j | 0 <= i < j < |pairs| :: pairs[i].0 <= pairs[j].0
  }

  /** A matching inside the table, listed by increasing track position; every set
      of independent pairs has exactly one such list. */
  ghost predicate IsMatching(scores: Scores, pairs: seq<Cell>) {
    Inside(scores, pairs) && Independent(pairs) && ByTrack(pairs)
  }

  function TotalScore(scores: Scores, pairs: seq<Cell>): nat
    requires Inside(scores, pairs)
  {
    if pairs == [] then 0 else scores[pairs[0]] + TotalScore(scores, pairs[1..])
  }

  /** The sum of (score + 1) over the pairs. */
  function TotalWeight(scores: Scores, pairs: seq<Cell>): nat
    requires Inside(scores, pairs)
  {
    TotalScore(scores, pairs) + ONE * |pairs|
  }

  lemma {:induction false} TotalScoreAppend(scores: Scores, pairs: seq<Cell>, p: Cell)
    requires Inside(scores, pairs) && p in scores
    ensures Inside(scores, pairs + [p])
    ensures TotalScore(scores, pairs + [p]) == TotalScore(scores, pairs) + scores[p]
  {
    if pairs == [] {
      assert [p][1..] == [];
    } else {
      TotalScoreAppend(scores, pairs[1..], p);
      assert (pairs + [p])[1..] == pairs[1..] + [p];
    }
  }

  /** Order of Python's pairs. */
  predicate CellLess(a: Cell, b: Cell) {
    a.0 < b.0 || (a.0 == b.0 && a.1 < b.1)
  }

  function InsertCell(p: Cell, pairs: seq<Cell>): (r: seq<Cell>)
    ensures multiset(r) == multiset(pairs) + multiset{p}
  {
    if pairs == [] || CellLess(p, pairs[0]) then [p] + pairs
    else
      assert pairs == [pairs[0]] + pairs[1..];
      [pairs[0]] + InsertCell(p, pairs[1..])
  }

  function SortCells(pairs: seq<Cell>): (r: seq<Cell>)
    ensures multiset(r) == multiset(pairs)
  {
    if pairs == [] then []
    else
      assert pairs == [pairs[0]] + pairs[1..];
      InsertCell(pairs[0], SortCells(pairs[1..]))
  }

  lemma {:induction false} InsertCellKeepsOrder(p: Cell, pairs: seq<Cell>)
    requires ByTrack(pairs)
    ensures ByTrack(InsertCell(p, pairs))
  {
    if pairs == [] || CellLess(p, pairs[0]) {
    } else {
      InsertCellKeepsOrder(p, pairs[1..]);
      var tail := InsertCell(p, pairs[1..]);
      forall k | 0 <= k < |tail| ensures pairs[0].0 <= tail[k].0 {
        assert tail[k] in multiset(tail);
        assert tail[k] in multiset(pairs[1..]) || tail[k] == p;
      }
    }
  }

  lemma {:induction false} InsertCellScore(scores: Scores, p: Cell, pairs: seq<Cell>)
    requires Inside(scores, pairs) && p in scores
    ensures Inside(scores, InsertCell(p, pairs))
    ensures TotalScore(scores, InsertCell(p, pairs)) == scores[p] + TotalScore(scores, pairs)
  {
    if pairs == [] || CellLess(p, pairs[0]) {
      assert ([p] + pairs)[1..] == pairs;
    } else {
      InsertCellScore(scores, p, pairs[1..]);
      var tail := InsertCell(p, pairs[1..]);
      assert ([pairs[0]] + tail)[1..] == tail;
    }
  }

  lemma {:induction false} SortCellsSorts(scores: Scores, pairs: seq<Cell>)
    requires Inside(scores, pairs)
    ensures ByTrack(SortCells(pairs)) && Inside(scores, SortCells(pairs))
    ensures TotalScore(scores, SortCells(pairs)) == TotalScore(scores, pairs)
  {
    if pairs != [] {
      SortCellsSorts(scores, pairs[1..]);
      InsertCellKeepsOrder(pairs[0], SortCells(pairs[1..]));
      InsertCellScore(scores, pairs[0], SortCells(pairs[1..]));
    }
  }

  lemma {:induction false} InsertCellIndependent(p: Cell, pairs: seq<Cell>)
    requires Independent(pairs)
    requires forall q | q in pairs :: q.0 != p.0 && q.1 != p.1
    ensures Independent(InsertCell(p, pairs))
  {
    if pairs == [] || CellLess(p, pairs[0]) {
    } else {
      InsertCellIndependent(p, pairs[1..]);
      var tail := InsertCell(p, pairs[1..]);
      forall k | 0 <= k < |tail| ensures pairs[0].0 != tail[k].0 && pairs[0].1 != tail[k].1 {
        assert tail[k] in multiset(tail);
        assert tail[k] in multiset(pairs[1..]) || tail[k] == p;
      }
    }
  }

  lemma {:induction false} SortCellsIndependent(pairs: seq<Cell>)
    requires Independent(pairs)
    ensures Independent(SortCells(pairs))
  {
    if pairs != [] {
      SortCellsIndependent(pairs[1..]);
      forall q | q in SortCells(pairs[1..]) ensures q.0 != pairs[0].0 && q.1 != pairs[0].1 {
        assert q in multiset(SortCells(pairs[1..]));
        assert q in pairs[1..];
      }
      InsertCellIndependent(pairs[0], SortCells(pairs[1..]));
    }
  }

  /** Sorting independent pairs of the table gives a matching of the same weight. */
  lemma {:induction false} SortedIsMatching(scores: Scores, pairs: seq<Cell>)
    requires Inside(scores, pairs) && Independent(pairs)
    ensures IsMatching(scores, SortCells(pairs))
    ensures TotalWeight(scores, SortCells(pairs)) == TotalWeight(scores, pairs)
  {
    SortCellsSorts(scores, pairs);
    SortCellsIndependent(pairs);
    assert |multiset(SortCells(pairs))| == |multiset(pairs)|;
  }
}
