/** Counting and summing over finite index sets. */
module Sums {

  ghost predicate Distinct<T>(s: seq<T>) {
    forall j: nat, k: nat | j < k < |s| :: s[j] != s[k]
  }

  ghost function Elements<T>(s: seq<T>): set<T> {
    set x | x in s
  }

  lemma {:induction false} ElementsSize<T>(s: seq<T>)
    requires Distinct(s)
    ensures |Elements(s)| == |s|
  {
    if s != [] {
      var init, last := s[..|s| - 1], s[|s| - 1];
      ElementsSize(init);
      assert Elements(s) == Elements(init) + {last};
      assert last !in init;
    }
  }

  ghost function Range(lo: nat, hi: nat): (s: set<nat>)
    requires lo <= hi
    ensures |s| == hi - lo
    ensures forall x: nat :: x in s <==> lo <= x < hi
  {
    if lo == hi then {} else Range(lo, hi - 1) + {hi - 1}
  }

  lemma {:induction false} SubsetSize<T>(a: set<T>, b: set<T>)
    requires a <= b
    ensures |a| <= |b|
    ensures |a| == |b| ==> a == b
  {
    assert b == a + (b - a);
  }

  /** Distinct numbers from an interval are no more than the interval has. */
  lemma {:induction false} DistinctWithin(s: seq<nat>, lo: nat, hi: nat)
    requires Distinct(s) && lo <= hi
    requires forall k: nat | k < |s| :: lo <= s[k] < hi
    ensures |s| <= hi - lo
    ensures |s| == hi - lo ==> forall x: nat | lo <= x < hi :: x in s
  {
    ElementsSize(s);
    SubsetSize(Elements(s), Range(lo, hi));
    if |s| == hi - lo {
      forall x: nat | lo <= x < hi ensures x in s {
        assert x in Range(lo, hi);
        assert x in Elements(s);
      }
    }
  }

  // ----- sums

  ghost function Sum(f: seq<int>): int {
    if f == [] then 0 else f[0] + Sum(f[1..])
  }

  lemma {:induction false} SumUpdate(f: seq<int>, i: nat, x: int)
    requires i < |f|
    ensures Sum(f[i := x]) == Sum(f) - f[i] + x
  {
    if i == 0 {
      assert f[i := x][1..] == f[1..];
    } else {
      SumUpdate(f[1..], i - 1, x);
      assert f[i := x][1..] == f[1..][i - 1 := x];
    }
  }

  lemma {:induction false} SumNonNegative(f: seq<int>)
    requires forall i | 0 <= i < |f| :: f[i] >= 0
    ensures Sum(f) >= 0
  {
    if f != [] {
      SumNonNegative(f[1..]);
    }
  }

  lemma {:induction false} SumZeros(f: seq<int>)
    requires forall i | 0 <= i < |f| :: f[i] == 0
    ensures Sum(f) == 0
  {
    if f != [] {
      SumZeros(f[1..]);
    }
  }
}
