/** Stable sorting by a Python-style sort key, given as the order that the key induces. */
module Sorting {
  import opened Sums

  function Insert<T>(less: (T, T) -> bool, x: T, s: seq<T>): (r: seq<T>)
    ensures multiset(r) == multiset(s) + multiset{x}
  {
    if s == [] || !less(s[0], x) then [x] + s
    else
      assert s == [s[0]] + s[1..];
      [s[0]] + Insert(less, x, s[1..])
  }

  function SortBy<T(!new)>(less: (T, T) -> bool, s: seq<T>): (r: seq<T>)
    ensures multiset(r) == multiset(s)
    ensures |r| == |s| && forall x :: x in r <==> x in s
  {
    if s == [] then []
    else
      assert s == [s[0]] + s[1..];
      var r := Insert(less, s[0], SortBy(less, s[1..]));
      assert |multiset(r)| == |multiset(s)|;
      assert forall x :: x in r <==> x in multiset(r);
      assert forall x :: x in s <==> x in multiset(s);
      r
  }

  ghost predicate Climbs<T>(key: T -> int, s: seq<T>) {
    forall i, j | 0 <= i < j < |s| :: key(s[i]) <= key(s[j])
  }

  /** The order looks at an integer key first. */
  ghost predicate LooksAt<T(!new)>(less: (T, T) -> bool, key: T -> int) {
    forall a, b :: if less(a, b) then key(a) <= key(b) else key(b) <= key(a)
  }

  lemma {:induction false} InsertClimbs<T(!new)>(less: (T, T) -> bool, key: T -> int, x: T, s: seq<T>)
    requires LooksAt(less, key) && Climbs(key, s)
    ensures Climbs(key, Insert(less, x, s))
  {
    if s == [] || !less(s[0], x) {
    } else {
      InsertClimbs(less, key, x, s[1..]);
      var tail := Insert(less, x, s[1..]);
      forall k | 0 <= k < |tail| ensures key(s[0]) <= key(tail[k]) {
        assert tail[k] in multiset(tail);
        assert tail[k] in multiset(s[1..]) || tail[k] == x;
      }
    }
  }

  lemma {:induction false} SortByClimbs<T(!new)>(less: (T, T) -> bool, key: T -> int, s: seq<T>)
    requires LooksAt(less, key)
    ensures Climbs(key, SortBy(less, s))
  {
    if s != [] {
      SortByClimbs(less, key, s[1..]);
      InsertClimbs(less, key, s[0], SortBy(less, s[1..]));
    }
  }

  /** Sorting leaves a list alone in which no later item precedes its predecessor. */
  lemma {:induction false} SortByIdle<T(!new)>(less: (T, T) -> bool, s: seq<T>)
    requires forall i | 0 < i < |s| :: !less(s[i], s[i - 1])
    ensures SortBy(less, s) == s
  {
    if s != [] {
      var rest := s[1..];
      forall i | 0 < i < |rest| ensures !less(rest[i], rest[i - 1]) {
        assert rest[i] == s[i + 1] && rest[i - 1] == s[i];
      }
      SortByIdle(less, rest);
      assert |s| > 1 ==> !less(s[1], s[1 - 1]);
    }
  }

  // ----- sorting by a weak order

  ghost predicate WeakOrder<T(!new)>(less: (T, T) -> bool) {
    && (forall a, b | less(a, b) :: !less(b, a))
    && (forall a, b, c | !less(a, b) && !less(b, c) :: !less(a, c))
  }

  ghost predicate Ordered<T>(less: (T, T) -> bool, s: seq<T>) {
    forall i, j | 0 <= i < j < |s| :: !less(s[j], s[i])
  }

  lemma {:induction false} InsertOrdered<T(!new)>(less: (T, T) -> bool, x: T, s: seq<T>)
    requires WeakOrder(less) && Ordered(less, s)
    ensures Ordered(less, Insert(less, x, s))
  {
    if s != [] && less(s[0], x) {
      InsertOrdered(less, x, s[1..]);
      var tail := Insert(less, x, s[1..]);
      forall k | 0 <= k < |tail| ensures !less(tail[k], s[0]) {
        assert tail[k] in multiset(tail);
        assert tail[k] in multiset(s[1..]) || tail[k] == x;
      }
    }
  }

  lemma {:induction false} SortByOrders<T(!new)>(less: (T, T) -> bool, s: seq<T>)
    requires WeakOrder(less)
    ensures Ordered(less, SortBy(less, s))
  {
    if s != [] {
      SortByOrders(less, s[1..]);
      InsertOrdered(less, s[0], SortBy(less, s[1..]));
    }
  }

  lemma {:induction false} InsertDistinct<T>(less: (T, T) -> bool, x: T, s: seq<T>)
    requires Distinct(s) && x !in s
    ensures Distinct(Insert(less, x, s)) && forall y :: y in Insert(less, x, s) <==> y == x || y in s
  {
    if s != [] && less(s[0], x) {
      assert s == [s[0]] + s[1..];
      assert s[0] !in s[1..];
      InsertDistinct(less, x, s[1..]);
      assert s[0] !in Insert(less, x, s[1..]);
    }
  }

  lemma {:induction false} SortByDistinct<T(!new)>(less: (T, T) -> bool, s: seq<T>)
    requires Distinct(s)
    ensures Distinct(SortBy(less, s))
  {
    if s != [] {
      SortByDistinct(less, s[1..]);
      InsertDistinct(less, s[0], SortBy(less, s[1..]));
    }
  }
}
