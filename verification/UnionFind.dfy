/** Disjoint sets of track ids with path compression and union by rank. */
module UnionFind {

  ghost function Pow2(n: nat): nat {
    if n == 0 then 1 else 2 * Pow2(n - 1)
  }

  type Parents = map<string, string>
  type Ranks = map<string, nat>

  /** The partition: every id with the representative of its class. */
  type Partition = map<string, string>

  ghost predicate Node(parent: Parents, rank: Ranks, root: Partition, x: string) {
    && x in parent && x in rank && x in root
    && parent[x] in root && root[parent[x]] == root[x]
    && root[x] in root && root[root[x]] == root[x]
    && root[x] in rank && parent[x] in rank
    && (parent[x] == x <==> root[x] == x)
    && (parent[x] != x ==> rank[x] < rank[parent[x]])
    && rank[x] <= rank[root[x]]
  }

  ghost predicate Forest(parent: Parents, rank: Ranks, root: Partition) {
    && parent.Keys == rank.Keys == root.Keys
    && forall x {:trigger Node(parent, rank, root, x)} | x in root :: Node(parent, rank, root, x)
  }

  ghost predicate Large(rank: Ranks, root: Partition, r: string) {
    r in rank && Pow2(rank[r]) <= |Class(root, r)|
  }

  /** A representative of rank k has at least 2^k members. */
  ghost predicate Sized(rank: Ranks, root: Partition) {
    forall r {:trigger Large(rank, root, r)} | r in root && root[r] == r :: Large(rank, root, r)
  }

  ghost function Class(root: Partition, r: string): set<string> {
    set x | x in root && root[x] == r
  }

  /** The partition after the classes of a and b have become one. */
  ghost function Joined(root: Partition, a: string, b: string, top: string): Partition {
    map x | x in root :: if root[x] == a || root[x] == b then top else root[x]
  }

  lemma {:induction false} JoinedSymmetric(root: Partition, a: string, b: string, top: string)
    ensures Joined(root, a, b, top) == Joined(root, b, a, top)
  {
  }

  /** How far the rank still rises from x to its representative. */
  ghost function Climb(rank: Ranks, root: Partition, x: string): nat {
    if x in root && x in rank && root[x] in rank && rank[x] <= rank[root[x]] then rank[root[x]] - rank[x] else 0
  }

  lemma {:induction false} JoinedClasses(root: Partition, a: string, b: string)
    requires a != b
    ensures Class(Joined(root, a, b, a), a) == Class(root, a) + Class(root, b)
    ensures |Class(Joined(root, a, b, a), a)| == |Class(root, a)| + |Class(root, b)|
  {
    assert Class(root, a) !! Class(root, b);
  }

  lemma {:induction false} OtherClasses(root: Partition, a: string, b: string, r: string)
    requires r != a && r != b
    ensures Class(Joined(root, a, b, a), r) == Class(root, r)
  {
  }

  lemma {:induction false} CompressNode(parent: Parents, rank: Ranks, root: Partition, x: string, y: string)
    requires Node(parent, rank, root, x) && parent[x] != x
    requires Node(parent, rank, root, root[x]) && Node(parent, rank, root, parent[x])
    requires Node(parent, rank, root, y)
    ensures Node(parent[x := root[x]], rank, root, y)
  {
    assert rank[x] < rank[root[x]];
  }

  /** Hanging an id directly below its representative changes no class. */
  lemma {:induction false} CompressKeepsForest(parent: Parents, rank: Ranks, root: Partition, x: string)
    requires Forest(parent, rank, root) && x in root && parent[x] != x
    ensures Forest(parent[x := root[x]], rank, root)
  {
    assert Node(parent, rank, root, x);
    forall y | y in root ensures Node(parent[x := root[x]], rank, root, y) {
      assert Node(parent, rank, root, root[x]) && Node(parent, rank, root, parent[x]);
      assert Node(parent, rank, root, y);
      CompressNode(parent, rank, root, x, y);
    }
  }

  lemma {:induction false} LinkNode(parent: Parents, rank: Ranks, root: Partition, a: string, b: string, rank': Ranks, y: string)
    requires Node(parent, rank, root, a) && Node(parent, rank, root, b) && a != b && root[a] == a && root[b] == b
    requires rank[b] <= rank[a]
    requires rank' == if rank[a] == rank[b] then rank[a := rank[a] + 1] else rank
    requires Node(parent, rank, root, y)
    ensures Node(parent[b := a], rank', Joined(root, a, b, a), y)
  {
    var root' := Joined(root, a, b, a);
    assert y in root' && a in root' && root'[a] == a;
    if y == b {
      assert root'[b] == a;
    } else if root[y] == b {
      assert root'[y] == a && root'[parent[y]] == a;
    } else {
      assert root'[y] == root[y] && root'[parent[y]] == root[y];
    }
  }

  /** Linking a representative below one of no smaller rank joins the two classes. */
  lemma {:induction false} LinkKeepsForest(parent: Parents, rank: Ranks, root: Partition, a: string, b: string, rank': Ranks)
    requires Forest(parent, rank, root) && a in root && b in root && a != b && root[a] == a && root[b] == b
    requires rank[b] <= rank[a]
    requires rank' == if rank[a] == rank[b] then rank[a := rank[a] + 1] else rank
    ensures Forest(parent[b := a], rank', Joined(root, a, b, a))
  {
    var parent', root' := parent[b := a], Joined(root, a, b, a);
    assert parent'.Keys == parent.Keys && rank'.Keys == rank.Keys && root'.Keys == root.Keys;
    forall y | y in root' ensures Node(parent', rank', root', y) {
      assert Node(parent, rank, root, a) && Node(parent, rank, root, b) && Node(parent, rank, root, y);
      LinkNode(parent, rank, root, a, b, rank', y);
    }
  }

  lemma {:induction false} LinkKeepsSized(parent: Parents, rank: Ranks, root: Partition, a: string, b: string, rank': Ranks)
    requires Forest(parent, rank, root) && a in root && b in root && a != b && root[a] == a && root[b] == b
    requires rank[b] <= rank[a] && Sized(rank, root)
    requires rank' == if rank[a] == rank[b] then rank[a := rank[a] + 1] else rank
    ensures Sized(rank', Joined(root, a, b, a))
  {
    var root' := Joined(root, a, b, a);
    JoinedClasses(root, a, b);
    assert Large(rank, root, a) && Large(rank, root, b);
    forall r | r in root' && root'[r] == r ensures Large(rank', root', r) {
      if r != a {
        assert Node(parent, rank, root, r);
        assert Large(rank, root, r);
        OtherClasses(root, a, b, r);
      }
    }
  }

  class TrackUnionFind {
    var parent: Parents
    var rank: Ranks
    ghost var root: Partition

    ghost predicate Valid()
      reads this
    {
      Forest(parent, rank, root) && Sized(rank, root)
    }

    constructor (ids: set<string>)
      ensures Valid() && root == (map x | x in ids :: x)
    {
      parent := map x | x in ids :: x;
      rank := map x | x in ids :: 0;
      root := map x | x in ids :: x;
      new;
      forall x | x in root ensures Node(parent, rank, root, x) && Large(rank, root, x) {
        assert x in Class(root, x);
      }
    }

    /** Follows the parents, which terminates because the rank rises strictly, and hangs
        every id on the way directly below its representative. */
    method Find(x: string) returns (r: string)
      requires Valid() && x in root
      modifies this`parent
      ensures Valid() && r == root[x] && r in root && root[r] == r
      ensures parent[x] == r
      decreases Climb(rank, root, x)
    {
      assert Node(parent, rank, root, x);
      var p := parent[x];
      if p != x {
        assert Node(parent, rank, root, p);
        var top := Find(p);
        assert Node(parent, rank, root, x);
        if parent[x] != x {
          CompressKeepsForest(parent, rank, root, x);
        }
        parent := parent[x := top];
      }
      return parent[x];
    }

    /** Joins two classes; the representative of higher rank stays. */
    method Union(left: string, right: string) returns (joined: bool)
      requires Valid() && left in root && right in root
      modifies this
      ensures Valid()
      ensures joined == (old(root)[left] != old(root)[right])
      ensures !joined ==> root == old(root)
      ensures root.Keys == old(root.Keys)
      ensures root[left] == old(root)[left] || root[left] == old(root)[right]
      ensures joined ==> root == Joined(old(root), old(root)[left], old(root)[right], root[left])
    {
      var leftRoot := Find(left);
      var rightRoot := Find(right);
      if leftRoot == rightRoot {
        return false;
      }
      JoinedSymmetric(root, leftRoot, rightRoot, rightRoot);
      if rank[leftRoot] < rank[rightRoot] {
        leftRoot, rightRoot := rightRoot, leftRoot;
      }
      ghost var parents, ranks := parent, rank;
      parent := parent[rightRoot := leftRoot];
      if rank[leftRoot] == rank[rightRoot] {
        rank := rank[leftRoot := rank[leftRoot] + 1];
      }
      LinkKeepsForest(parents, ranks, root, leftRoot, rightRoot, rank);
      LinkKeepsSized(parents, ranks, root, leftRoot, rightRoot, rank);
      root := Joined(root, leftRoot, rightRoot, leftRoot);
      return true;
    }
  }
}
