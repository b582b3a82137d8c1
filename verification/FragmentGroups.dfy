/** Merging of track fragments: union-find groups joined along the best pairs. */
module FragmentGroups {
  import opened Options
  import opened Orders
  import opened Tracks
  import opened Sorting
  import opened UnionFind
  import opened Fragments
  import opened FragmentLaw

  // ----- groups

  /** A time-ordered chain of fragments with at most maxGap missing frames between neighbours. */
  ghost predicate Chain(g: seq<Track>, maxGap: int) {
    && (forall i | 0 <= i < |g| :: FirstFrame(g[i]) <= LastFrame(g[i]))
    && forall i | 0 < i < |g| :: LastFrame(g[i - 1]) < FirstFrame(g[i]) <= LastFrame(g[i - 1]) + maxGap + 1
  }

  /** The fragments of a chain are pairwise disjoint in time. */
  lemma {:induction false} ChainOrder(g: seq<Track>, maxGap: int, i: nat, j: nat)
    requires Chain(g, maxGap) && i < j < |g|
    ensures LastFrame(g[i]) < FirstFrame(g[j])
    decreases j
  {
    if i < j - 1 {
      ChainOrder(g, maxGap, i, j - 1);
    }
  }

  function Starts(g: seq<Track>): seq<int> {
    seq(|g|, i requires 0 <= i < |g| => FirstFrame(g[i]))
  }

  function Ends(g: seq<Track>): seq<int> {
    seq(|g|, i requires 0 <= i < |g| => LastFrame(g[i]))
  }

  /** One group ends before the other starts. */
  predicate Compatible(left: seq<Track>, right: seq<Track>)
    requires left != [] && right != []
  {
    MaxOf(Ends(left)) < MinOf(Starts(right)) || MaxOf(Ends(right)) < MinOf(Starts(left))
  }

  lemma {:induction false} ChainRange(g: seq<Track>, maxGap: int, i: nat)
    requires Chain(g, maxGap) && i < |g|
    ensures FirstFrame(g[0]) <= FirstFrame(g[i]) <= LastFrame(g[i]) <= LastFrame(g[|g| - 1])
  {
    if 0 < i { ChainOrder(g, maxGap, 0, i); }
    if i < |g| - 1 { ChainOrder(g, maxGap, i, |g| - 1); }
  }

  lemma {:induction false} ChainBounds(g: seq<Track>, maxGap: int)
    requires g != [] && Chain(g, maxGap)
    ensures MinOf(Starts(g)) == FirstFrame(g[0]) && MaxOf(Ends(g)) == LastFrame(g[|g| - 1])
    ensures forall t | t in g :: FirstFrame(g[0]) <= FirstFrame(t) <= LastFrame(t) <= LastFrame(g[|g| - 1])
  {
    forall i | 0 <= i < |g| ensures FirstFrame(g[0]) <= FirstFrame(g[i]) <= LastFrame(g[i]) <= LastFrame(g[|g| - 1]) {
      ChainRange(g, maxGap, i);
    }
    MinIsFirst(Starts(g));
    MaxIsLast(Ends(g));
  }

  /** A mergeable pair between compatible chains joins them, left before right, and the
      neighbours at the seam are no further apart than the pair. */
  lemma {:induction false} JoinChains(a: seq<Track>, b: seq<Track>, maxGap: int, left: Track, right: Track)
    requires a != [] && b != [] && Chain(a, maxGap) && Chain(b, maxGap)
    requires left in a && right in b
    requires LastFrame(left) < FirstFrame(right) <= LastFrame(left) + maxGap + 1
    requires Compatible(a, b)
    ensures Chain(a + b, maxGap)
  {
    ChainBounds(a, maxGap);
    ChainBounds(b, maxGap);
    var last, first := a[|a| - 1], b[0];
    assert LastFrame(last) < FirstFrame(first) <= LastFrame(last) + maxGap + 1;
    var g := a + b;
    forall i | 0 < i < |g| ensures LastFrame(g[i - 1]) < FirstFrame(g[i]) <= LastFrame(g[i - 1]) + maxGap + 1 {
      if i < |a| {
        assert g[i - 1] == a[i - 1] && g[i] == a[i];
      } else if i > |a| {
        assert g[i - 1] == b[i - |a| - 1] && g[i] == b[i - |a|];
      }
    }
  }

  type Groups = map<string, seq<Track>>

  /** The group of a representative is a chain of tracks of its class. */
  ghost predicate IsGroup(tracks: seq<Track>, root: Partition, groups: Groups, maxGap: int, r: string) {
    && r in groups && r in root && root[r] == r
    && groups[r] != [] && Chain(groups[r], maxGap)
    && forall t | t in groups[r] :: t in tracks && t.id in root && root[t.id] == r
  }

  /** A track stands in the group of its representative. */
  ghost predicate Placed(root: Partition, groups: Groups, t: Track) {
    t.id in root && root[t.id] in groups && t in groups[root[t.id]]
  }

  /** The keys of the group map are exactly the representatives, and each list is exactly
      the tracks of that class. */
  ghost predicate Grouped(tracks: seq<Track>, root: Partition, groups: Groups, maxGap: int) {
    && (forall r {:trigger IsGroup(tracks, root, groups, maxGap, r)} | r in groups :: IsGroup(tracks, root, groups, maxGap, r))
    && (forall r | r in root && root[r] == r :: r in groups)
    && (forall t {:trigger Placed(root, groups, t)} | t in tracks :: Placed(root, groups, t))
  }

  function JoinGroups(groups: Groups, a: string, b: string, top: string): Groups
    requires a in groups && b in groups
  {
    (groups - {a, b})[top := groups[a] + groups[b]]
  }

  lemma {:induction false} JoinedTop(tracks: seq<Track>, root: Partition, groups: Groups, maxGap: int, a: string, b: string, top: string)
    requires a in groups && b in groups && a != b && (top == a || top == b) && Chain(groups[a] + groups[b], maxGap)
    requires IsGroup(tracks, root, groups, maxGap, a) && IsGroup(tracks, root, groups, maxGap, b)
    ensures IsGroup(tracks, Joined(root, a, b, top), JoinGroups(groups, a, b, top), maxGap, top)
  {
  }

  lemma {:induction false} JoinedOther(tracks: seq<Track>, root: Partition, groups: Groups, maxGap: int, a: string, b: string, top: string, r: string)
    requires a in groups && b in groups && (top == a || top == b) && r in groups && r != a && r != b
    requires IsGroup(tracks, root, groups, maxGap, r)
    ensures IsGroup(tracks, Joined(root, a, b, top), JoinGroups(groups, a, b, top), maxGap, r)
  {
  }

  lemma {:induction false} JoinedGroup(tracks: seq<Track>, root: Partition, groups: Groups, maxGap: int, a: string, b: string, top: string, r: string)
    requires Grouped(tracks, root, groups, maxGap) && a in groups && b in groups && a != b && (top == a || top == b)
    requires Chain(groups[a] + groups[b], maxGap)
    requires r in JoinGroups(groups, a, b, top)
    ensures IsGroup(tracks, Joined(root, a, b, top), JoinGroups(groups, a, b, top), maxGap, r)
  {
    if r == top {
      JoinedTop(tracks, root, groups, maxGap, a, b, top);
    } else {
      JoinedOther(tracks, root, groups, maxGap, a, b, top, r);
    }
  }

  lemma {:induction false} JoinedPlace(tracks: seq<Track>, root: Partition, groups: Groups, a: string, b: string, top: string, t: Track)
    requires Placed(root, groups, t) && a in groups && b in groups && (top == a || top == b)
    ensures Placed(Joined(root, a, b, top), JoinGroups(groups, a, b, top), t)
  {
  }

  lemma {:induction false} JoinedCount(groups: Groups, a: string, b: string, top: string)
    requires a in groups && b in groups && a != b && (top == a || top == b)
    ensures |JoinGroups(groups, a, b, top)| == |groups| - 1
  {
    var other := if top == a then b else a;
    assert JoinGroups(groups, a, b, top).Keys == groups.Keys - {other};
  }

  lemma {:induction false} JoinKeepsGrouped(tracks: seq<Track>, root: Partition, groups: Groups, maxGap: int, a: string, b: string, top: string)
    requires Grouped(tracks, root, groups, maxGap) && a in groups && b in groups && a != b && (top == a || top == b)
    requires Chain(groups[a] + groups[b], maxGap)
    ensures Grouped(tracks, Joined(root, a, b, top), JoinGroups(groups, a, b, top), maxGap)
  {
    var root', groups' := Joined(root, a, b, top), JoinGroups(groups, a, b, top);
    forall r | r in groups' ensures IsGroup(tracks, root', groups', maxGap, r) {
      JoinedGroup(tracks, root, groups, maxGap, a, b, top, r);
    }
    forall t | t in tracks ensures Placed(root', groups', t) {
      assert Placed(root, groups, t);
      JoinedPlace(tracks, root, groups, a, b, top, t);
    }
    forall r | r in root' && root'[r] == r ensures r in groups' {
      assert IsGroup(tracks, root, groups, maxGap, a) && IsGroup(tracks, root, groups, maxGap, b);
      assert r == top || root[r] == r;
    }
  }

  // ----- groups and the pairs that made them

  /** Two ids have one representative exactly when accepted pairs join them. */
  ghost predicate Reflects(root: Partition, pairs: set<Candidate>) {
    && (forall c | c in pairs :: c.to in root && c.from in root)
    && forall x, y {:trigger Linked(pairs, x, y)} | x in root && y in root :: root[x] == root[y] <==> Linked(pairs, x, y)
  }

  lemma {:induction false} StartReflects(root: Partition)
    requires forall x | x in root :: root[x] == x
    ensures Reflects(root, {})
  {
    forall x, y | x in root && y in root ensures root[x] == root[y] <==> Linked({}, x, y) {
      LinkedSelf({}, x);
      forall path | IsPath({}, path, x, y) ensures x == y {
        assert |path| > 1 ==> Edge({}, path[0], path[1]);
      }
    }
  }

  /** Ends of pairs with one representative have one representative along any path. */
  lemma {:induction false} PathRoot(root: Partition, pairs: set<Candidate>, path: seq<string>, x: string, y: string)
    requires forall c | c in pairs :: c.to in root && c.from in root && root[c.to] == root[c.from]
    requires IsPath(pairs, path, x, y) && x in root
    ensures y in root && root[y] == root[x]
  {
    if |path| > 1 {
      assert Edge(pairs, path[0], path[1]);
      var rest := path[1..];
      forall i | 0 < i < |rest| ensures Edge(pairs, rest[i - 1], rest[i]) {
        assert Edge(pairs, path[i], path[i + 1]);
      }
      PathRoot(root, pairs, rest, path[1], y);
    }
  }

  lemma {:induction false} LinkedRoot(root: Partition, pairs: set<Candidate>, x: string, y: string)
    requires forall c | c in pairs :: c.to in root && c.from in root && root[c.to] == root[c.from]
    requires Linked(pairs, x, y) && x in root
    ensures y in root && root[y] == root[x]
  {
    var path :| IsPath(pairs, path, x, y);
    PathRoot(root, pairs, path, x, y);
  }

  lemma {:induction false} PairsHaveRoots(root: Partition, pairs: set<Candidate>)
    requires Reflects(root, pairs)
    ensures forall c | c in pairs :: c.to in root && c.from in root && root[c.to] == root[c.from]
  {
    forall c | c in pairs ensures root[c.to] == root[c.from] {
      LinkedPair(pairs, c);
    }
  }

  /** Joining the classes of a pair's ends links them in both ways. */
  lemma {:induction false} JoinLinks(root: Partition, pairs: set<Candidate>, c: Candidate, x: string, y: string)
    requires Reflects(root, pairs) && c.to in root && c.from in root && x in root && y in root
    requires root[x] == root[y] || (root[x] == root[c.to] && root[y] == root[c.from]) || (root[x] == root[c.from] && root[y] == root[c.to])
    ensures Linked(pairs + {c}, x, y)
  {
    var more := pairs + {c};
    LinkedPair(more, c);
    if root[x] == root[y] {
      assert Linked(pairs, x, y);
      LinkedMore(pairs, more, x, y);
    } else {
      var (p, q) := if root[x] == root[c.to] then (c.to, c.from) else (c.from, c.to);
      assert Linked(pairs, x, p) && Linked(pairs, q, y);
      LinkedMore(pairs, more, x, p);
      LinkedMore(pairs, more, q, y);
      LinkedOver(more, x, p, q);
      LinkedOver(more, x, q, y);
    }
  }

  lemma {:induction false} JoinReflects(root: Partition, pairs: set<Candidate>, c: Candidate, top: string)
    requires Reflects(root, pairs) && c.to in root && c.from in root && (top == root[c.to] || top == root[c.from])
    ensures Reflects(Joined(root, root[c.to], root[c.from], top), pairs + {c})
  {
    var (root', more) := (Joined(root, root[c.to], root[c.from], top), pairs + {c});
    PairsHaveRoots(root, pairs);
    forall d | d in more ensures d.to in root' && d.from in root' && root'[d.to] == root'[d.from] {
    }
    forall x, y | x in root' && y in root' ensures root'[x] == root'[y] <==> Linked(more, x, y) {
      if Linked(more, x, y) {
        LinkedRoot(root', more, x, y);
      }
      if root'[x] == root'[y] {
        JoinLinks(root, pairs, c, x, y);
      }
    }
  }

  lemma {:induction false} MaxIsMember(s: seq<int>)
    requires s != []
    ensures MaxOf(s) in s && forall i | 0 <= i < |s| :: s[i] <= MaxOf(s)
  {
    if |s| > 1 {
      MaxIsMember(s[..|s| - 1]);
      assert s == s[..|s| - 1] + [s[|s| - 1]];
    }
  }

  lemma {:induction false} MinIsMember(s: seq<int>)
    requires s != []
    ensures MinOf(s) in s && forall i | 0 <= i < |s| :: MinOf(s) <= s[i]
  {
    if |s| > 1 {
      MinIsMember(s[..|s| - 1]);
      assert s == s[..|s| - 1] + [s[|s| - 1]];
    }
  }

  /** One group ends before another begins when each of its fragments ends before each of the other's. */
  lemma {:induction false} EndsBefore(a: seq<Track>, b: seq<Track>)
    requires a != [] && b != []
    ensures MaxOf(Ends(a)) < MinOf(Starts(b)) <==> forall l, r | l in a && r in b :: LastFrame(l) < FirstFrame(r)
  {
    MaxIsMember(Ends(a));
    MinIsMember(Starts(b));
    var i :| 0 <= i < |a| && Ends(a)[i] == MaxOf(Ends(a));
    var j :| 0 <= j < |b| && Starts(b)[j] == MinOf(Starts(b));
    assert a[i] in a && b[j] in b;
    forall l, r | l in a && r in b ensures LastFrame(l) <= MaxOf(Ends(a)) && MinOf(Starts(b)) <= FirstFrame(r) {
      var p :| 0 <= p < |a| && a[p] == l;
      var q :| 0 <= q < |b| && b[q] == r;
      assert Ends(a)[p] == LastFrame(l) && Starts(b)[q] == FirstFrame(r);
    }
  }

  lemma {:induction false} GroupIsLinked(tracks: seq<Track>, root: Partition, groups: Groups, maxGap: int, pairs: set<Candidate>, x: string, t: Track)
    requires Grouped(tracks, root, groups, maxGap) && Reflects(root, pairs) && x in root && root[x] in groups
    ensures t in groups[root[x]] <==> t in tracks && Linked(pairs, x, t.id)
  {
    assert IsGroup(tracks, root, groups, maxGap, root[x]);
    if t in groups[root[x]] {
      assert Linked(pairs, x, t.id);
    }
    if t in tracks {
      assert Placed(root, groups, t);
    }
  }

  lemma {:induction false} ApartIff(tracks: seq<Track>, root: Partition, groups: Groups, maxGap: int, pairs: set<Candidate>, x: string, y: string)
    requires Grouped(tracks, root, groups, maxGap) && Reflects(root, pairs)
    requires x in root && y in root && root[x] in groups && root[y] in groups && groups[root[x]] != [] && groups[root[y]] != []
    ensures Apart(tracks, pairs, x, y) <==> MaxOf(Ends(groups[root[x]])) < MinOf(Starts(groups[root[y]]))
  {
    EndsBefore(groups[root[x]], groups[root[y]]);
    forall t ensures t in groups[root[x]] <==> t in tracks && Linked(pairs, x, t.id) {
      GroupIsLinked(tracks, root, groups, maxGap, pairs, x, t);
    }
    forall t ensures t in groups[root[y]] <==> t in tracks && Linked(pairs, y, t.id) {
      GroupIsLinked(tracks, root, groups, maxGap, pairs, y, t);
    }
  }

  /** The test of the merge loop finds exactly the clashes with the pairs accepted so far. */
  lemma {:induction false} ClashIff(tracks: seq<Track>, root: Partition, groups: Groups, maxGap: int, pairs: set<Candidate>, c: Candidate)
    requires Grouped(tracks, root, groups, maxGap) && Reflects(root, pairs) && c.to in root && c.from in root
    requires root[c.to] in groups && root[c.from] in groups && groups[root[c.to]] != [] && groups[root[c.from]] != []
    ensures Clashes(tracks, pairs, c) <==> root[c.to] == root[c.from] || !Compatible(groups[root[c.to]], groups[root[c.from]])
  {
    ApartIff(tracks, root, groups, maxGap, pairs, c.to, c.from);
    ApartIff(tracks, root, groups, maxGap, pairs, c.from, c.to);
  }

  /** The law holds for the pairs considered so far. */
  ghost predicate JudgedSoFar(tracks: seq<Track>, considered: seq<Candidate>, accepted: seq<Candidate>) {
    && Ranked(accepted) && (forall c | c in accepted :: c in considered)
    && forall c | c in considered :: Judged(tracks, Members(accepted), c)
  }

  lemma {:induction false} AheadOfNext(considered: seq<Candidate>, accepted: seq<Candidate>, c: Candidate)
    requires (forall d | d in accepted :: d in considered) && (forall d | d in considered :: !RanksBefore(c, d)) && c !in accepted
    ensures Ahead(Members(accepted), c) == Members(accepted)
    ensures forall d | d in accepted :: RanksBefore(d, c)
  {
    forall d | d in accepted ensures RanksBefore(d, c) {
      RankOrder(d, c, d);
    }
  }

  lemma {:induction false} JudgeReject(tracks: seq<Track>, considered: seq<Candidate>, accepted: seq<Candidate>, c: Candidate)
    requires JudgedSoFar(tracks, considered, accepted) && (forall d | d in considered :: !RanksBefore(c, d))
    requires Clashes(tracks, Members(accepted), c)
    ensures JudgedSoFar(tracks, considered + [c], accepted)
  {
    forall d | d in considered + [c] ensures Judged(tracks, Members(accepted), d) {
      if d !in considered {
        AheadOfNext(considered, accepted, c);
      }
    }
  }

  lemma {:induction false} JudgeAccept(tracks: seq<Track>, considered: seq<Candidate>, accepted: seq<Candidate>, c: Candidate)
    requires JudgedSoFar(tracks, considered, accepted) && (forall d | d in considered :: !RanksBefore(c, d))
    requires !Clashes(tracks, Members(accepted), c) && c !in accepted
    ensures JudgedSoFar(tracks, considered + [c], accepted + [c]) && Members(accepted + [c]) == Members(accepted) + {c}
  {
    var more := accepted + [c];
    AheadOfNext(considered, accepted, c);
    assert Members(more) == Members(accepted) + {c};
    RankOrder(c, c, c);
    assert Ahead(Members(more), c) == Ahead(Members(accepted), c);
    forall d | d in considered + [c] ensures Judged(tracks, Members(more), d) {
      if d != c {
        assert d in considered && Judged(tracks, Members(accepted), d);
        assert Ahead(Members(more), d) == Ahead(Members(accepted), d);
      }
    }
    assert forall i | 0 <= i < |accepted| :: accepted[i] in accepted;
  }

  /** A pair accepted before is joined and clashes. */
  lemma {:induction false} AcceptedClashes(tracks: seq<Track>, accepted: seq<Candidate>, c: Candidate)
    requires c in accepted
    ensures Clashes(tracks, Members(accepted), c)
  {
    LinkedPair(Members(accepted), c);
  }

  /** A considered candidate has joined its tracks, or their groups overlap in time. */
  ghost predicate Settled(root: Partition, groups: Groups, c: Candidate) {
    && c.to in root && c.from in root
    && (root[c.to] == root[c.from]
        || (root[c.to] in groups && root[c.from] in groups && groups[root[c.to]] != [] && groups[root[c.from]] != []
            && !Compatible(groups[root[c.to]], groups[root[c.from]])))
  }

  /** What the merge loop keeps: each group is a class, each class is what accepted pairs join,
      considered pairs are settled, and the law holds for them. */
  ghost predicate Merged(tracks: seq<Track>, root: Partition, groups: Groups, accepted: seq<Candidate>, settled: seq<Candidate>, maxGap: int) {
    && Grouped(tracks, root, groups, maxGap) && |accepted| + |groups| == |tracks|
    && root.Keys == (set t | t in tracks :: t.id)
    && (forall c {:trigger Settled(root, groups, c)} | c in settled :: Settled(root, groups, c))
    && Reflects(root, Members(accepted)) && JudgedSoFar(tracks, settled, accepted)
  }

  ghost predicate Merging(tracks: seq<Track>, uf: TrackUnionFind, groups: Groups, accepted: seq<Candidate>, settled: seq<Candidate>, maxGap: int)
    reads uf
  {
    uf.Valid() && Merged(tracks, uf.root, groups, accepted, settled, maxGap)
  }

  lemma {:induction false} JoinedSpan(a: seq<Track>, b: seq<Track>, maxGap: int)
    requires a != [] && b != [] && Chain(a, maxGap) && Chain(b, maxGap) && Chain(a + b, maxGap)
    ensures MinOf(Starts(a + b)) == MinOf(Starts(a)) <= MinOf(Starts(b))
    ensures MaxOf(Ends(a)) <= MaxOf(Ends(b)) == MaxOf(Ends(a + b))
  {
    ChainBounds(a, maxGap);
    ChainBounds(b, maxGap);
    ChainBounds(a + b, maxGap);
    assert a[|a| - 1] in a + b && b[0] in a + b;
  }

  /** A group's span only grows, whether or not it is one of the joined ones. */
  lemma {:induction false} GrownGroup(tracks: seq<Track>, root: Partition, groups: Groups, maxGap: int, a: string, b: string, top: string, z: string)
    requires Grouped(tracks, root, groups, maxGap) && a in groups && b in groups && a != b && (top == a || top == b)
    requires Chain(groups[a] + groups[b], maxGap) && z in groups && groups[z] != []
    ensures var z', groups' := if z == a || z == b then top else z, JoinGroups(groups, a, b, top);
            && z' in groups' && groups'[z'] != []
            && MinOf(Starts(groups'[z'])) <= MinOf(Starts(groups[z])) && MaxOf(Ends(groups[z])) <= MaxOf(Ends(groups'[z']))
  {
    if z == a || z == b {
      assert IsGroup(tracks, root, groups, maxGap, a) && IsGroup(tracks, root, groups, maxGap, b);
      JoinedSpan(groups[a], groups[b], maxGap);
    }
  }

  /** Joining two groups unsettles no candidate: spans only grow. */
  lemma {:induction false} JoinKeepsSettled(tracks: seq<Track>, root: Partition, groups: Groups, maxGap: int, a: string, b: string, top: string, c: Candidate)
    requires Grouped(tracks, root, groups, maxGap) && a in groups && b in groups && a != b && (top == a || top == b)
    requires Chain(groups[a] + groups[b], maxGap) && Settled(root, groups, c)
    ensures Settled(Joined(root, a, b, top), JoinGroups(groups, a, b, top), c)
  {
    if root[c.to] != root[c.from] {
      GrownGroup(tracks, root, groups, maxGap, a, b, top, root[c.to]);
      GrownGroup(tracks, root, groups, maxGap, a, b, top, root[c.from]);
    }
  }

  /** Every track a group of its own. */
  function Singletons(tracks: seq<Track>): (groups: Groups)
    requires DistinctIds(tracks)
    ensures groups.Keys == set t | t in tracks :: t.id
    ensures forall t | t in tracks :: groups[t.id] == [t]
  {
    assert forall a, b | a in tracks && b in tracks && a.id == b.id :: a == b;
    map t | t in tracks :: t.id := [t]
  }

  lemma {:induction false} SingletonGroups(tracks: seq<Track>, ids: set<string>, root: Partition, groups: Groups, maxGap: int)
    requires DistinctIds(tracks) && (forall t | t in tracks :: FirstFrame(t) <= LastFrame(t))
    requires ids == set t | t in tracks :: t.id
    requires root == map x | x in ids :: x
    requires groups.Keys == ids
    requires forall t | t in tracks :: groups[t.id] == [t]
    ensures Grouped(tracks, root, groups, maxGap) && |groups| == |tracks|
  {
    forall r | r in groups ensures IsGroup(tracks, root, groups, maxGap, r) {
      var t :| t in tracks && t.id == r;
    }
    IdCount(tracks);
  }

  lemma {:induction false} IdCount(tracks: seq<Track>)
    requires DistinctIds(tracks)
    ensures |set t | t in tracks :: t.id| == |tracks|
  {
    var ids := set t | t in tracks :: t.id;
    if tracks == [] {
      assert ids == {};
    } else {
      var init, last := tracks[..|tracks| - 1], tracks[|tracks| - 1];
      IdCount(init);
      assert tracks == init + [last];
      assert ids == (set t | t in init :: t.id) + {last.id};
      assert last.id !in (set t | t in init :: t.id);
    }
  }

  /** A candidate whose ends have groups. */
  ghost predicate Grips(root: Partition, groups: Groups, c: Candidate) {
    && c.to in root && c.from in root && root[c.to] in groups && root[c.from] in groups
    && groups[root[c.to]] != [] && groups[root[c.from]] != []
  }

  lemma {:induction false} GripsBoth(test: Test, tracks: seq<Track>, root: Partition, groups: Groups, maxGap: int, c: Candidate)
    returns (left: Track, right: Track)
    requires Grouped(tracks, root, groups, maxGap) && FromPair(test, tracks, c) && MergesWithin(test, maxGap)
    ensures left in tracks && right in tracks && c.to == left.id && c.from == right.id && Grips(root, groups, c)
    ensures left in groups[root[c.to]] && right in groups[root[c.from]]
    ensures LastFrame(left) < FirstFrame(right) <= LastFrame(left) + maxGap + 1
    ensures IsGroup(tracks, root, groups, maxGap, root[c.to]) && IsGroup(tracks, root, groups, maxGap, root[c.from])
  {
    left, right :| left in tracks && right in tracks && test(left, right) == Some(c);
    assert Placed(root, groups, left) && Placed(root, groups, right);
  }

  lemma {:induction false} RejectStep(tracks: seq<Track>, root: Partition, groups: Groups, accepted: seq<Candidate>, settled: seq<Candidate>, maxGap: int, c: Candidate)
    requires Merged(tracks, root, groups, accepted, settled, maxGap) && Grips(root, groups, c)
    requires root[c.to] == root[c.from] || !Compatible(groups[root[c.to]], groups[root[c.from]])
    requires forall d | d in settled :: !RanksBefore(c, d)
    ensures Merged(tracks, root, groups, accepted, settled + [c], maxGap)
  {
    ClashIff(tracks, root, groups, maxGap, Members(accepted), c);
    JudgeReject(tracks, settled, accepted, c);
    assert Settled(root, groups, c);
  }

  lemma {:induction false} AcceptStep(tracks: seq<Track>, root: Partition, groups: Groups, accepted: seq<Candidate>, settled: seq<Candidate>, maxGap: int,
                                      c: Candidate, top: string, root': Partition, groups': Groups)
    requires Merged(tracks, root, groups, accepted, settled, maxGap) && Grips(root, groups, c)
    requires root[c.to] != root[c.from] && Compatible(groups[root[c.to]], groups[root[c.from]])
    requires Chain(groups[root[c.to]] + groups[root[c.from]], maxGap) && (top == root[c.to] || top == root[c.from])
    requires root' == Joined(root, root[c.to], root[c.from], top) && groups' == JoinGroups(groups, root[c.to], root[c.from], top)
    requires forall d | d in settled :: !RanksBefore(c, d)
    ensures Merged(tracks, root', groups', accepted + [c], settled + [c], maxGap)
  {
    var (a, b) := (root[c.to], root[c.from]);
    JoinKeepsGrouped(tracks, root, groups, maxGap, a, b, top);
    JoinedCount(groups, a, b, top);
    AcceptLaw(tracks, root, groups, accepted, settled, maxGap, c, top);
    forall d | d in settled ensures Settled(root', groups', d) {
      assert Settled(root, groups, d);
      JoinKeepsSettled(tracks, root, groups, maxGap, a, b, top, d);
    }
    assert Settled(root', groups', c);
  }

  lemma {:induction false} AcceptLaw(tracks: seq<Track>, root: Partition, groups: Groups, accepted: seq<Candidate>, settled: seq<Candidate>, maxGap: int,
                                     c: Candidate, top: string)
    requires Grouped(tracks, root, groups, maxGap) && Grips(root, groups, c)
    requires Reflects(root, Members(accepted)) && JudgedSoFar(tracks, settled, accepted)
    requires root[c.to] != root[c.from] && Compatible(groups[root[c.to]], groups[root[c.from]]) && (top == root[c.to] || top == root[c.from])
    requires forall d | d in settled :: !RanksBefore(c, d)
    ensures Reflects(Joined(root, root[c.to], root[c.from], top), Members(accepted + [c])) && JudgedSoFar(tracks, settled + [c], accepted + [c])
  {
    ClashIff(tracks, root, groups, maxGap, Members(accepted), c);
    if c in accepted {
      AcceptedClashes(tracks, accepted, c);
    }
    JudgeAccept(tracks, settled, accepted, c);
    JoinReflects(root, Members(accepted), c, top);
  }

  /** One candidate of the merge loop: accept it when it joins two compatible groups. */
  method ConsiderCandidate(ghost test: Test, ghost tracks: seq<Track>, uf: TrackUnionFind, groups: Groups, accepted: seq<Candidate>, ghost settled: seq<Candidate>,
                           ghost maxGap: int, c: Candidate) returns (groups': Groups, accepted': seq<Candidate>)
    requires Merging(tracks, uf, groups, accepted, settled, maxGap)
    requires FromPair(test, tracks, c) && MergesWithin(test, maxGap) && forall d | d in settled :: !RanksBefore(c, d)
    modifies uf
    ensures Merging(tracks, uf, groups', accepted', settled + [c], maxGap)
    ensures accepted' == accepted || accepted' == accepted + [c]
  {
    ghost var left, right := GripsBoth(test, tracks, uf.root, groups, maxGap, c);
    var leftRoot := uf.Find(c.to);
    var rightRoot := uf.Find(c.from);
    if leftRoot == rightRoot || !Compatible(groups[leftRoot], groups[rightRoot]) {
      RejectStep(tracks, uf.root, groups, accepted, settled, maxGap, c);
      return groups, accepted;
    }
    JoinChains(groups[leftRoot], groups[rightRoot], maxGap, left, right);
    ghost var before := uf.root;
    var _ := uf.Union(c.to, c.from);
    var newRoot := uf.Find(c.to);
    groups' := JoinGroups(groups, leftRoot, rightRoot, newRoot);
    AcceptStep(tracks, before, groups, accepted, settled, maxGap, c, newRoot, uf.root, groups');
    return groups', accepted + [c];
  }

  /** An accepted pair names its tracks and is at most maxGap frames apart. */
  ghost predicate MergesWithin(test: Test, maxGap: int) {
    forall left, right | test(left, right).Some? ::
      && test(left, right).value.to == left.id && test(left, right).value.from == right.id
      && LastFrame(left) < FirstFrame(right) <= LastFrame(left) + maxGap + 1
  }

  predicate BetterCandidate(a: Candidate, b: Candidate) {
    if a.gap != b.gap then a.gap < b.gap
    else if a.appearance != b.appearance then a.appearance > b.appearance
    else if a.motion != b.motion then a.motion > b.motion
    else if a.to != b.to then StringLess(a.to, b.to)
    else StringLess(a.from, b.from)
  }

  predicate EarlierTrack(a: Track, b: Track) {
    FirstFrame(a) < FirstFrame(b) || (FirstFrame(a) == FirstFrame(b) && StringLess(a.id, b.id))
  }

  /** The grouping is maximal: no mergeable pair is left between groups that could be joined. */
  ghost predicate Maximal(compare: Comparer, tracks: seq<Track>, root: Partition, groups: Groups, maxGap: int) {
    forall left, right | left in tracks && right in tracks && CanMerge(compare, left, right, maxGap).Some? ::
      && left.id in root && right.id in root
      && (root[left.id] == root[right.id]
          || (root[left.id] in groups && root[right.id] in groups && groups[root[left.id]] != [] && groups[root[right.id]] != []
              && !Compatible(groups[root[left.id]], groups[root[right.id]])))
  }

  lemma {:induction false} PrefixStep<T>(s: seq<T>, k: nat)
    requires k < |s|
    ensures s[..k] + [s[k]] == s[..k + 1]
  {
  }

  lemma {:induction false} WholePrefix<T>(s: seq<T>)
    ensures s[..|s|] == s
  {
  }

  method StartMerging(tracks: seq<Track>, ghost maxGap: int) returns (uf: TrackUnionFind, groups: Groups)
    requires DistinctIds(tracks) && (forall t | t in tracks :: FirstFrame(t) <= LastFrame(t))
    ensures fresh(uf) && Merging(tracks, uf, groups, [], [], maxGap)
  {
    var ids := set t | t in tracks :: t.id;
    uf := new TrackUnionFind(ids);
    groups := Singletons(tracks);
    SingletonGroups(tracks, ids, uf.root, groups, maxGap);
    StartReflects(uf.root);
    assert Members([]) == {};
  }

  /** No candidate of the list ranks before one that stands earlier. */
  ghost predicate InRankOrder(candidates: seq<Candidate>) {
    forall i, j | 0 <= i < j < |candidates| :: !RanksBefore(candidates[j], candidates[i])
  }

  /** Join groups along the candidates, in the given order. */
  method MergeLoop(ghost test: Test, tracks: seq<Track>, candidates: seq<Candidate>, ghost maxGap: int)
    returns (groups: Groups, accepted: seq<Candidate>, ghost root: Partition)
    requires DistinctIds(tracks) && (forall t | t in tracks :: FirstFrame(t) <= LastFrame(t))
    requires MergesWithin(test, maxGap) && (forall c | c in candidates :: FromPair(test, tracks, c)) && InRankOrder(candidates)
    ensures Merged(tracks, root, groups, accepted, candidates, maxGap)
  {
    var uf;
    uf, groups := StartMerging(tracks, maxGap);
    accepted := [];
    for k := 0 to |candidates|
      invariant fresh(uf) && Merging(tracks, uf, groups, accepted, candidates[..k], maxGap)
    {
      groups, accepted := ConsiderCandidate(test, tracks, uf, groups, accepted, candidates[..k], maxGap, candidates[k]);
      PrefixStep(candidates, k);
    }
    root := uf.root;
    WholePrefix(candidates);
  }

  lemma {:induction false} BetterIff(a: Candidate, b: Candidate)
    ensures BetterCandidate(a, b) <==> RanksBefore(a, b)
  {
    StringOrder(a.to, b.to, a.to);
  }

  lemma {:induction false} RankIsWeak(a: Candidate, b: Candidate, c: Candidate)
    requires !RanksBefore(a, b) && !RanksBefore(b, c)
    ensures !RanksBefore(a, c)
  {
    RankOrder(a, b, c);
    RankOrder(b, c, a);
    RankOrder(c, b, a);
    RankOrder(a, c, a);
  }

  /** The candidates are sorted by their ranks. */
  lemma {:induction false} RankedByKey(found: seq<Candidate>)
    ensures InRankOrder(SortBy(BetterCandidate, found))
  {
    forall a, b ensures BetterCandidate(a, b) <==> RanksBefore(a, b) {
      BetterIff(a, b);
    }
    forall a, b, c | !BetterCandidate(a, b) && !BetterCandidate(b, c) ensures !BetterCandidate(a, c) {
      RankIsWeak(a, b, c);
    }
    forall a, b | BetterCandidate(a, b) ensures !BetterCandidate(b, a) {
      RankOrder(a, b, a);
    }
    SortByOrders(BetterCandidate, found);
  }

  /** Order the fragments, collect the candidates, and join groups along the best ones. */
  method GroupFragments(compare: Comparer, tracks: seq<Track>, maxGap: int)
    returns (groups: Groups, accepted: seq<Candidate>, ghost root: Partition)
    requires DistinctIds(tracks) && (forall t | t in tracks :: FirstFrame(t) <= LastFrame(t))
    ensures Grouped(tracks, root, groups, maxGap) && root.Keys == (set t | t in tracks :: t.id)
    ensures Maximal(compare, tracks, root, groups, maxGap)
    ensures Greedy(compare, tracks, maxGap, accepted) && Reflects(root, Members(accepted))
    ensures |accepted| + |groups| == |tracks|
  {
    var ordered := SortBy(EarlierTrack, tracks);
    SortByClimbs(EarlierTrack, FirstFrame, tracks);
    var test := Tester(compare, maxGap);
    TesterMindsGap(compare, maxGap);
    var found := CollectCandidates(test, ordered, maxGap);
    var candidates := SortBy(BetterCandidate, found);
    RankedByKey(found);
    forall c | c in candidates ensures FromPair(test, tracks, c) {
      CandidateFromPair(test, tracks, ordered, found, c);
    }
    groups, accepted, root := MergeLoop(test, tracks, candidates, maxGap);
    SettledIsMaximal(compare, tracks, ordered, found, candidates, root, groups, maxGap);
    AllConsidered(compare, tracks, ordered, found, candidates, maxGap);
    JudgedIsGreedy(compare, tracks, candidates, accepted, maxGap);
  }

  lemma {:induction false} AllConsidered(compare: Comparer, tracks: seq<Track>, ordered: seq<Track>, found: seq<Candidate>, candidates: seq<Candidate>, maxGap: int)
    requires Climbs(FirstFrame, ordered) && (forall t | t in tracks :: FirstFrame(t) <= LastFrame(t))
    requires forall t :: t in ordered <==> t in tracks
    requires found == AllPairs(Tester(compare, maxGap), ordered, 0)
    requires forall c :: c in candidates <==> c in found
    ensures forall c {:trigger IsCandidate(compare, tracks, maxGap, c)} :: IsCandidate(compare, tracks, maxGap, c) <==> c in candidates
  {
    forall c ensures IsCandidate(compare, tracks, maxGap, c) <==> c in candidates {
      CandidateIff(compare, tracks, maxGap, c);
      if c in candidates {
        CandidateFromPair(Tester(compare, maxGap), tracks, ordered, found, c);
      }
      if FromPair(Tester(compare, maxGap), tracks, c) {
        var left, right :| left in tracks && right in tracks && Tester(compare, maxGap)(left, right) == Some(c);
        var i :| 0 <= i < |ordered| && ordered[i] == left;
        var k :| 0 <= k < |ordered| && ordered[k] == right;
        NoPairMissed(compare, ordered, maxGap, i, k);
      }
    }
  }

  lemma {:induction false} JudgedIsGreedy(compare: Comparer, tracks: seq<Track>, candidates: seq<Candidate>, accepted: seq<Candidate>, maxGap: int)
    requires JudgedSoFar(tracks, candidates, accepted)
    requires forall c {:trigger IsCandidate(compare, tracks, maxGap, c)} :: IsCandidate(compare, tracks, maxGap, c) <==> c in candidates
    ensures Greedy(compare, tracks, maxGap, accepted)
  {
  }

  lemma {:induction false} TesterMindsGap(compare: Comparer, maxGap: int)
    ensures MindsGap(Tester(compare, maxGap), maxGap) && MergesWithin(Tester(compare, maxGap), maxGap)
  {
  }

  lemma {:induction false} CandidateFromPair(test: Test, tracks: seq<Track>, ordered: seq<Track>, found: seq<Candidate>, c: Candidate)
    requires found == AllPairs(test, ordered, 0) && c in found
    requires forall t :: t in ordered <==> t in tracks
    ensures FromPair(test, tracks, c)
  {
    AllPairsPairs(test, ordered, 0, c);
  }

  lemma {:induction false} SettledIsMaximal(compare: Comparer, tracks: seq<Track>, ordered: seq<Track>, found: seq<Candidate>, candidates: seq<Candidate>,
                         root: Partition, groups: Groups, maxGap: int)
    requires Climbs(FirstFrame, ordered) && (forall t | t in tracks :: FirstFrame(t) <= LastFrame(t))
    requires forall t :: t in ordered <==> t in tracks
    requires found == AllPairs(Tester(compare, maxGap), ordered, 0)
    requires forall c :: c in candidates <==> c in found
    requires forall c {:trigger Settled(root, groups, c)} | c in candidates :: Settled(root, groups, c)
    ensures Maximal(compare, tracks, root, groups, maxGap)
  {
    forall left, right | left in tracks && right in tracks && CanMerge(compare, left, right, maxGap).Some?
      ensures Settled(root, groups, CanMerge(compare, left, right, maxGap).value)
    {
      var i :| 0 <= i < |ordered| && ordered[i] == left;
      var k :| 0 <= k < |ordered| && ordered[k] == right;
      NoPairMissed(compare, ordered, maxGap, i, k);
    }
  }
}
