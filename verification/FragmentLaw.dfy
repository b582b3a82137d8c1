/** Which of the mergeable pairs of fragments are joined: the law of the greedy merge, told from
    the ranking of the pairs, the groups they make and the frames they span. */
module FragmentLaw {
  import opened Options
  import opened Orders
  import opened Tracks
  import opened Fragments

  // ----- the ranking

  /** Smaller gaps first, then the likest appearance, then the best motion, then the ids. */
  predicate RanksBefore(a: Candidate, b: Candidate) {
    || a.gap < b.gap
    || (a.gap == b.gap && a.appearance > b.appearance)
    || (a.gap == b.gap && a.appearance == b.appearance && a.motion > b.motion)
    || (a.gap == b.gap && a.appearance == b.appearance && a.motion == b.motion && StringLess(a.to, b.to))
    || (a.gap == b.gap && a.appearance == b.appearance && a.motion == b.motion && a.to == b.to && StringLess(a.from, b.from))
  }

  /** The ranking is a strict total order. */
  lemma {:induction false} RankOrder(a: Candidate, b: Candidate, c: Candidate)
    ensures !(RanksBefore(a, b) && RanksBefore(b, a)) && (a != b ==> RanksBefore(a, b) || RanksBefore(b, a))
    ensures RanksBefore(a, b) && RanksBefore(b, c) ==> RanksBefore(a, c)
  {
    StringOrder(a.to, b.to, a.to);
    StringOrder(a.from, b.from, a.from);
    StringTotal(a.to, b.to);
    StringTotal(a.from, b.from);
    if StringLess(a.to, b.to) && StringLess(b.to, c.to) {
      StringTransitive(a.to, b.to, c.to);
    }
    if StringLess(a.from, b.from) && StringLess(b.from, c.from) {
      StringTransitive(a.from, b.from, c.from);
    }
  }

  // ----- groups made by pairs

  ghost predicate Edge(pairs: set<Candidate>, x: string, y: string) {
    exists c :: c in pairs && ((c.to == x && c.from == y) || (c.to == y && c.from == x))
  }

  ghost predicate IsPath(pairs: set<Candidate>, path: seq<string>, x: string, y: string) {
    path != [] && path[0] == x && path[|path| - 1] == y && forall i | 0 < i < |path| :: Edge(pairs, path[i - 1], path[i])
  }

  /** Joined directly or through others. */
  ghost predicate Linked(pairs: set<Candidate>, x: string, y: string) {
    exists path :: IsPath(pairs, path, x, y)
  }

  /** All that is joined with x ends before anything joined with y begins. */
  ghost predicate Apart(tracks: seq<Track>, pairs: set<Candidate>, x: string, y: string) {
    forall l, r | l in tracks && r in tracks && Linked(pairs, x, l.id) && Linked(pairs, y, r.id) :: LastFrame(l) < FirstFrame(r)
  }

  /** The ends of the pair are joined already, or their groups overlap in time. */
  ghost predicate Clashes(tracks: seq<Track>, pairs: set<Candidate>, c: Candidate) {
    Linked(pairs, c.to, c.from) || !(Apart(tracks, pairs, c.to, c.from) || Apart(tracks, pairs, c.from, c.to))
  }

  // ----- the law

  /** The second fragment follows the first within the limit, they look alike, and they move alike
      unless they look very much alike. */
  ghost predicate Follows(compare: Comparer, left: Track, right: Track, maxGap: int, c: Candidate) {
    && c.to == left.id && c.from == right.id && c.gap == FirstFrame(right) - LastFrame(left) - 1 && 0 <= c.gap <= maxGap
    && compare(left, right) == Similarity(Some(c.appearance), c.motion) && right.observations != []
    && ((c.appearance >= 860_000 && c.motion >= 50_000) || c.appearance >= 920_000)
  }

  ghost predicate IsCandidate(compare: Comparer, tracks: seq<Track>, maxGap: int, c: Candidate) {
    exists left, right :: left in tracks && right in tracks && Follows(compare, left, right, maxGap, c)
  }

  function Ahead(pairs: set<Candidate>, c: Candidate): set<Candidate> {
    set x | x in pairs && RanksBefore(x, c)
  }

  /** The pair is accepted unless it clashes with the accepted pairs that rank before it. */
  ghost predicate Judged(tracks: seq<Track>, pairs: set<Candidate>, c: Candidate) {
    c in pairs <==> !Clashes(tracks, Ahead(pairs, c), c)
  }

  function Members(s: seq<Candidate>): set<Candidate> {
    set c | c in s
  }

  ghost predicate Ranked(s: seq<Candidate>) {
    forall i, j | 0 <= i < j < |s| :: RanksBefore(s[i], s[j])
  }

  ghost predicate IsGreedy(compare: Comparer, tracks: seq<Track>, maxGap: int, pairs: set<Candidate>) {
    && (forall c | c in pairs :: IsCandidate(compare, tracks, maxGap, c))
    && forall c | IsCandidate(compare, tracks, maxGap, c) :: Judged(tracks, pairs, c)
  }

  /** The accepted pairs in the order of their ranks: exactly those mergeable pairs that do not
      clash with the accepted pairs ranking before them. */
  ghost predicate Greedy(compare: Comparer, tracks: seq<Track>, maxGap: int, accepted: seq<Candidate>) {
    Ranked(accepted) && IsGreedy(compare, tracks, maxGap, Members(accepted))
  }

  /** The test of the merge accepts a pair exactly when the second fragment follows the first. */
  lemma {:induction false} MergesIff(compare: Comparer, left: Track, right: Track, maxGap: int, c: Candidate)
    ensures CanMerge(compare, left, right, maxGap) == Some(c) <==> Follows(compare, left, right, maxGap, c)
  {
  }

  lemma {:induction false} CandidateIff(compare: Comparer, tracks: seq<Track>, maxGap: int, c: Candidate)
    ensures IsCandidate(compare, tracks, maxGap, c) <==> FromPair(Tester(compare, maxGap), tracks, c)
  {
    if IsCandidate(compare, tracks, maxGap, c) {
      var left, right :| left in tracks && right in tracks && Follows(compare, left, right, maxGap, c);
      MergesIff(compare, left, right, maxGap, c);
      assert Tester(compare, maxGap)(left, right) == Some(c);
    }
    if FromPair(Tester(compare, maxGap), tracks, c) {
      var left, right :| left in tracks && right in tracks && Tester(compare, maxGap)(left, right) == Some(c);
      MergesIff(compare, left, right, maxGap, c);
    }
  }

  // ----- the law decides everything

  lemma {:induction false} FirstOf(some: set<Candidate>) returns (c: Candidate)
    requires some != {}
    ensures c in some && forall x | x in some && x != c :: RanksBefore(c, x)
    decreases |some|
  {
    c :| c in some;
    if some != {c} {
      var best := FirstOf(some - {c});
      RankOrder(c, best, c);
      if RanksBefore(best, c) {
        c := best;
      } else {
        forall x | x in some && x != c ensures RanksBefore(c, x) {
          RankOrder(c, best, x);
        }
      }
    }
  }

  lemma {:induction false} NoFirstDifference(compare: Comparer, tracks: seq<Track>, maxGap: int, a: set<Candidate>, b: set<Candidate>, c: Candidate)
    requires IsGreedy(compare, tracks, maxGap, a) && IsGreedy(compare, tracks, maxGap, b)
    requires forall x | RanksBefore(x, c) :: x in a <==> x in b
    ensures c in a <==> c in b
  {
    assert Ahead(a, c) == Ahead(b, c);
    if c in a || c in b {
      assert Judged(tracks, a, c) && Judged(tracks, b, c);
    }
  }

  /** One set of accepted pairs only obeys the law. */
  lemma {:induction false} GreedyIsUnique(compare: Comparer, tracks: seq<Track>, maxGap: int, a: set<Candidate>, b: set<Candidate>)
    requires IsGreedy(compare, tracks, maxGap, a) && IsGreedy(compare, tracks, maxGap, b)
    ensures a == b
  {
    if a != b {
      var c := FirstOf((a - b) + (b - a));
      forall x | RanksBefore(x, c) ensures x in a <==> x in b {
        RankOrder(x, c, x);
      }
      NoFirstDifference(compare, tracks, maxGap, a, b, c);
    }
  }

  lemma {:induction false} RankedIsUnique(s: seq<Candidate>, t: seq<Candidate>)
    requires Ranked(s) && Ranked(t) && Members(s) == Members(t)
    ensures s == t
  {
    Inhabited(s);
    Inhabited(t);
    if s != [] {
      SameHead(s, t);
      SameTail(s, t);
      RankedIsUnique(s[1..], t[1..]);
      assert s == [s[0]] + s[1..] && t == [t[0]] + t[1..];
    }
  }

  lemma {:induction false} Inhabited(s: seq<Candidate>)
    ensures s != [] <==> Members(s) != {}
  {
    if s != [] {
      assert s[0] in Members(s);
    }
  }

  lemma {:induction false} SameHead(s: seq<Candidate>, t: seq<Candidate>)
    requires Ranked(s) && Ranked(t) && Members(s) == Members(t) && s != [] && t != []
    ensures s[0] == t[0]
  {
    assert s[0] in Members(s) && t[0] in Members(t);
    var i :| 0 <= i < |t| && t[i] == s[0];
    var j :| 0 <= j < |s| && s[j] == t[0];
    RankOrder(s[0], t[0], s[0]);
  }

  lemma {:induction false} SameTail(s: seq<Candidate>, t: seq<Candidate>)
    requires Ranked(s) && Ranked(t) && Members(s) == Members(t) && s != [] && t != [] && s[0] == t[0]
    ensures Members(s[1..]) == Members(t[1..])
  {
    TailMembers(s);
    TailMembers(t);
  }

  lemma {:induction false} TailMembers(s: seq<Candidate>)
    requires Ranked(s) && s != []
    ensures Members(s[1..]) == Members(s) - {s[0]}
  {
    assert s == [s[0]] + s[1..];
    forall c | c in s[1..] ensures c != s[0] {
      var i :| 0 <= i < |s| - 1 && s[1..][i] == c;
      assert RanksBefore(s[0], s[i + 1]);
      RankOrder(s[0], c, s[0]);
    }
  }

  /** The accepted list is determined by the tracks. */
  lemma {:induction false} AcceptedIsUnique(compare: Comparer, tracks: seq<Track>, maxGap: int, a: seq<Candidate>, b: seq<Candidate>)
    requires Greedy(compare, tracks, maxGap, a) && Greedy(compare, tracks, maxGap, b)
    ensures a == b
  {
    GreedyIsUnique(compare, tracks, maxGap, Members(a), Members(b));
    RankedIsUnique(a, b);
  }

  // ----- paths

  lemma {:induction false} LinkedSelf(pairs: set<Candidate>, x: string)
    ensures Linked(pairs, x, x)
  {
    assert IsPath(pairs, [x], x, x);
  }

  lemma {:induction false} LinkedOver(pairs: set<Candidate>, x: string, y: string, z: string)
    requires Linked(pairs, x, y) && Linked(pairs, y, z)
    ensures Linked(pairs, x, z)
  {
    var p :| IsPath(pairs, p, x, y);
    var q :| IsPath(pairs, q, y, z);
    var both := p + q[1..];
    forall i | 0 < i < |both| ensures Edge(pairs, both[i - 1], both[i]) {
      if i < |p| {
        assert both[i - 1] == p[i - 1] && both[i] == p[i];
      } else {
        assert both[i - 1] == q[i - |p|] && both[i] == q[i - |p| + 1];
      }
    }
    assert IsPath(pairs, both, x, z);
  }

  lemma {:induction false} LinkedMore(pairs: set<Candidate>, more: set<Candidate>, x: string, y: string)
    requires pairs <= more && Linked(pairs, x, y)
    ensures Linked(more, x, y)
  {
    var p :| IsPath(pairs, p, x, y);
    forall i | 0 < i < |p| ensures Edge(more, p[i - 1], p[i]) {
      assert Edge(pairs, p[i - 1], p[i]);
    }
    assert IsPath(more, p, x, y);
  }

  lemma {:induction false} LinkedPair(pairs: set<Candidate>, c: Candidate)
    requires c in pairs
    ensures Linked(pairs, c.to, c.from) && Linked(pairs, c.from, c.to)
  {
    assert Edge(pairs, c.to, c.from) && Edge(pairs, c.from, c.to);
    assert IsPath(pairs, [c.to, c.from], c.to, c.from) && IsPath(pairs, [c.from, c.to], c.from, c.to);
  }
}
