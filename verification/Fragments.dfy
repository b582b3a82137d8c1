/** Merging of track fragments: what the tracker records, and the pairs that may be merged. */
module Fragments {
  import opened Options
  import opened Tracks
  import opened Sorting

  // ----- time bounds of a track

  function MinOf(s: seq<int>): int
    requires s != []
  {
    if |s| == 1 then s[0]
    else
      var m := MinOf(s[..|s| - 1]);
      if s[|s| - 1] < m then s[|s| - 1] else m
  }

  function MaxOf(s: seq<int>): int
    requires s != []
  {
    if |s| == 1 then s[0]
    else
      var m := MaxOf(s[..|s| - 1]);
      if s[|s| - 1] > m then s[|s| - 1] else m
  }

  function FirstFrame(t: Track): int {
    if t.frameIndexes == [] then t.lastFrame else MinOf(t.frameIndexes)
  }

  function LastFrame(t: Track): int {
    if t.frameIndexes == [] then t.lastFrame else MaxOf(t.frameIndexes)
  }

  // ----- what the tracker records

  ghost function Indexes(obs: seq<Observation>): seq<int> {
    seq(|obs|, i requires 0 <= i < |obs| => obs[i].frame)
  }

  /** The samples of all observations, in order. */
  ghost function Sampled(obs: seq<Observation>): seq<Vector> {
    if obs == [] then [] else Sampled(obs[..|obs| - 1]) + obs[|obs| - 1].samples
  }

  lemma {:induction false} SampledConcat(a: seq<Observation>, b: seq<Observation>)
    ensures Sampled(a + b) == Sampled(a) + Sampled(b)
  {
    if b == [] {
      assert a + b == a;
    } else {
      assert (a + b)[..|a + b| - 1] == a + b[..|b| - 1];
      SampledConcat(a, b[..|b| - 1]);
    }
  }

  /** Frames rise strictly and by at most `reach`. */
  ghost predicate Steady(obs: seq<Observation>, reach: int) {
    forall i | 0 < i < |obs| :: obs[i - 1].frame < obs[i].frame <= obs[i - 1].frame + reach
  }

  /** A track records exactly the persons that carry its id. */
  ghost predicate Recorded(frames: seq<Frame>, t: Track, reach: int) {
    && t.observations == Sightings(frames, t.id) && t.observations != []
    && t.hits == |t.observations| && t.age == t.hits
    && t.frameIndexes == Indexes(t.observations) && t.samples == Sampled(t.observations)
    && t.lastFrame == t.observations[|t.observations| - 1].frame && t.lastBox == t.observations[|t.observations| - 1].box
    && Steady(t.observations, reach)
  }

  ghost predicate DistinctIds(tracks: seq<Track>) {
    forall i, j | 0 <= i < j < |tracks| :: tracks[i].id != tracks[j].id
  }

  ghost predicate Known(tracks: seq<Track>, id: string) {
    exists t :: t in tracks && t.id == id
  }

  /** Frames and tracks tell the same story. */
  ghost predicate Consistent(frames: seq<Frame>, tracks: seq<Track>, reach: int) {
    && DistinctIds(tracks)
    && (forall t | t in tracks :: Recorded(frames, t, reach))
    && forall id :: Sightings(frames, id) != [] ==> Known(tracks, id)
  }

  lemma {:induction false} SteadyClimbs(obs: seq<Observation>, reach: int, i: nat, j: nat)
    requires Steady(obs, reach) && i < j < |obs|
    ensures obs[i].frame < obs[j].frame
    decreases j
  {
    if i < j - 1 {
      SteadyClimbs(obs, reach, i, j - 1);
    }
  }

  lemma {:induction false} MinIsFirst(s: seq<int>)
    requires s != [] && forall i | 0 <= i < |s| :: s[0] <= s[i]
    ensures MinOf(s) == s[0]
  {
    if |s| > 1 {
      MinIsFirst(s[..|s| - 1]);
    }
  }

  lemma {:induction false} MaxIsAtMost(s: seq<int>, bound: int)
    requires s != [] && forall i | 0 <= i < |s| :: s[i] <= bound
    ensures MaxOf(s) <= bound
  {
    if |s| > 1 {
      MaxIsAtMost(s[..|s| - 1], bound);
    }
  }

  lemma {:induction false} MaxIsLast(s: seq<int>)
    requires s != [] && forall i | 0 <= i < |s| :: s[i] <= s[|s| - 1]
    ensures MaxOf(s) == s[|s| - 1]
  {
    if |s| > 1 {
      MaxIsAtMost(s[..|s| - 1], s[|s| - 1]);
    }
  }

  lemma {:induction false} SteadyRange(obs: seq<Observation>, reach: int, i: nat)
    requires Steady(obs, reach) && i < |obs|
    ensures obs[0].frame <= obs[i].frame <= obs[|obs| - 1].frame
  {
    if 0 < i { SteadyClimbs(obs, reach, 0, i); }
    if i < |obs| - 1 { SteadyClimbs(obs, reach, i, |obs| - 1); }
  }

  /** The bounds of a recorded track are its first and last observation. */
  lemma {:induction false} Bounds(frames: seq<Frame>, t: Track, reach: int)
    requires Recorded(frames, t, reach)
    ensures FirstFrame(t) == t.observations[0].frame <= LastFrame(t) == t.lastFrame
    ensures forall i | 0 <= i < |t.observations| :: FirstFrame(t) <= t.observations[i].frame <= LastFrame(t)
  {
    var obs := t.observations;
    forall i | 0 <= i < |obs| ensures obs[0].frame <= obs[i].frame <= obs[|obs| - 1].frame {
      SteadyRange(obs, reach, i);
    }
    MinIsFirst(Indexes(obs));
    MaxIsLast(Indexes(obs));
  }

  // ----- candidates

  /** Appearance and motion agreement of two fragments, in millionths. */
  datatype Similarity = Similarity(appearance: Option<nat>, motion: nat)
  type Comparer = (Track, Track) -> Similarity

  datatype Candidate = Candidate(from: string, to: string, gap: int, appearance: nat, motion: nat)

  function CanMerge(compare: Comparer, left: Track, right: Track, maxGap: int): Option<Candidate> {
    if LastFrame(left) >= FirstFrame(right) then None
    else
      var gap := FirstFrame(right) - LastFrame(left) - 1;
      if gap < 0 || gap > maxGap then None
      else
        var s := compare(left, right);
        if s.appearance.None? || s.appearance.value < 860_000 then None
        else if right.observations == [] then None
        else if s.motion < 50_000 && s.appearance.value < 920_000 then None
        else Some(Candidate(right.id, left.id, gap, s.appearance.value, s.motion))
  }

  /** The test applied to a pair of fragments. */
  type Test = (Track, Track) -> Option<Candidate>

  function Tester(compare: Comparer, maxGap: int): Test {
    (left, right) => CanMerge(compare, left, right, maxGap)
  }

  predicate TooLate(left: Track, right: Track, maxGap: int) {
    FirstFrame(right) - LastFrame(left) - 1 > maxGap
  }

  /** The test turns down fragments that start too late. */
  ghost predicate MindsGap(test: Test, maxGap: int) {
    forall left, right | TooLate(left, right, maxGap) :: test(left, right) == None
  }

  function AsList<T>(o: Option<T>): seq<T> {
    if o.Some? then [o.value] else []
  }

  /** Every later track tested against track i, from position j on. */
  function Row(test: Test, ordered: seq<Track>, i: nat, j: nat): seq<Candidate>
    requires i < |ordered|
    decreases |ordered| - j
  {
    if j >= |ordered| then [] else AsList(test(ordered[i], ordered[j])) + Row(test, ordered, i, j + 1)
  }

  /** Every pair tested. */
  function AllPairs(test: Test, ordered: seq<Track>, i: nat): seq<Candidate>
    decreases |ordered| - i
  {
    if i >= |ordered| then [] else Row(test, ordered, i, i + 1) + AllPairs(test, ordered, i + 1)
  }

  /** Once a track starts too late, all later ones do. */
  lemma {:induction false} RestTooLate(test: Test, ordered: seq<Track>, maxGap: int, i: nat, j: nat)
    requires Climbs(FirstFrame, ordered) && MindsGap(test, maxGap) && i < |ordered| && j <= |ordered|
    requires j < |ordered| ==> TooLate(ordered[i], ordered[j], maxGap)
    ensures Row(test, ordered, i, j) == []
    decreases |ordered| - j
  {
    if j < |ordered| {
      RestTooLate(test, ordered, maxGap, i, j + 1);
    }
  }

  lemma {:induction false} Regroup<T>(a: seq<T>, b: seq<T>, c: seq<T>)
    ensures a + (b + c) == (a + b) + c
    ensures b == [] ==> a + b == a
  {
  }

  /** The inner loop with its early exit. */
  method CollectRow(test: Test, ordered: seq<Track>, maxGap: int, i: nat) returns (row: seq<Candidate>)
    requires Climbs(FirstFrame, ordered) && MindsGap(test, maxGap) && i < |ordered|
    ensures row == Row(test, ordered, i, i + 1)
  {
    ghost var all := Row(test, ordered, i, i + 1);
    row := [];
    var j := i + 1;
    while j < |ordered|
      invariant i < j <= |ordered|
      invariant row + Row(test, ordered, i, j) == all
    {
      if TooLate(ordered[i], ordered[j], maxGap) {
        RestTooLate(test, ordered, maxGap, i, j);
        break;
      }
      var merge := test(ordered[i], ordered[j]);
      Regroup(row, AsList(merge), Row(test, ordered, i, j + 1));
      if merge.Some? {
        row := row + [merge.value];
      }
      j := j + 1;
    }
  }

  /** The double loop finds what testing every pair finds. */
  method CollectCandidates(test: Test, ordered: seq<Track>, maxGap: int) returns (candidates: seq<Candidate>)
    requires Climbs(FirstFrame, ordered) && MindsGap(test, maxGap)
    ensures candidates == AllPairs(test, ordered, 0)
  {
    candidates := [];
    for i := 0 to |ordered|
      invariant candidates + AllPairs(test, ordered, i) == AllPairs(test, ordered, 0)
    {
      var row := CollectRow(test, ordered, maxGap, i);
      Regroup(candidates, row, AllPairs(test, ordered, i + 1));
      candidates := candidates + row;
    }
  }

  ghost predicate FromPair(test: Test, tracks: seq<Track>, c: Candidate) {
    exists left, right :: left in tracks && right in tracks && test(left, right) == Some(c)
  }

  lemma {:induction false} RowPairs(test: Test, ordered: seq<Track>, i: nat, j: nat, c: Candidate)
    requires i < |ordered| && c in Row(test, ordered, i, j)
    ensures FromPair(test, ordered, c)
    decreases |ordered| - j
  {
    var left, right := ordered[i], ordered[j];
    if test(left, right) == Some(c) {
      assert left in ordered && right in ordered;
    } else {
      RowPairs(test, ordered, i, j + 1, c);
    }
  }

  lemma {:induction false} AllPairsPairs(test: Test, ordered: seq<Track>, i: nat, c: Candidate)
    requires c in AllPairs(test, ordered, i)
    ensures FromPair(test, ordered, c)
    decreases |ordered| - i
  {
    if c in Row(test, ordered, i, i + 1) {
      RowPairs(test, ordered, i, i + 1, c);
    } else {
      AllPairsPairs(test, ordered, i + 1, c);
    }
  }

  lemma {:induction false} RowComplete(test: Test, ordered: seq<Track>, i: nat, j: nat, k: nat, c: Candidate)
    requires i < |ordered| && j <= k < |ordered| && test(ordered[i], ordered[k]) == Some(c)
    ensures c in Row(test, ordered, i, j)
    decreases k - j
  {
    if j < k {
      RowComplete(test, ordered, i, j + 1, k, c);
    }
  }

  lemma {:induction false} AllPairsComplete(test: Test, ordered: seq<Track>, h: nat, i: nat, k: nat, c: Candidate)
    requires h <= i < k < |ordered| && test(ordered[i], ordered[k]) == Some(c)
    ensures c in AllPairs(test, ordered, h)
    decreases i - h
  {
    var row, rest := Row(test, ordered, h, h + 1), AllPairs(test, ordered, h + 1);
    if h < i {
      AllPairsComplete(test, ordered, h + 1, i, k, c);
      assert c in rest;
    } else {
      RowComplete(test, ordered, i, i + 1, k, c);
      assert c in row;
    }
    assert c in row + rest;
  }

  /** The early exit misses no mergeable pair of the ordered tracks, in whichever order the
      two stand. */
  lemma {:induction false} NoPairMissed(compare: Comparer, ordered: seq<Track>, maxGap: int, i: nat, k: nat)
    requires Climbs(FirstFrame, ordered) && (forall t | t in ordered :: FirstFrame(t) <= LastFrame(t))
    requires i < |ordered| && k < |ordered|
    requires CanMerge(compare, ordered[i], ordered[k], maxGap).Some?
    ensures CanMerge(compare, ordered[i], ordered[k], maxGap).value in AllPairs(Tester(compare, maxGap), ordered, 0)
  {
    assert forall a, b | 0 <= a <= b < |ordered| :: FirstFrame(ordered[a]) <= FirstFrame(ordered[b]);
    assert ordered[i] in ordered;
    AllPairsComplete(Tester(compare, maxGap), ordered, 0, i, k, CanMerge(compare, ordered[i], ordered[k], maxGap).value);
  }
}
