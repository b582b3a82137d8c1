/** The second half of fragment merging: each group becomes one track, and the ids in the
    frames follow. */
module FragmentMerge {
  import opened Options
  import opened Orders
  import opened Tracks
  import opened Sorting
  import opened UnionFind
  import opened Fragments
  import opened FragmentLaw
  import opened FragmentGroups

  predicate EarlierObservation(a: Observation, b: Observation) {
    a.frame < b.frame
  }

  /** The latest observation, the first one among equals. */
  function Latest(obs: seq<Observation>): Observation
    requires obs != []
  {
    if |obs| == 1 then obs[0]
    else
      var latest := Latest(obs[..|obs| - 1]);
      if obs[|obs| - 1].frame > latest.frame then obs[|obs| - 1] else latest
  }

  /** The primary track after taking in a secondary one. */
  function MergeTrack(primary: Track, secondary: Track): Track {
    var obs := SortBy(EarlierObservation, primary.observations + secondary.observations);
    var merged := primary.(hits := primary.hits + secondary.hits, age := primary.age + secondary.age,
                           frameIndexes := primary.frameIndexes + secondary.frameIndexes,
                           observations := obs, samples := primary.samples + secondary.samples);
    if obs == [] then merged else merged.(lastFrame := Latest(obs).frame, lastBox := Latest(obs).box)
  }

  lemma {:induction false} LatestAtMost(obs: seq<Observation>, bound: int)
    requires obs != [] && forall i | 0 <= i < |obs| :: obs[i].frame < bound
    ensures Latest(obs).frame < bound
  {
    if |obs| > 1 {
      LatestAtMost(obs[..|obs| - 1], bound);
    }
  }

  lemma {:induction false} LatestIsLast(obs: seq<Observation>, reach: int)
    requires obs != [] && Steady(obs, reach)
    ensures Latest(obs) == obs[|obs| - 1]
  {
    if |obs| > 1 {
      var init := obs[..|obs| - 1];
      forall i | 0 <= i < |init| ensures init[i].frame < obs[|obs| - 1].frame {
        SteadyClimbs(obs, reach, i, |obs| - 1);
      }
      LatestAtMost(init, obs[|obs| - 1].frame);
    }
  }

  lemma {:induction false} SteadyConcat(a: seq<Observation>, b: seq<Observation>, reach: int)
    requires a != [] && b != [] && Steady(a, reach) && Steady(b, reach)
    requires a[|a| - 1].frame < b[0].frame <= a[|a| - 1].frame + reach
    ensures Steady(a + b, reach)
  {
    var all := a + b;
    forall i | 0 < i < |all| ensures all[i - 1].frame < all[i].frame <= all[i - 1].frame + reach {
      if i < |a| {
        assert all[i - 1] == a[i - 1] && all[i] == a[i];
      } else if i > |a| {
        assert all[i - 1] == b[i - |a| - 1] && all[i] == b[i - |a|];
      }
    }
  }

  lemma {:induction false} SteadyBefore(a: seq<Observation>, b: seq<Observation>, reach: int)
    requires a != [] && b != [] && Steady(a, reach) && Steady(b, reach)
    requires a[|a| - 1].frame < b[0].frame
    ensures Before(a, b)
  {
    forall i, j | 0 <= i < |a| && 0 <= j < |b| ensures a[i].frame < b[j].frame {
      SteadyRange(a, reach, i);
      SteadyRange(b, reach, j);
    }
  }

  /** Taking in a later fragment appends its observations. */
  lemma {:induction false} MergedInOrder(p: Track, s: Track, reach: int)
    requires p.observations != [] && s.observations != [] && Steady(p.observations + s.observations, reach)
    ensures var t := MergeTrack(p, s);
            && t.id == p.id && t.hits == p.hits + s.hits && t.age == p.age + s.age
            && t.observations == p.observations + s.observations
            && t.frameIndexes == p.frameIndexes + s.frameIndexes && t.samples == p.samples + s.samples
            && t.lastFrame == s.observations[|s.observations| - 1].frame && t.lastBox == s.observations[|s.observations| - 1].box
  {
    SteadyIsSorted(p.observations + s.observations, reach);
    LatestIsLast(p.observations + s.observations, reach);
  }

  lemma {:induction false} SteadyIsSorted(obs: seq<Observation>, reach: int)
    requires Steady(obs, reach)
    ensures SortBy(EarlierObservation, obs) == obs
  {
    forall i | 0 < i < |obs| ensures !EarlierObservation(obs[i], obs[i - 1]) {
    }
    SortByIdle(EarlierObservation, obs);
  }

  lemma {:induction false} IndexesConcat(a: seq<Observation>, b: seq<Observation>)
    ensures Indexes(a + b) == Indexes(a) + Indexes(b)
  {
  }

  /** Merging two recorded fragments and rewriting the ids gives a recorded track again. */
  lemma {:induction false} MergeKeepsRecord(frames: seq<Frame>, p: Track, s: Track, reach: int)
    requires Increasing(frames) && p.id != s.id
    requires Recorded(frames, p, reach) && Recorded(frames, s, reach)
    requires p.lastFrame < s.observations[0].frame <= p.lastFrame + reach
    ensures Recorded(Rewrite(frames, s.id, p.id), MergeTrack(p, s), reach)
    ensures MergeTrack(p, s).lastFrame == s.lastFrame && MergeTrack(p, s).id == p.id
  {
    SteadyConcat(p.observations, s.observations, reach);
    MergedInOrder(p, s, reach);
    SteadyBefore(p.observations, s.observations, reach);
    RewriteReceives(frames, s.id, p.id);
    IndexesConcat(p.observations, s.observations);
    SampledConcat(p.observations, s.observations);
  }

  // ----- what rewriting does to the frames

  /** New ids for old ones; ids outside the map stay. */
  type Names = map<string, string>

  ghost predicate RenamedEntry(names: Names, a: Entry, b: Entry) {
    if a.Detected? && a.person.trackId.Some? && a.person.trackId.value in names then
      b == Detected(a.person.(trackId := Some(names[a.person.trackId.value]), trackState := "merged_fragment"))
    else
      b == a
  }

  ghost predicate RenamedFrame(names: Names, a: Frame, b: Frame) {
    && a.index == b.index && |a.entries| == |b.entries|
    && forall j | 0 <= j < |a.entries| :: RenamedEntry(names, a.entries[j], b.entries[j])
  }

  /** The frames differ in the renamed ids only. */
  ghost predicate Renamed(names: Names, a: seq<Frame>, b: seq<Frame>) {
    |a| == |b| && forall i | 0 <= i < |a| :: RenamedFrame(names, a[i], b[i])
  }

  /** Rewriting an id that is neither renamed nor a new id adds one renaming. */
  lemma {:induction false} RewriteRenames(names: Names, a: seq<Frame>, b: seq<Frame>, from: string, to: string)
    requires Renamed(names, a, b) && from !in names && from !in names.Values
    ensures Renamed(names[from := to], a, Rewrite(b, from, to))
  {
    var names', c := names[from := to], Rewrite(b, from, to);
    forall i | 0 <= i < |a| ensures RenamedFrame(names', a[i], c[i]) {
      assert RenamedFrame(names, a[i], b[i]);
      forall j | 0 <= j < |a[i].entries| ensures RenamedEntry(names', a[i].entries[j], c[i].entries[j]) {
        assert RenamedEntry(names, a[i].entries[j], b[i].entries[j]);
      }
    }
  }

  lemma {:induction false} RewriteKeepsIndexes(frames: seq<Frame>, from: string, to: string)
    requires Increasing(frames)
    ensures Increasing(Rewrite(frames, from, to))
  {
  }

  /** The frames after the first k members of a group have become one. */
  ghost function RewriteGroup(frames: seq<Frame>, group: seq<Track>, k: nat): seq<Frame>
    requires k <= |group|
  {
    if k <= 1 then frames else Rewrite(RewriteGroup(frames, group, k - 1), group[k - 1].id, group[0].id)
  }

  ghost function GroupNames(names: Names, group: seq<Track>, k: nat): Names
    requires k <= |group|
  {
    if k <= 1 then names else GroupNames(names, group, k - 1)[group[k - 1].id := group[0].id]
  }

  lemma {:induction false} GroupNamesHas(names: Names, group: seq<Track>, k: nat, id: string)
    requires 1 <= k <= |group|
    ensures id in GroupNames(names, group, k) <==> id in names || IdsOf(group[1..k], id)
    ensures IdsOf(group[1..k], id) ==> GroupNames(names, group, k)[id] == group[0].id
    ensures id in names && !IdsOf(group[1..k], id) ==> GroupNames(names, group, k)[id] == names[id]
    ensures id in GroupNames(names, group, k).Values ==> id in names.Values || id == group[0].id
  {
    if k > 1 {
      GroupNamesHas(names, group, k - 1, id);
      assert group[1..k] == group[1..k - 1] + [group[k - 1]];
      assert group[1..k][k - 2] == group[k - 1];
      assert IdsOf(group[1..k], id) <==> IdsOf(group[1..k - 1], id) || group[k - 1].id == id by {
        if IdsOf(group[1..k - 1], id) {
          var j :| 0 <= j < k - 2 && group[1..k - 1][j].id == id;
          assert group[1..k][j].id == id;
        }
      }
    }
  }

  /** Rewriting a whole group renames its later members to the first. */
  lemma {:induction false} RenameGroup(names: Names, a: seq<Frame>, b: seq<Frame>, group: seq<Track>, k: nat)
    requires 1 <= k <= |group| && DistinctIds(group) && Renamed(names, a, b)
    requires forall t | t in group :: t.id !in names && t.id !in names.Values
    ensures Renamed(GroupNames(names, group, k), a, RewriteGroup(b, group, k))
  {
    if k > 1 {
      RenameGroup(names, a, b, group, k - 1);
      var from := group[k - 1].id;
      GroupNamesHas(names, group, k - 1, from);
      assert group[k - 1] in group;
      assert !IdsOf(group[1..k - 1], from);
      RewriteRenames(GroupNames(names, group, k - 1), a, RewriteGroup(b, group, k - 1), from, group[0].id);
    }
  }

  // ----- one group

  ghost predicate IdsOf(members: seq<Track>, id: string) {
    exists k :: 0 <= k < |members| && members[k].id == id
  }

  /** Members from position k on are still recorded, and ids outside the group untouched. */
  ghost predicate Absorbing(frames0: seq<Frame>, frames: seq<Frame>, members: seq<Track>, k: nat, reach: int) {
    && (forall j | k <= j < |members| :: Recorded(frames, members[j], reach))
    && (forall j | 1 <= j < k && j < |members| :: Sightings(frames, members[j].id) == [])
    && (forall id | !IdsOf(members, id) :: Sightings(frames, id) == Sightings(frames0, id))
    && Increasing(frames)
  }

  /** Tracks with other ids stay recorded. */
  lemma {:induction false} RecordedElsewhere(frames: seq<Frame>, from: string, to: string, t: Track, reach: int)
    requires Recorded(frames, t, reach) && from != to && t.id != from && t.id != to
    ensures Recorded(Rewrite(frames, from, to), t, reach)
  {
    RewriteOthers(frames, from, to, t.id);
  }

  lemma {:induction false} AbsorbLater(frames: seq<Frame>, members: seq<Track>, k: nat, reach: int, j: nat)
    requires 1 <= k < j < |members| && DistinctIds(members) && Recorded(frames, members[j], reach)
    ensures Recorded(Rewrite(frames, members[k].id, members[0].id), members[j], reach)
  {
    assert members[j].id != members[k].id && members[j].id != members[0].id && members[k].id != members[0].id;
    RecordedElsewhere(frames, members[k].id, members[0].id, members[j], reach);
  }

  lemma {:induction false} AbsorbEarlier(frames: seq<Frame>, members: seq<Track>, k: nat, j: nat)
    requires 1 <= j <= k < |members| && DistinctIds(members) && (j < k ==> Sightings(frames, members[j].id) == [])
    ensures Sightings(Rewrite(frames, members[k].id, members[0].id), members[j].id) == []
  {
    assert members[k].id != members[0].id && members[j].id != members[0].id;
    RewriteEmpties(frames, members[k].id, members[0].id, members[j].id);
  }

  lemma {:induction false} RewriteEmpties(frames: seq<Frame>, from: string, to: string, id: string)
    requires from != to && id != to && (id == from || Sightings(frames, id) == [])
    ensures Sightings(Rewrite(frames, from, to), id) == []
  {
    RewriteOthers(frames, from, to, id);
  }

  lemma {:induction false} AbsorbOutside(frames: seq<Frame>, members: seq<Track>, k: nat, id: string)
    requires 1 <= k < |members| && DistinctIds(members) && !IdsOf(members, id)
    ensures Sightings(Rewrite(frames, members[k].id, members[0].id), id) == Sightings(frames, id)
  {
    assert members[k].id != members[0].id && id != members[k].id && id != members[0].id;
    RewriteOthers(frames, members[k].id, members[0].id, id);
  }

  lemma {:induction false} AbsorbStep(frames0: seq<Frame>, frames: seq<Frame>, members: seq<Track>, k: nat, reach: int)
    requires 1 <= k < |members| && DistinctIds(members) && Absorbing(frames0, frames, members, k, reach)
    ensures Absorbing(frames0, Rewrite(frames, members[k].id, members[0].id), members, k + 1, reach)
  {
    var frames' := Rewrite(frames, members[k].id, members[0].id);
    RewriteKeepsIndexes(frames, members[k].id, members[0].id);
    forall j | k + 1 <= j < |members| ensures Recorded(frames', members[j], reach) {
      AbsorbLater(frames, members, k, reach, j);
    }
    forall j | 1 <= j < k + 1 ensures Sightings(frames', members[j].id) == [] {
      AbsorbEarlier(frames, members, k, j);
    }
    forall id | !IdsOf(members, id) ensures Sightings(frames', id) == Sightings(frames0, id) {
      AbsorbOutside(frames, members, k, id);
    }
  }

  lemma {:induction false} ChainIsSorted(g: seq<Track>, maxGap: int)
    requires Chain(g, maxGap)
    ensures SortBy(EarlierTrack, g) == g
  {
    SortByIdle(EarlierTrack, g);
  }

  /** The frames carry the primary's id wherever they carried an id of the group. */
  ghost predicate Replaced(frames: seq<Frame>, frames': seq<Frame>, group: seq<Track>, primary: Track, reach: int) {
    && group != [] && primary.id == group[0].id && Recorded(frames', primary, reach)
    && Increasing(frames')
    && (forall id | !IdsOf(group, id) :: Sightings(frames', id) == Sightings(frames, id))
    && (forall j | 1 <= j < |group| :: Sightings(frames', group[j].id) == [])
  }

  /** A chain of fragments that are recorded exactly. */
  ghost predicate Mergeable(frames: seq<Frame>, group: seq<Track>, maxGap: int, reach: int) {
    && Increasing(frames) && group != [] && Chain(group, maxGap) && DistinctIds(group)
    && (forall t | t in group :: Recorded(frames, t, reach)) && maxGap + 1 <= reach
  }

  /** The later fragments of a group are taken into the first one, in time order. */
  method MergeGroup(frames: seq<Frame>, group: seq<Track>, ghost maxGap: int, ghost reach: int)
    returns (frames': seq<Frame>, primary: Track)
    requires Mergeable(frames, group, maxGap, reach)
    ensures Replaced(frames, frames', group, primary, reach)
    ensures frames' == RewriteGroup(frames, group, |group|)
  {
    var members := SortBy(EarlierTrack, group);
    ChainIsSorted(group, maxGap);
    primary := members[0];
    frames' := frames;
    Bounds(frames, members[0], reach);
    for k := 1 to |members|
      invariant Absorbing(frames, frames', members, k, reach)
      invariant frames' == RewriteGroup(frames, members, k)
      invariant primary.id == members[0].id && Recorded(frames', primary, reach)
      invariant primary.lastFrame == LastFrame(members[k - 1])
    {
      Bounds(frames', members[k], reach);
      MergeKeepsRecord(frames', primary, members[k], reach);
      AbsorbStep(frames, frames', members, k, reach);
      primary := MergeTrack(primary, members[k]);
      frames' := Rewrite(frames', members[k].id, primary.id);
    }
  }

  // ----- all groups

  /** What the final loop keeps, with the representatives still to do. */
  ghost predicate Collapsing(frames: seq<Frame>, tracks: seq<Track>, root: Partition,
                             todo: set<string>, merged: seq<Track>, reach: int)
  {
    && Increasing(frames)
    && (forall t | t in tracks && t.id in root && root[t.id] in todo :: Recorded(frames, t, reach))
    && (forall m | m in merged :: m.id in root && root[m.id] !in todo && Recorded(frames, m, reach))
    && (forall i, j | 0 <= i < j < |merged| :: Elsewhere(root, merged[i], merged[j]))
    && (forall id | Sightings(frames, id) != [] :: id in root && (root[id] in todo || Known(merged, id)))
  }

  ghost predicate Elsewhere(root: Partition, a: Track, b: Track) {
    a.id in root && b.id in root && root[a.id] != root[b.id]
  }

  /** The group of an id's representative contains that id. */
  lemma {:induction false} InOwnGroup(tracks: seq<Track>, root: Partition, groups: Groups, maxGap: int, id: string)
    requires Grouped(tracks, root, groups, maxGap) && root.Keys == (set t | t in tracks :: t.id) && id in root
    ensures root[id] in groups && IdsOf(groups[root[id]], id)
  {
    var t :| t in tracks && t.id == id;
    assert Placed(root, groups, t);
    var group := groups[root[id]];
    var k :| 0 <= k < |group| && group[k] == t;
  }

  lemma {:induction false} OutsideGroup(tracks: seq<Track>, root: Partition, groups: Groups, maxGap: int, r: string, id: string)
    requires IsGroup(tracks, root, groups, maxGap, r) && id in root && root[id] != r
    ensures !IdsOf(groups[r], id)
  {
    forall k | 0 <= k < |groups[r]| ensures groups[r][k].id != id {
      assert groups[r][k] in groups[r];
    }
  }

  /** A track outside the replaced group stays recorded. */
  lemma {:induction false} StillRecorded(frames: seq<Frame>, frames': seq<Frame>, tracks: seq<Track>, root: Partition, groups: Groups, maxGap: int,
                      r: string, primary: Track, t: Track, reach: int)
    requires IsGroup(tracks, root, groups, maxGap, r) && Replaced(frames, frames', groups[r], primary, reach)
    requires Recorded(frames, t, reach) && t.id in root && root[t.id] != r
    ensures Recorded(frames', t, reach)
  {
    OutsideGroup(tracks, root, groups, maxGap, r, t.id);
  }

  lemma {:induction false} CollapseApart(tracks: seq<Track>, root: Partition, groups: Groups, maxGap: int, todo: set<string>, r: string,
                      merged: seq<Track>, primary: Track)
    requires IsGroup(tracks, root, groups, maxGap, r) && r in todo && primary.id == groups[r][0].id
    requires forall m | m in merged :: m.id in root && root[m.id] !in todo
    requires forall i, j | 0 <= i < j < |merged| :: Elsewhere(root, merged[i], merged[j])
    ensures forall i, j | 0 <= i < j < |merged + [primary]| :: Elsewhere(root, (merged + [primary])[i], (merged + [primary])[j])
    ensures primary.id in root && root[primary.id] == r
  {
    var merged' := merged + [primary];
    assert groups[r][0] in groups[r];
    forall i, j | 0 <= i < j < |merged'| ensures Elsewhere(root, merged'[i], merged'[j]) {
      assert merged'[i] in merged;
    }
  }

  lemma {:induction false} CollapseKnown(frames: seq<Frame>, frames': seq<Frame>, tracks: seq<Track>, root: Partition, groups: Groups,
                      todo: set<string>, r: string, merged: seq<Track>, primary: Track, maxGap: int, reach: int, id: string)
    requires Grouped(tracks, root, groups, maxGap) && root.Keys == (set t | t in tracks :: t.id)
    requires IsGroup(tracks, root, groups, maxGap, r)
    requires forall id | Sightings(frames, id) != [] :: id in root && (root[id] in todo || Known(merged, id))
    requires Replaced(frames, frames', groups[r], primary, reach)
    requires Sightings(frames', id) != []
    ensures id in root && (root[id] in todo - {r} || Known(merged + [primary], id))
  {
    var group := groups[r];
    if IdsOf(group, id) {
      var k :| 0 <= k < |group| && group[k].id == id;
      assert primary in merged + [primary];
      assert group[k] in group;
    } else if Known(merged, id) {
      var m :| m in merged && m.id == id;
      assert m in merged + [primary];
    } else {
      InOwnGroup(tracks, root, groups, maxGap, id);
    }
  }

  lemma {:induction false} CollapseRecorded(frames: seq<Frame>, frames': seq<Frame>, tracks: seq<Track>, root: Partition, groups: Groups,
                                            todo: set<string>, r: string, merged: seq<Track>, primary: Track, maxGap: int, reach: int)
    requires r in todo && IsGroup(tracks, root, groups, maxGap, r) && Replaced(frames, frames', groups[r], primary, reach)
    requires forall t | t in tracks && t.id in root && root[t.id] in todo :: Recorded(frames, t, reach)
    requires forall m | m in merged :: m.id in root && root[m.id] !in todo && Recorded(frames, m, reach)
    ensures forall t | t in tracks && t.id in root && root[t.id] in todo - {r} :: Recorded(frames', t, reach)
    ensures forall m | m in merged :: Recorded(frames', m, reach)
  {
    forall t | t in tracks && t.id in root && root[t.id] in todo - {r} ensures Recorded(frames', t, reach) {
      StillRecorded(frames, frames', tracks, root, groups, maxGap, r, primary, t, reach);
    }
    forall m | m in merged ensures Recorded(frames', m, reach) {
      StillRecorded(frames, frames', tracks, root, groups, maxGap, r, primary, m, reach);
    }
  }

  lemma {:induction false} CollapseStep(frames: seq<Frame>, frames': seq<Frame>, tracks: seq<Track>, root: Partition, groups: Groups,
                     todo: set<string>, r: string, merged: seq<Track>, primary: Track, maxGap: int, reach: int)
    requires Grouped(tracks, root, groups, maxGap) && root.Keys == (set t | t in tracks :: t.id)
    requires todo <= groups.Keys && r in todo && IsGroup(tracks, root, groups, maxGap, r)
    requires Collapsing(frames, tracks, root, todo, merged, reach)
    requires Replaced(frames, frames', groups[r], primary, reach)
    ensures Collapsing(frames', tracks, root, todo - {r}, merged + [primary], reach)
  {
    CollapseApart(tracks, root, groups, maxGap, todo, r, merged, primary);
    CollapseRecorded(frames, frames', tracks, root, groups, todo, r, merged, primary, maxGap, reach);
    CollapseAllKnown(frames, frames', tracks, root, groups, todo, r, merged, primary, maxGap, reach);
  }

  lemma {:induction false} CollapseAllKnown(frames: seq<Frame>, frames': seq<Frame>, tracks: seq<Track>, root: Partition, groups: Groups,
                      todo: set<string>, r: string, merged: seq<Track>, primary: Track, maxGap: int, reach: int)
    requires Grouped(tracks, root, groups, maxGap) && root.Keys == (set t | t in tracks :: t.id)
    requires IsGroup(tracks, root, groups, maxGap, r) && Replaced(frames, frames', groups[r], primary, reach)
    requires forall id | Sightings(frames, id) != [] :: id in root && (root[id] in todo || Known(merged, id))
    ensures forall id | Sightings(frames', id) != [] :: id in root && (root[id] in todo - {r} || Known(merged + [primary], id))
  {
    forall id | Sightings(frames', id) != [] ensures id in root && (root[id] in todo - {r} || Known(merged + [primary], id)) {
      CollapseKnown(frames, frames', tracks, root, groups, todo, r, merged, primary, maxGap, reach, id);
    }
  }

  /** Collapse one group. */
  method CollapseOne(ghost frames0: seq<Frame>, frames: seq<Frame>, ghost tracks: seq<Track>, ghost root: Partition, groups: Groups, ghost maxGap: int,
                     ghost reach: int, ghost todo: set<string>, r: string, ghost merged: seq<Track>, ghost names: Names)
    returns (frames': seq<Frame>, primary: Track, ghost names': Names)
    requires DistinctIds(tracks) && maxGap + 1 <= reach
    requires Grouped(tracks, root, groups, maxGap) && root.Keys == (set t | t in tracks :: t.id)
    requires todo <= groups.Keys && r in todo
    requires Collapsing(frames, tracks, root, todo, merged, reach)
    requires Renamed(names, frames0, frames) && NamesDone(root, groups, todo, names)
    ensures Collapsing(frames', tracks, root, todo - {r}, merged + [primary], reach)
    ensures Renamed(names', frames0, frames') && NamesDone(root, groups, todo - {r}, names')
  {
    assert IsGroup(tracks, root, groups, maxGap, r);
    DistinctInGroup(tracks, root, groups, maxGap, r);
    frames', primary := MergeGroup(frames, groups[r], maxGap, reach);
    CollapseStep(frames, frames', tracks, root, groups, todo, r, merged, primary, maxGap, reach);
    RenameStep(names, frames0, frames, tracks, root, groups, maxGap, todo, r);
    names' := GroupNames(names, groups[r], |groups[r]|);
  }

  /** Collapse every group, in any order. */
  method CollapseGroups(frames: seq<Frame>, ghost tracks: seq<Track>, ghost root: Partition, groups: Groups, ghost maxGap: int, ghost reach: int)
    returns (frames': seq<Frame>, merged: seq<Track>)
    requires Consistent(frames, tracks, reach) && Increasing(frames) && maxGap + 1 <= reach
    requires Grouped(tracks, root, groups, maxGap) && root.Keys == (set t | t in tracks :: t.id)
    ensures Consistent(frames', merged, reach) && Increasing(frames')
    ensures Renamed(PrimaryNames(root, groups), frames, frames')
    ensures |merged| == |groups|
  {
    frames', merged := frames, [];
    var todo := groups.Keys;
    ghost var names: Names := map[];
    CollapseStart(frames, tracks, root, groups, maxGap, reach);
    while todo != {}
      invariant todo <= groups.Keys && |merged| + |todo| == |groups|
      invariant Collapsing(frames', tracks, root, todo, merged, reach)
      invariant Renamed(names, frames, frames') && NamesDone(root, groups, todo, names)
      decreases |todo|
    {
      var r :| r in todo;
      var primary;
      frames', primary, names := CollapseOne(frames, frames', tracks, root, groups, maxGap, reach, todo, r, merged, names);
      merged, todo := merged + [primary], todo - {r};
    }
    NamesAreDone(root, groups, names);
    CollapsedIsConsistent(frames', tracks, root, merged, reach);
  }

  lemma {:induction false} NamesAreDone(root: Partition, groups: Groups, names: Names)
    requires NamesDone(root, groups, {}, names)
    ensures names == PrimaryNames(root, groups)
  {
  }

  lemma {:induction false} CollapsedIsConsistent(frames: seq<Frame>, tracks: seq<Track>, root: Partition, merged: seq<Track>, reach: int)
    requires Collapsing(frames, tracks, root, {}, merged, reach)
    ensures Consistent(frames, merged, reach)
  {
    forall i, j | 0 <= i < j < |merged| ensures merged[i].id != merged[j].id {
      assert Elsewhere(root, merged[i], merged[j]);
    }
  }

  /** The later members of every group take the id of its first member. */
  ghost function PrimaryNames(root: Partition, groups: Groups): Names {
    map id | id in root && Secondary(root, groups, id) :: groups[root[id]][0].id
  }

  ghost predicate Secondary(root: Partition, groups: Groups, id: string) {
    id in root && root[id] in groups && groups[root[id]] != [] && groups[root[id]][0].id != id
  }

  ghost predicate NamesDone(root: Partition, groups: Groups, todo: set<string>, names: Names) {
    && (forall id :: id in names <==> id in root && root[id] !in todo && Secondary(root, groups, id))
    && (forall id | id in names && Secondary(root, groups, id) :: names[id] == groups[root[id]][0].id)
  }

  lemma {:induction false} RenameStep(names: Names, frames0: seq<Frame>, frames: seq<Frame>, tracks: seq<Track>, root: Partition, groups: Groups, maxGap: int,
                   todo: set<string>, r: string)
    requires Grouped(tracks, root, groups, maxGap) && root.Keys == (set t | t in tracks :: t.id)
    requires IsGroup(tracks, root, groups, maxGap, r) && DistinctIds(groups[r]) && r in todo
    requires Renamed(names, frames0, frames) && NamesDone(root, groups, todo, names)
    ensures Renamed(GroupNames(names, groups[r], |groups[r]|), frames0, RewriteGroup(frames, groups[r], |groups[r]|))
    ensures NamesDone(root, groups, todo - {r}, GroupNames(names, groups[r], |groups[r]|))
  {
    var group := groups[r];
    var names' := GroupNames(names, group, |group|);
    forall t | t in group ensures t.id !in names && t.id !in names.Values {
      FreshForNames(tracks, root, groups, maxGap, todo, r, names, t);
    }
    RenameGroup(names, frames0, frames, group, |group|);
    forall id
      ensures id in names' <==> id in root && root[id] !in todo - {r} && Secondary(root, groups, id)
      ensures id in names' && Secondary(root, groups, id) ==> names'[id] == groups[root[id]][0].id
    {
      RenamedId(names, names', tracks, root, groups, maxGap, todo, r, id);
    }
  }

  lemma {:induction false} RenamedId(names: Names, names': Names, tracks: seq<Track>, root: Partition, groups: Groups, maxGap: int, todo: set<string>,
                                     r: string, id: string)
    requires Grouped(tracks, root, groups, maxGap) && root.Keys == (set t | t in tracks :: t.id)
    requires IsGroup(tracks, root, groups, maxGap, r) && DistinctIds(groups[r]) && r in todo && NamesDone(root, groups, todo, names)
    requires names' == GroupNames(names, groups[r], |groups[r]|)
    ensures id in names' <==> id in root && root[id] !in todo - {r} && Secondary(root, groups, id)
    ensures id in names' && Secondary(root, groups, id) ==> names'[id] == groups[root[id]][0].id
  {
    GroupNamesHas(names, groups[r], |groups[r]|, id);
    LaterMembers(tracks, root, groups, maxGap, r, id);
  }

  /** Ids of a group still to do are untouched. */
  lemma {:induction false} FreshForNames(tracks: seq<Track>, root: Partition, groups: Groups, maxGap: int, todo: set<string>, r: string, names: Names, t: Track)
    requires Grouped(tracks, root, groups, maxGap) && IsGroup(tracks, root, groups, maxGap, r)
    requires r in todo && NamesDone(root, groups, todo, names) && t in groups[r]
    ensures t.id !in names && t.id !in names.Values
  {
    forall id | id in names ensures names[id] != t.id {
      assert IsGroup(tracks, root, groups, maxGap, root[id]);
      assert groups[root[id]][0] in groups[root[id]];
    }
  }

  lemma {:induction false} LaterMembers(tracks: seq<Track>, root: Partition, groups: Groups, maxGap: int, r: string, id: string)
    requires Grouped(tracks, root, groups, maxGap) && root.Keys == (set t | t in tracks :: t.id)
    requires IsGroup(tracks, root, groups, maxGap, r) && DistinctIds(groups[r])
    ensures IdsOf(groups[r][1..], id) <==> id in root && root[id] == r && Secondary(root, groups, id)
  {
    var group := groups[r];
    if IdsOf(group[1..], id) {
      var k :| 0 <= k < |group| - 1 && group[1..][k].id == id;
      assert group[k + 1] in group && group[0] in group;
    }
    if id in root && root[id] == r && Secondary(root, groups, id) {
      InOwnGroup(tracks, root, groups, maxGap, id);
      var k :| 0 <= k < |group| && group[k].id == id;
      assert group[1..][k - 1].id == id;
    }
  }

  lemma {:induction false} CollapseStart(frames: seq<Frame>, tracks: seq<Track>, root: Partition, groups: Groups, maxGap: int, reach: int)
    requires Consistent(frames, tracks, reach) && Increasing(frames)
    requires Grouped(tracks, root, groups, maxGap) && root.Keys == (set t | t in tracks :: t.id)
    ensures Collapsing(frames, tracks, root, groups.Keys, [], reach)
  {
    forall id | Sightings(frames, id) != [] ensures id in root && root[id] in groups {
      assert Known(tracks, id);
      InOwnGroup(tracks, root, groups, maxGap, id);
    }
  }

  /** Fragments of one chain have different ids, being different tracks. */
  lemma {:induction false} DistinctInGroup(tracks: seq<Track>, root: Partition, groups: Groups, maxGap: int, r: string)
    requires DistinctIds(tracks) && IsGroup(tracks, root, groups, maxGap, r)
    ensures DistinctIds(groups[r])
  {
    var g := groups[r];
    forall i, j | 0 <= i < j < |g| ensures g[i].id != g[j].id {
      ChainOrder(g, maxGap, i, j);
      assert g[i] in g && g[j] in g;
      assert g[i] != g[j];
    }
  }

  // ----- the whole merge

  predicate SmallerId(a: Track, b: Track) {
    StringLess(a.id, b.id)
  }

  /** Merge the fragments of all tracks.  The frames change by the renaming of the grouping
      only, the grouping is maximal, and every merged track records exactly its persons. */
  method MergeFragments(compare: Comparer, frames: seq<Frame>, tracks: seq<Track>, maxGap: int, ghost maxAge: int)
    returns (frames': seq<Frame>, tracks': seq<Track>, accepted: seq<Candidate>, ghost root: Partition, ghost groups: Groups)
    requires Increasing(frames) && Consistent(frames, tracks, maxAge)
    ensures Consistent(frames', tracks', IntMax(maxAge, maxGap + 1))
    ensures Grouped(tracks, root, groups, maxGap) && Maximal(compare, tracks, root, groups, maxGap)
    ensures Greedy(compare, tracks, maxGap, accepted) && Reflects(root, Members(accepted))
    ensures Renamed(PrimaryNames(root, groups), frames, frames')
    ensures |tracks'| + |accepted| == |tracks| && ById(tracks')
  {
    ghost var reach := IntMax(maxAge, maxGap + 1);
    forall t | t in tracks ensures FirstFrame(t) <= LastFrame(t) && Recorded(frames, t, reach) {
      Bounds(frames, t, maxAge);
    }
    var found;
    found, accepted, root := GroupFragments(compare, tracks, maxGap);
    groups := found;
    var merged;
    frames', merged := CollapseGroups(frames, tracks, root, found, maxGap, reach);
    tracks' := SortBy(SmallerId, merged);
    Rearranged(frames', merged, tracks', reach);
    SortedById(merged);
  }

  ghost predicate ById(tracks: seq<Track>) {
    forall i, j | 0 <= i < j < |tracks| :: StringLess(tracks[i].id, tracks[j].id)
  }

  lemma {:induction false} SortedById(merged: seq<Track>)
    requires DistinctIds(merged)
    ensures ById(SortBy(SmallerId, merged))
  {
    var sorted := SortBy(SmallerId, merged);
    forall a, b | SmallerId(a, b) ensures !SmallerId(b, a) {
      StringOrder(a.id, b.id, a.id);
    }
    forall a, b, c | !SmallerId(a, b) && !SmallerId(b, c) ensures !SmallerId(a, c) {
      StringOrder(a.id, b.id, c.id);
    }
    SortByOrders(SmallerId, merged);
    forall i, j | 0 <= i < j < |sorted| ensures StringLess(sorted[i].id, sorted[j].id) {
      SortedApart(merged, sorted, i, j);
      StringTotal(sorted[i].id, sorted[j].id);
      assert !SmallerId(sorted[j], sorted[i]);
    }
  }

  /** Only the tracks matter, not how they are listed. */
  lemma {:induction false} Rearranged(frames: seq<Frame>, tracks: seq<Track>, tracks': seq<Track>, reach: int)
    requires Consistent(frames, tracks, reach) && multiset(tracks) == multiset(tracks')
    ensures Consistent(frames, tracks', reach)
  {
    assert forall t :: t in tracks <==> t in multiset(tracks);
    assert forall t :: t in tracks' <==> t in multiset(tracks');
    forall i, j | 0 <= i < j < |tracks'| ensures tracks'[i].id != tracks'[j].id {
      SortedApart(tracks, tracks', i, j);
    }
    forall id | Sightings(frames, id) != [] ensures Known(tracks', id) {
      var t :| t in tracks && t.id == id;
      assert t in tracks';
    }
  }

  /** A rearrangement of tracks with different ids has different ids. */
  lemma {:induction false} SortedApart(tracks: seq<Track>, sorted: seq<Track>, i: nat, j: nat)
    requires DistinctIds(tracks) && multiset(sorted) == multiset(tracks) && i < j < |sorted|
    ensures sorted[i].id != sorted[j].id
  {
    var a, b := sorted[i], sorted[j];
    assert a in multiset(sorted) && b in multiset(sorted);
    assert sorted == sorted[..j] + [b] + sorted[j + 1..];
    assert sorted[..j][i] == a;
    assert a == b ==> multiset(sorted)[a] >= 2;
    if a.id == b.id {
      SameIdOnce(tracks, a, b);
    }
  }

  lemma {:induction false} SameIdOnce(tracks: seq<Track>, a: Track, b: Track)
    requires DistinctIds(tracks) && a in tracks && b in tracks && a.id == b.id
    ensures a == b && multiset(tracks)[a] == 1
  {
    var i :| 0 <= i < |tracks| && tracks[i] == a;
    var k :| 0 <= k < |tracks| && tracks[k] == b;
    assert tracks == tracks[..i] + [a] + tracks[i + 1..];
    assert a !in tracks[..i] && a !in tracks[i + 1..];
  }

  lemma {:induction false} SeenTwice(index: int, entries: seq<Entry>, id: string, i: nat, j: nat)
    requires i < j < |entries| && Carries(entries[i], id) && Carries(entries[j], id)
    ensures |SeenIn(index, entries, id)| >= 2
  {
    var init := entries[..|entries| - 1];
    if j < |entries| - 1 {
      SeenTwice(index, init, id, i, j);
    } else {
      SeenFrames(index, init, id);
      assert init[i] == entries[i];
    }
  }

  /** Strictly rising sightings leave at most one person with the id in each frame. */
  lemma {:induction false} RisingMeansOnce(frames: seq<Frame>, id: string, reach: int, f: nat)
    requires Steady(Sightings(frames, id), reach) && f < |frames|
    ensures |SeenIn(frames[f].index, frames[f].entries, id)| <= 1
  {
    var init, last := frames[..|frames| - 1], frames[|frames| - 1];
    var before: seq<Observation>, seen: seq<Observation> := Sightings(init, id), SeenIn(last.index, last.entries, id);
    var all := Sightings(frames, id);
    assert all == before + seen;
    if f == |frames| - 1 {
      assert |seen| >= 2 ==> all[|before|] == seen[0] && all[|before| + 1] == seen[1];
      SeenFrames(last.index, last.entries, id);
    } else {
      forall i | 0 < i < |before| ensures before[i - 1].frame < before[i].frame <= before[i - 1].frame + reach {
        assert (before + seen)[i] == before[i] && (before + seen)[i - 1] == before[i - 1];
      }
      RisingMeansOnce(init, id, reach, f);
    }
  }

  /** In consistent frames no two persons of one frame share an id. */
  lemma {:induction false} NoSharedIds(frames: seq<Frame>, tracks: seq<Track>, reach: int, f: nat, i: nat, j: nat, id: string)
    requires Consistent(frames, tracks, reach)
    requires f < |frames| && i < j < |frames[f].entries|
    ensures !(Carries(frames[f].entries[i], id) && Carries(frames[f].entries[j], id))
  {
    if Known(tracks, id) {
      var t :| t in tracks && t.id == id;
      assert Recorded(frames, t, reach);
    }
    RisingMeansOnce(frames, id, reach, f);
    if Carries(frames[f].entries[i], id) && Carries(frames[f].entries[j], id) {
      SeenTwice(frames[f].index, frames[f].entries, id, i, j);
    }
  }
}
