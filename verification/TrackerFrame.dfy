/** One frame of the tracker: its scene, the matching of tracks with persons, and what its three
    phases do. */
module TrackerFrame {
  import opened Matchings
  import opened ExactAssignment
  import opened Hungarian
  import opened Options
  import opened Orders
  import opened Sums
  import opened Tracks
  import opened Sorting
  import opened UnionFind
  import opened Fragments
  import opened FragmentLaw
  import opened FragmentGroups
  import opened FragmentMerge

  /** Association score of a track and a person in a frame, in millionths. */
  type Scorer = (Track, Person, int) -> nat

  // ----- the frame being worked on

  /** The entries with the ids hidden that this run has not assigned yet. */
  function Mask(entries: seq<Entry>, matched: set<nat>): seq<Entry> {
    seq(|entries|, i requires 0 <= i < |entries| => MaskEntry(entries[i], i in matched))
  }

  function MaskEntry(e: Entry, known: bool): Entry {
    if known || e.Foreign? then e else Detected(e.person.(trackId := None))
  }

  function Name(e: Entry, id: string, state: string): Entry
    requires e.Detected?
  {
    Detected(e.person.(trackId := Some(id), trackState := state))
  }

  ghost predicate Unseen(entries: seq<Entry>, id: string) {
    forall i | 0 <= i < |entries| :: !Carries(entries[i], id)
  }

  lemma {:induction false} SightingsSnoc(frames: seq<Frame>, last: Frame, id: string)
    ensures Sightings(frames + [last], id) == Sightings(frames, id) + SeenIn(last.index, last.entries, id)
  {
    assert (frames + [last])[..|frames|] == frames;
  }

  /** A frame without ids adds no sighting. */
  lemma {:induction false} StartFrame(base: seq<Frame>, index: int, entries: seq<Entry>, tracks: seq<Track>, reach: int)
    requires Consistent(base, tracks, reach)
    ensures Consistent(base + [Frame(index, Mask(entries, {}))], tracks, reach)
  {
    var masked := Mask(entries, {});
    forall id ensures Sightings(base + [Frame(index, masked)], id) == Sightings(base, id) {
      NotSeen(index, masked, id);
      SightingsSnoc(base, Frame(index, masked), id);
    }
  }

  /** Naming one entry changes the sightings of that name only. */
  lemma {:induction false} NameOthers(base: seq<Frame>, index: int, masked: seq<Entry>, i: nat, id: string, state: string, other: string)
    requires i < |masked| && masked[i].Detected? && masked[i].person.trackId == None && other != id
    ensures Sightings(base + [Frame(index, masked[i := Name(masked[i], id, state)])], other) == Sightings(base + [Frame(index, masked)], other)
  {
    SightingsSnoc(base, Frame(index, masked), other);
    SightingsSnoc(base, Frame(index, masked[i := Name(masked[i], id, state)]), other);
    SeenOther(index, masked, i, id, state, other);
  }

  lemma {:induction false} SeenOther(index: int, masked: seq<Entry>, i: nat, id: string, state: string, other: string)
    requires i < |masked| && masked[i].Detected? && masked[i].person.trackId == None && other != id
    ensures SeenIn(index, masked[i := Name(masked[i], id, state)], other) == SeenIn(index, masked, other)
  {
    var named := masked[i := Name(masked[i], id, state)];
    var init := masked[..|masked| - 1];
    if i < |masked| - 1 {
      SeenOther(index, init, i, id, state, other);
      assert named[..|masked| - 1] == init[i := Name(init[i], id, state)];
    } else {
      assert named[..|masked| - 1] == init;
    }
  }

  lemma {:induction false} NameSelf(base: seq<Frame>, index: int, masked: seq<Entry>, i: nat, id: string, state: string)
    requires i < |masked| && masked[i].Detected? && Unseen(masked, id)
    ensures Sightings(base + [Frame(index, masked)], id) == Sightings(base, id)
    ensures Sightings(base + [Frame(index, masked[i := Name(masked[i], id, state)])], id)
         == Sightings(base, id) + [Observe(index, masked[i].person)]
  {
    var named := masked[i := Name(masked[i], id, state)];
    NotSeen(index, masked, id);
    SightingsSnoc(base, Frame(index, masked), id);
    SeenOnce(index, named, id, i);
    SightingsSnoc(base, Frame(index, named), id);
  }

  lemma {:induction false} UpdatedRecord(before: seq<Frame>, after: seq<Frame>, t: Track, index: int, person: Person, reach: int)
    requires Recorded(before, t, reach) && t.lastFrame < index <= t.lastFrame + reach
    requires Sightings(after, t.id) == Sightings(before, t.id) + [Observe(index, person)]
    ensures Recorded(after, Updated(t, index, person), reach)
  {
    SteadyMore(t.observations, Observe(index, person), reach);
    RecordMore(t.observations, Observe(index, person));
  }

  lemma {:induction false} SteadyMore(obs: seq<Observation>, o: Observation, reach: int)
    requires Steady(obs, reach) && obs != [] && obs[|obs| - 1].frame < o.frame <= obs[|obs| - 1].frame + reach
    ensures Steady(obs + [o], reach)
  {
    var more := obs + [o];
    forall i | 0 < i < |more| ensures more[i - 1].frame < more[i].frame <= more[i - 1].frame + reach {
      if i < |obs| {
        assert more[i - 1] == obs[i - 1] && more[i] == obs[i];
      }
    }
  }

  lemma {:induction false} RecordMore(obs: seq<Observation>, o: Observation)
    ensures Indexes(obs + [o]) == Indexes(obs) + [o.frame] && Sampled(obs + [o]) == Sampled(obs) + o.samples
  {
    assert (obs + [o])[..|obs|] == obs;
  }

  /** An unseen track was last seen in an earlier frame. */
  lemma {:induction false} LastSeenEarlier(base: seq<Frame>, index: int, masked: seq<Entry>, t: Track, reach: int)
    requires Increasing(base + [Frame(index, masked)]) && Unseen(masked, t.id)
    requires Recorded(base + [Frame(index, masked)], t, reach)
    ensures t.lastFrame < index
  {
    NotSeen(index, masked, t.id);
    SightingsSnoc(base, Frame(index, masked), t.id);
    forall i | 0 <= i < |base| ensures base[i].index < index {
      assert (base + [Frame(index, masked)])[i].index < (base + [Frame(index, masked)])[|base|].index;
    }
    SightingsWithin(base, t.id, index);
  }

  /** A match: the entry takes the track's id, and the track records the person. */
  lemma {:induction false} AssignStep(base: seq<Frame>, index: int, masked: seq<Entry>, tracks: seq<Track>, p: nat, i: nat, state: string, person: Person, reach: int)
    requires Consistent(base + [Frame(index, masked)], tracks, reach) && Increasing(base + [Frame(index, masked)])
    requires p < |tracks| && Unseen(masked, tracks[p].id) && index - tracks[p].lastFrame <= reach
    requires i < |masked| && masked[i].Detected? && masked[i].person == person.(trackId := None)
    ensures Consistent(base + [Frame(index, masked[i := Name(masked[i], tracks[p].id, state)])],
                       tracks[p := Updated(tracks[p], index, person)], reach)
  {
    var t, t' := tracks[p], Updated(tracks[p], index, person);
    var before, after := base + [Frame(index, masked)], base + [Frame(index, masked[i := Name(masked[i], t.id, state)])];
    var tracks' := tracks[p := t'];
    assert t in tracks;
    NameSelf(base, index, masked, i, t.id, state);
    LastSeenEarlier(base, index, masked, t, reach);
    UpdatedRecord(before, after, t, index, person, reach);
    forall s | s in tracks' ensures Recorded(after, s, reach) {
      if s != t' {
        OtherTrack(tracks, p, t', s);
        NameOthers(base, index, masked, i, t.id, state, s.id);
      }
    }
    forall id | Sightings(after, id) != [] ensures Known(tracks', id) {
      if id != t.id {
        NameOthers(base, index, masked, i, t.id, state, id);
        assert Known(tracks, id);
      }
      StillKnown(tracks, p, t', id);
    }
  }

  lemma {:induction false} OtherTrack(tracks: seq<Track>, p: nat, t': Track, s: Track)
    requires DistinctIds(tracks) && p < |tracks| && t'.id == tracks[p].id && s in tracks[p := t'] && s != t'
    ensures s in tracks && s.id != tracks[p].id
  {
    var q :| 0 <= q < |tracks| && tracks[p := t'][q] == s;
    assert q != p && tracks[q] == s;
  }

  lemma {:induction false} StillKnown(tracks: seq<Track>, p: nat, t': Track, id: string)
    requires p < |tracks| && t'.id == tracks[p].id && (Known(tracks, id) || id == t'.id)
    ensures Known(tracks[p := t'], id)
  {
    var tracks' := tracks[p := t'];
    if id == t'.id {
      assert tracks'[p] == t';
    } else {
      var s :| s in tracks && s.id == id;
      var q :| 0 <= q < |tracks| && tracks[q] == s;
      assert tracks'[q] == s;
    }
  }

  /** An unmatched confident person opens a track under a new id. */
  lemma {:induction false} OpenStep(base: seq<Frame>, index: int, masked: seq<Entry>, tracks: seq<Track>, i: nat, id: string, state: string, person: Person, reach: int)
    requires Consistent(base + [Frame(index, masked)], tracks, reach)
    requires !Known(tracks, id)
    requires i < |masked| && masked[i].Detected? && masked[i].person == person.(trackId := None)
    ensures Consistent(base + [Frame(index, masked[i := Name(masked[i], id, state)])], tracks + [Open(id, index, person)], reach)
  {
    var t := Open(id, index, person);
    var before, after := base + [Frame(index, masked)], base + [Frame(index, masked[i := Name(masked[i], id, state)])];
    assert Sightings(before, id) == [];
    SightingsSnoc(base, Frame(index, masked), id);
    SeenFrames(index, masked, id);
    NameSelf(base, index, masked, i, id, state);
    assert Sightings(base, id) == [];
    assert t.frameIndexes == Indexes(t.observations);
    assert Sampled(t.observations) == Sampled([]) + Samples(person);
    forall s | s in tracks + [t] ensures Recorded(after, s, reach) {
      if s in tracks {
        NameOthers(base, index, masked, i, id, state, s.id);
      }
    }
    forall other | Sightings(after, other) != [] ensures Known(tracks + [t], other) {
      if other == id {
        assert t in tracks + [t];
      } else {
        NameOthers(base, index, masked, i, id, state, other);
        var s :| s in tracks && s.id == other;
        assert s in tracks + [t];
      }
    }
  }

  // ----- global matching

  /** The table holds the pairs that reach the threshold, with their scores. */
  ghost predicate IsScoreTable(scorer: Scorer, tracks: seq<Track>, persons: seq<Person>, index: int, minScore: int, scores: Scores) {
    && (forall p | p in scores :: p.0 < |tracks| && p.1 < |persons| && scores[p] == scorer(tracks[p.0], persons[p.1], index) >= minScore)
    && (forall t: nat, d: nat | t < |tracks| && d < |persons| && scorer(tracks[t], persons[d], index) >= minScore :: (t, d) in scores)
  }

  method ScoreTable(scorer: Scorer, tracks: seq<Track>, persons: seq<Person>, index: int, minScore: int) returns (scores: Scores)
    ensures IsScoreTable(scorer, tracks, persons, index, minScore, scores)
  {
    scores := map[];
    for t := 0 to |tracks|
      invariant forall p | p in scores :: p.0 < t && p.1 < |persons| && scores[p] == scorer(tracks[p.0], persons[p.1], index) >= minScore
      invariant forall u: nat, d: nat | u < t && d < |persons| && scorer(tracks[u], persons[d], index) >= minScore :: (u, d) in scores
    {
      for d := 0 to |persons|
        invariant forall p | p in scores :: (p.0 < t || (p.0 == t && p.1 < d)) && p.1 < |persons| && scores[p] == scorer(tracks[p.0], persons[p.1], index) >= minScore
        invariant forall u: nat, e: nat | (u < t || (u == t && e < d)) && e < |persons| && scorer(tracks[u], persons[e], index) >= minScore :: (u, e) in scores
      {
        var score := scorer(tracks[t], persons[d], index);
        if score >= minScore {
          scores := scores[(t, d) := score];
        }
      }
    }
  }

  /** What the solver in charge of the problem's size promises. */
  ghost predicate Solves(scores: Scores, tracks: nat, persons: nat, maxExactSize: int, pairs: seq<Cell>) {
    && IsMatching(scores, pairs)
    && (tracks <= maxExactSize && persons <= maxExactSize ==> CanonicalBest(scores, pairs))
    && (tracks > maxExactSize || persons > maxExactSize ==> MaximisesWeight(scores, pairs))
  }

  /** Score every pair and solve the assignment. */
  method GlobalMatch(scorer: Scorer, tracks: seq<Track>, persons: seq<Person>, index: int, minScore: int, maxExactSize: int)
    returns (pairs: seq<Cell>, ghost scores: Scores)
    ensures IsScoreTable(scorer, tracks, persons, index, minScore, scores)
    ensures Solves(scores, |tracks|, |persons|, maxExactSize, pairs)
    ensures forall k | 0 <= k < |pairs| :: pairs[k].0 < |tracks| && pairs[k].1 < |persons|
  {
    var table := ScoreTable(scorer, tracks, persons, index, minScore);
    scores := table;
    pairs := GlobalAssignment(table, |tracks|, |persons|, maxExactSize);
  }

  /** The threshold for doubtful persons is laxer. */
  function LowThreshold(minMatchScore: int): int {
    if minMatchScore - 80_000 < 180_000 then 180_000 else minMatchScore - 80_000
  }

  // ----- one frame

  /** Same record, possibly under another id and state. */
  ghost predicate SamePerson(a: Entry, b: Entry) {
    if a.Foreign? then b.Foreign?
    else b.Detected? && b.person == a.person.(trackId := b.person.trackId, trackState := b.person.trackState)
  }

  ghost predicate SamePersons(a: seq<Entry>, b: seq<Entry>) {
    |a| == |b| && forall i | 0 <= i < |a| :: SamePerson(a[i], b[i])
  }

  /** Ids are the names of numbers given out already. */
  ghost predicate Numbered(tracks: seq<Track>, next: nat) {
    forall t | t in tracks :: HasNumber(t.id, next)
  }

  ghost predicate HasNumber(id: string, next: nat) {
    exists m: nat :: m < next && id == TrackName(m)
  }

  lemma {:induction false} FreshName(tracks: seq<Track>, next: nat)
    requires Numbered(tracks, next)
    ensures !Known(tracks, TrackName(next))
  {
    forall t | t in tracks ensures t.id != TrackName(next) {
      assert HasNumber(t.id, next);
      var m: nat :| m < next && t.id == TrackName(m);
      if TrackName(m) == TrackName(next) {
        TrackNameInjective(m, next);
      }
    }
  }

  lemma {:induction false} MaskNamed(entries: seq<Entry>, matched: set<nat>, i: nat, id: string, state: string)
    requires i < |entries| && entries[i].Detected? && i !in matched
    ensures Mask(entries[i := Name(entries[i], id, state)], matched + {i})
         == Mask(entries, matched)[i := Name(Mask(entries, matched)[i], id, state)]
  {
  }

  /** The frames before the current one and the persons named so far agree with the tracks. */
  ghost predicate InProgress(base: seq<Frame>, index: int, entries: seq<Entry>, matched: set<nat>, tracks: seq<Track>, next: nat, maxAge: int) {
    && Increasing(base + [Frame(index, Mask(entries, matched))])
    && Consistent(base + [Frame(index, Mask(entries, matched))], tracks, maxAge)
    && (forall i | i in matched :: i < |entries| && entries[i].Detected? && entries[i].person.trackId.Some?)
    && Numbered(tracks, next)
  }

  lemma {:induction false} AnyEntries(base: seq<Frame>, index: int, entries: seq<Entry>, entries': seq<Entry>)
    requires Increasing(base + [Frame(index, entries)])
    ensures Increasing(base + [Frame(index, entries')])
  {
    var a, b := base + [Frame(index, entries)], base + [Frame(index, entries')];
    forall i, j | 0 <= i < j < |b| ensures b[i].index < b[j].index {
      assert a[i].index < a[j].index;
    }
  }

  lemma {:induction false} AssignInProgress(base: seq<Frame>, index: int, entries: seq<Entry>, matched: set<nat>, tracks: seq<Track>, next: nat, maxAge: int,
                         p: nat, i: nat, state: string)
    requires InProgress(base, index, entries, matched, tracks, next, maxAge)
    requires p < |tracks| && index - tracks[p].lastFrame <= maxAge && Unseen(Mask(entries, matched), tracks[p].id)
    requires i < |entries| && entries[i].Detected? && i !in matched
    ensures InProgress(base, index, entries[i := Name(entries[i], tracks[p].id, state)], matched + {i},
                       tracks[p := Updated(tracks[p], index, entries[i].person)], next, maxAge)
  {
    AssignStep(base, index, Mask(entries, matched), tracks, p, i, state, entries[i].person, maxAge);
    MaskNamed(entries, matched, i, tracks[p].id, state);
    AnyEntries(base, index, Mask(entries, matched), Mask(entries[i := Name(entries[i], tracks[p].id, state)], matched + {i}));
    assert tracks[p] in tracks;
  }

  lemma {:induction false} OpenInProgress(base: seq<Frame>, index: int, entries: seq<Entry>, matched: set<nat>, tracks: seq<Track>, next: nat, maxAge: int, i: nat)
    requires InProgress(base, index, entries, matched, tracks, next, maxAge)
    requires i < |entries| && entries[i].Detected? && i !in matched
    ensures InProgress(base, index, entries[i := Name(entries[i], TrackName(next), "new")], matched + {i},
                       tracks + [Open(TrackName(next), index, entries[i].person)], next + 1, maxAge)
  {
    FreshName(tracks, next);
    OpenStep(base, index, Mask(entries, matched), tracks, i, TrackName(next), "new", entries[i].person, maxAge);
    MaskNamed(entries, matched, i, TrackName(next), "new");
    AnyEntries(base, index, Mask(entries, matched), Mask(entries[i := Name(entries[i], TrackName(next), "new")], matched + {i}));
    NumberedMore(tracks, tracks + [Open(TrackName(next), index, entries[i].person)], Open(TrackName(next), index, entries[i].person), next);
  }

  lemma {:induction false} RearrangedInProgress(base: seq<Frame>, index: int, entries: seq<Entry>, matched: set<nat>, tracks: seq<Track>, tracks': seq<Track>, next: nat, maxAge: int)
    requires InProgress(base, index, entries, matched, tracks, next, maxAge) && multiset(tracks) == multiset(tracks')
    ensures InProgress(base, index, entries, matched, tracks', next, maxAge)
  {
    Rearranged(base + [Frame(index, Mask(entries, matched))], tracks, tracks', maxAge);
    assert forall t :: t in tracks' <==> t in multiset(tracks');
    assert forall t :: t in tracks <==> t in multiset(tracks);
  }

  lemma {:induction false} UnseenKept(masked: seq<Entry>, i: nat, id: string, state: string, other: string)
    requires i < |masked| && masked[i].Detected? && Unseen(masked, other) && other != id
    ensures Unseen(masked[i := Name(masked[i], id, state)], other)
  {
  }

  lemma {:induction false} UpdateInFront(a: seq<Track>, b: seq<Track>, p: nat, t: Track)
    requires p < |a| && t.id == a[p].id
    ensures a[p := t] + b == (a + b)[p := t] && (a + b)[p] == a[p] && Ids(a[p := t]) == Ids(a)
  {
  }

  /** Naming an entry for one track leaves the others unseen. */
  lemma {:induction false} StaysUnseen(tracks: seq<Track>, entries: seq<Entry>, matched: set<nat>, p: nat, i: nat, state: string, q: nat)
    requires DistinctIds(tracks) && p < |tracks| && q < |tracks| && q != p && Unseen(Mask(entries, matched), tracks[q].id)
    requires i < |entries| && entries[i].Detected? && i !in matched
    ensures Unseen(Mask(entries[i := Name(entries[i], tracks[p].id, state)], matched + {i}), tracks[q].id)
  {
    MaskNamed(entries, matched, i, tracks[p].id, state);
    UnseenKept(Mask(entries, matched), i, tracks[p].id, state, tracks[q].id);
  }

  lemma {:induction false} InsertBefore<T>(a: seq<T>, b: seq<T>, x: T)
    ensures multiset(a + b + [x]) == multiset(a + [x] + b)
  {
  }

  /** Positions below n of the persons that pass. */
  function Select(entries: seq<Entry>, keep: Person -> bool, n: nat): (r: seq<nat>)
    requires n <= |entries|
    ensures forall i: nat :: i in r <==> i < n && entries[i].Detected? && keep(entries[i].person)
    ensures Distinct(r)
  {
    if n == 0 then []
    else
      var r := Select(entries, keep, n - 1);
      if entries[n - 1].Detected? && keep(entries[n - 1].person) then r + [n - 1] else r
  }

  function SelectTracks(tracks: seq<Track>, keep: Track -> bool, n: nat): (r: seq<nat>)
    requires n <= |tracks|
    ensures forall i: nat :: i in r <==> i < n && keep(tracks[i])
    ensures Distinct(r)
  {
    if n == 0 then []
    else
      var r := SelectTracks(tracks, keep, n - 1);
      if keep(tracks[n - 1]) then r + [n - 1] else r
  }

  /** The positions that are not in the set. */
  function Without(s: seq<nat>, gone: set<nat>): (r: seq<nat>)
    ensures forall i :: i in r <==> i in s && i !in gone
    ensures Distinct(s) ==> Distinct(r)
  {
    if s == [] then []
    else
      var last := s[|s| - 1];
      assert s == s[..|s| - 1] + [last];
      var r := Without(s[..|s| - 1], gone);
      if last in gone then r else r + [last]
  }

  function PersonsAt(entries: seq<Entry>, positions: seq<nat>): seq<Person>
    requires forall i | i in positions :: i < |entries| && entries[i].Detected?
  {
    seq(|positions|, k requires 0 <= k < |positions| => assert positions[k] in positions; entries[positions[k]].person)
  }

  function TracksAt(tracks: seq<Track>, positions: seq<nat>): seq<Track>
    requires forall p | p in positions :: p < |tracks|
  {
    seq(|positions|, k requires 0 <= k < |positions| => assert positions[k] in positions; tracks[positions[k]])
  }

  /** The ids that the entries mention, assigned in this run or not. */
  function Mentioned(entries: seq<Entry>): set<string> {
    set i | 0 <= i < |entries| && entries[i].Detected? && entries[i].person.trackId.Some? :: entries[i].person.trackId.value
  }

  lemma {:induction false} NotMentioned(entries: seq<Entry>, matched: set<nat>, id: string)
    requires id !in Mentioned(entries)
    ensures Unseen(Mask(entries, matched), id)
  {
    forall i | 0 <= i < |entries| ensures !Carries(Mask(entries, matched)[i], id) {
      assert entries[i].Detected? && entries[i].person.trackId.Some? ==> entries[i].person.trackId.value in Mentioned(entries);
    }
  }

  /** Persons left over lose any id they came with. */
  function ClearRest(entries: seq<Entry>, matched: set<nat>): seq<Entry> {
    seq(|entries|, i requires 0 <= i < |entries| =>
      if i in matched || entries[i].Foreign? then entries[i]
      else Detected(entries[i].person.(trackId := None, trackState := "unconfirmed_low_confidence")))
  }

  lemma {:induction false} SeenAlike(index: int, a: seq<Entry>, b: seq<Entry>, id: string)
    requires |a| == |b|
    requires forall i | 0 <= i < |a| :: (Carries(a[i], id) <==> Carries(b[i], id)) && (Carries(a[i], id) ==> a[i] == b[i])
    ensures SeenIn(index, a, id) == SeenIn(index, b, id)
  {
    if a != [] {
      SeenAlike(index, a[..|a| - 1], b[..|b| - 1], id);
    }
  }

  lemma {:induction false} ClearedConsistent(base: seq<Frame>, index: int, entries: seq<Entry>, matched: set<nat>, tracks: seq<Track>, reach: int)
    requires Consistent(base + [Frame(index, Mask(entries, matched))], tracks, reach)
    ensures Consistent(base + [Frame(index, ClearRest(entries, matched))], tracks, reach)
  {
    forall id
      ensures Sightings(base + [Frame(index, ClearRest(entries, matched))], id) == Sightings(base + [Frame(index, Mask(entries, matched))], id)
    {
      SeenAlike(index, ClearRest(entries, matched), Mask(entries, matched), id);
      SightingsSnoc(base, Frame(index, ClearRest(entries, matched)), id);
      SightingsSnoc(base, Frame(index, Mask(entries, matched)), id);
    }
  }

  lemma {:induction false} ClearSame(entries0: seq<Entry>, entries: seq<Entry>, matched: set<nat>)
    requires SamePersons(entries0, entries)
    ensures SamePersons(entries0, ClearRest(entries, matched))
  {
    forall i | 0 <= i < |entries| ensures SamePerson(entries0[i], ClearRest(entries, matched)[i]) {
      assert SamePerson(entries0[i], entries[i]);
    }
  }

  lemma {:induction false} SameTwice(a: seq<Entry>, b: seq<Entry>, c: seq<Entry>)
    requires SamePersons(a, b) && SamePersons(b, c)
    ensures SamePersons(a, c)
  {
    forall i | 0 <= i < |a| ensures SamePerson(a[i], c[i]) {
      assert SamePerson(a[i], b[i]) && SamePerson(b[i], c[i]);
    }
  }

  /** Every confident person of the frame has an id. */
  ghost predicate AllNamed(entries: seq<Entry>, highConfidence: real) {
    forall i | 0 <= i < |entries| && entries[i].Detected? && entries[i].person.score >= highConfidence ::
      entries[i].person.trackId.Some?
  }

  /** The tracks unseen for more than `maxAge` frames, or the others, in order. */
  function Aged(tracks: seq<Track>, index: int, maxAge: int, tooOld: bool): seq<Track> {
    if tracks == [] then []
    else
      var init, last := Aged(tracks[..|tracks| - 1], index, maxAge, tooOld), tracks[|tracks| - 1];
      if (index - last.lastFrame > maxAge) == tooOld then init + [last] else init
  }

  /** Tracks too old are split off, in order. */
  method AgeOut(active: seq<Track>, finished: seq<Track>, index: int, maxAge: int) returns (active': seq<Track>, finished': seq<Track>)
    ensures multiset(active' + finished') == multiset(active + finished)
    ensures forall t | t in active' :: index - t.lastFrame <= maxAge
    ensures active' == Aged(active, index, maxAge, false) && finished' == finished + Aged(active, index, maxAge, true)
  {
    active', finished' := [], finished;
    for k := 0 to |active|
      invariant active' == Aged(active[..k], index, maxAge, false) && finished' == finished + Aged(active[..k], index, maxAge, true)
    {
      assert active[..k + 1][..k] == active[..k];
      if index - active[k].lastFrame > maxAge {
        finished' := finished' + [active[k]];
      } else {
        active' := active' + [active[k]];
      }
    }
    WholePrefix(active);
    AgedSplits(active, index, maxAge);
    MixedMultiset(active', finished, Aged(active, index, maxAge, true), active);
  }

  lemma {:induction false} MixedMultiset<T>(a: seq<T>, b: seq<T>, c: seq<T>, all: seq<T>)
    requires multiset(a) + multiset(c) == multiset(all)
    ensures multiset(a + (b + c)) == multiset(all + b)
  {
  }

  lemma {:induction false} AgedSplits(tracks: seq<Track>, index: int, maxAge: int)
    ensures multiset(Aged(tracks, index, maxAge, false)) + multiset(Aged(tracks, index, maxAge, true)) == multiset(tracks)
    ensures forall t | t in Aged(tracks, index, maxAge, false) :: index - t.lastFrame <= maxAge
  {
    if tracks != [] {
      var init, last := tracks[..|tracks| - 1], tracks[|tracks| - 1];
      assert tracks == init + [last];
      AgedSplits(init, index, maxAge);
    }
  }

  lemma {:induction false} NameSame(entries0: seq<Entry>, entries: seq<Entry>, i: nat, id: string, state: string)
    requires SamePersons(entries0, entries) && i < |entries| && entries[i].Detected?
    ensures SamePersons(entries0, entries[i := Name(entries[i], id, state)])
  {
    assert SamePerson(entries0[i], entries[i]);
  }

  // ----- what a frame does, given the solutions of its two matchings

  /** A frame being worked on: the active tracks, the next track number, the entries and the
      positions of the persons named so far. */
  datatype Scene = Scene(active: seq<Track>, next: nat, entries: seq<Entry>, matched: set<nat>)

  /** Track p takes person i. */
  function Give(w: Scene, index: int, p: nat, i: nat, state: string): Scene {
    if p < |w.active| && i < |w.entries| && w.entries[i].Detected? then
      Scene(w.active[p := Updated(w.active[p], index, w.entries[i].person)], w.next,
            w.entries[i := Name(w.entries[i], w.active[p].id, state)], w.matched + {i})
    else w
  }

  /** The pairs of an assignment in order. */
  function GiveAll(w: Scene, index: int, positions: seq<nat>, detections: seq<nat>, pairs: seq<Cell>, state: string): Scene {
    if pairs == [] then w
    else
      var before, q := GiveAll(w, index, positions, detections, pairs[..|pairs| - 1], state), pairs[|pairs| - 1];
      if q.0 < |positions| && q.1 < |detections| then Give(before, index, positions[q.0], detections[q.1], state) else before
  }

  /** Person i opens a track, unless it has been named. */
  function OpenFor(w: Scene, index: int, i: nat): Scene {
    if i in w.matched || i >= |w.entries| || w.entries[i].Foreign? then w
    else
      Scene(w.active + [Open(TrackName(w.next), index, w.entries[i].person)], w.next + 1,
            w.entries[i := Name(w.entries[i], TrackName(w.next), "new")], w.matched + {i})
  }

  function OpenAll(w: Scene, index: int, high: seq<nat>): Scene {
    if high == [] then w else OpenFor(OpenAll(w, index, high[..|high| - 1]), index, high[|high| - 1])
  }

  /** The settings of a tracker. */
  datatype Rules = Rules(scorer: Scorer, highConfidence: real, lowConfidence: real, minMatchScore: int, maxAge: int, maxExactSize: int)

  function High(r: Rules, entries: seq<Entry>): seq<nat> {
    Select(entries, (p: Person) => p.score >= r.highConfidence, |entries|)
  }

  function Low(r: Rules, entries: seq<Entry>): seq<nat> {
    Select(entries, (p: Person) => r.lowConfidence <= p.score < r.highConfidence, |entries|)
  }

  /** Tracks seen recently enough. */
  function Recent(r: Rules, tracks: seq<Track>, index: int): seq<nat> {
    SelectTracks(tracks, (t: Track) => index - t.lastFrame <= r.maxAge, |tracks|)
  }

  /** Those of them that no entry mentions. */
  function Remaining(r: Rules, tracks: seq<Track>, index: int, mentioned: set<string>): seq<nat> {
    SelectTracks(tracks, (t: Track) => index - t.lastFrame <= r.maxAge && t.id !in mentioned, |tracks|)
  }

  /** The pairs solve the table of these tracks and persons. */
  ghost predicate Matches(r: Rules, tracks: seq<Track>, persons: seq<Person>, index: int, minScore: int, pairs: seq<Cell>) {
    exists scores :: IsScoreTable(r.scorer, tracks, persons, index, minScore, scores) && Solves(scores, |tracks|, |persons|, r.maxExactSize, pairs)
  }

  /** The matching of confident persons with recent tracks. */
  ghost predicate FirstPhase(r: Rules, w: Scene, index: int, high: seq<nat>, pairs: seq<Cell>, w': Scene) {
    && (forall i | i in high :: i < |w.entries| && w.entries[i].Detected?)
    && Matches(r, TracksAt(w.active, Recent(r, w.active, index)), PersonsAt(w.entries, high), index, r.minMatchScore, pairs)
    && w' == GiveAll(w, index, Recent(r, w.active, index), high, pairs, "tracked")
  }

  /** The recovery of doubtful persons with the tracks that remain. */
  ghost predicate SecondPhase(r: Rules, w: Scene, index: int, low: seq<nat>, pairs: seq<Cell>, w': Scene) {
    var (positions, rest) := (Remaining(r, w.active, index, Mentioned(w.entries)), Without(low, w.matched));
    && (forall i | i in rest :: i < |w.entries| && w.entries[i].Detected?)
    && Matches(r, TracksAt(w.active, positions), PersonsAt(w.entries, rest), index, LowThreshold(r.minMatchScore), pairs)
    && w' == GiveAll(w, index, positions, rest, pairs, "recovered_low_confidence")
  }

  /** The scene of a frame after n of its phases: the first matching, the second one, and new
      tracks for the confident persons left. */
  ghost predicate Reaches(r: Rules, start: Scene, index: int, n: nat, w: Scene) {
    if n == 0 then w == start
    else exists before :: Reaches(r, start, index, n - 1, before) && Phase(r, start.entries, before, index, n, w)
  }

  ghost predicate Phase(r: Rules, entries: seq<Entry>, before: Scene, index: int, n: nat, w: Scene) {
    if n == 1 then exists pairs :: FirstPhase(r, before, index, High(r, entries), pairs, w)
    else if n == 2 then exists pairs :: SecondPhase(r, before, index, Low(r, entries), pairs, w)
    else w == OpenAll(before, index, High(r, entries))
  }

  /** A whole frame: its three phases, and no id for the persons left. */
  ghost predicate Tracked(r: Rules, active: seq<Track>, next: nat, index: int, entries: seq<Entry>,
                          active': seq<Track>, next': nat, entries': seq<Entry>) {
    exists w :: Reaches(r, Scene(active, next, entries, {}), index, 3, w) && Named(w, active', next', entries')
  }

  ghost predicate Named(w: Scene, active': seq<Track>, next': nat, entries': seq<Entry>) {
    active' == w.active && next' == w.next && entries' == ClearRest(w.entries, w.matched)
  }

  lemma {:induction false} ThreePhases(r: Rules, start: Scene, index: int, pairs1: seq<Cell>, w1: Scene, pairs2: seq<Cell>, w2: Scene, w3: Scene)
    requires FirstPhase(r, start, index, High(r, start.entries), pairs1, w1)
    requires SecondPhase(r, w1, index, Low(r, start.entries), pairs2, w2) && w3 == OpenAll(w2, index, High(r, start.entries))
    ensures Reaches(r, start, index, 3, w3)
  {
    assert Reaches(r, start, index, 0, start) && Phase(r, start.entries, start, index, 1, w1);
    assert Reaches(r, start, index, 1, w1) && Phase(r, start.entries, w1, index, 2, w2);
    assert Reaches(r, start, index, 2, w2) && Phase(r, start.entries, w2, index, 3, w3);
  }

  // ----- giving and opening one by one

  lemma {:induction false} GiveSnoc(w: Scene, index: int, positions: seq<nat>, detections: seq<nat>, pairs: seq<Cell>, k: nat, state: string)
    requires k < |pairs| && pairs[k].0 < |positions| && pairs[k].1 < |detections|
    ensures GiveAll(w, index, positions, detections, pairs[..k + 1], state)
         == Give(GiveAll(w, index, positions, detections, pairs[..k], state), index, positions[pairs[k].0], detections[pairs[k].1], state)
  {
    assert pairs[..k + 1][..k] == pairs[..k];
  }

  /** The pairs fit the scene: every track and every person at most once. */
  ghost predicate Fitting(w: Scene, positions: seq<nat>, detections: seq<nat>, pairs: seq<Cell>) {
    && Distinct(positions) && Distinct(detections) && Independent(pairs)
    && (forall k | 0 <= k < |pairs| :: pairs[k].0 < |positions| && pairs[k].1 < |detections|)
    && (forall k | 0 <= k < |positions| :: positions[k] < |w.active|)
    && forall k | 0 <= k < |detections| :: detections[k] < |w.entries| && w.entries[detections[k]].Detected?
  }

  /** Track p has taken person i, as they were at the start. */
  predicate Took(w: Scene, index: int, p: nat, i: nat, state: string, w': Scene) {
    && p < |w.active| == |w'.active| && i < |w.entries| == |w'.entries| && w.entries[i].Detected?
    && w'.entries[i] == Name(w.entries[i], w.active[p].id, state)
    && w'.active[p] == Updated(w.active[p], index, w.entries[i].person)
  }

  ghost predicate GivenTrack(positions: seq<nat>, pairs: seq<Cell>, p: nat) {
    exists k :: 0 <= k < |pairs| && pairs[k].0 < |positions| && positions[pairs[k].0] == p
  }

  ghost predicate GivenPerson(detections: seq<nat>, pairs: seq<Cell>, i: nat) {
    exists k :: 0 <= k < |pairs| && pairs[k].1 < |detections| && detections[pairs[k].1] == i
  }

  /** What giving all pairs means: each pair's track has taken its person, and nothing else has
      changed. */
  ghost predicate AllGiven(w: Scene, index: int, positions: seq<nat>, detections: seq<nat>, pairs: seq<Cell>, state: string, w': Scene) {
    && |w'.active| == |w.active| && |w'.entries| == |w.entries| && w'.next == w.next
    && (forall k | 0 <= k < |pairs| :: pairs[k].0 < |positions| && pairs[k].1 < |detections|
                                       && Took(w, index, positions[pairs[k].0], detections[pairs[k].1], state, w'))
    && (forall p: nat | p < |w.active| && !GivenTrack(positions, pairs, p) :: w'.active[p] == w.active[p])
    && (forall i: nat | i < |w.entries| && !GivenPerson(detections, pairs, i) :: w'.entries[i] == w.entries[i])
    && (forall i: nat :: i in w'.matched <==> i in w.matched || GivenPerson(detections, pairs, i))
  }

  lemma {:induction false} GiveAllMeans(w: Scene, index: int, positions: seq<nat>, detections: seq<nat>, pairs: seq<Cell>, state: string)
    requires Fitting(w, positions, detections, pairs)
    ensures AllGiven(w, index, positions, detections, pairs, state, GiveAll(w, index, positions, detections, pairs, state))
    decreases |pairs|
  {
    if pairs != [] {
      var init := pairs[..|pairs| - 1];
      GiveAllMeans(w, index, positions, detections, init, state);
      GiveOneMore(w, index, positions, detections, pairs, state, GiveAll(w, index, positions, detections, init, state));
    }
  }

  lemma {:induction false} GiveOneMore(w: Scene, index: int, positions: seq<nat>, detections: seq<nat>, pairs: seq<Cell>, state: string, before: Scene)
    requires pairs != [] && Fitting(w, positions, detections, pairs)
    requires AllGiven(w, index, positions, detections, pairs[..|pairs| - 1], state, before)
    ensures var q := pairs[|pairs| - 1];
      AllGiven(w, index, positions, detections, pairs, state, Give(before, index, positions[q.0], detections[q.1], state))
  {
    var (init, last) := (pairs[..|pairs| - 1], pairs[|pairs| - 1]);
    var (p, i) := (positions[last.0], detections[last.1]);
    var after := Give(before, index, p, i, state);
    assert pairs == init + [last];
    GivenTrackStep(positions, init, last);
    GivenPersonStep(detections, init, last);
    OnceGiven(positions, detections, init, last);
    assert Took(w, index, p, i, state, after);
    forall k | 0 <= k < |init| ensures Took(w, index, positions[init[k].0], detections[init[k].1], state, after) {
      assert Took(w, index, positions[init[k].0], detections[init[k].1], state, before);
      assert GivenTrack(positions, init, positions[init[k].0]) && GivenPerson(detections, init, detections[init[k].1]);
    }
  }

  lemma {:induction false} GivenTrackStep(positions: seq<nat>, init: seq<Cell>, last: Cell)
    requires last.0 < |positions|
    ensures forall x: nat :: GivenTrack(positions, init + [last], x) <==> GivenTrack(positions, init, x) || x == positions[last.0]
  {
    var pairs := init + [last];
    forall x: nat ensures GivenTrack(positions, pairs, x) <==> GivenTrack(positions, init, x) || x == positions[last.0] {
      if GivenTrack(positions, init, x) {
        var k :| 0 <= k < |init| && init[k].0 < |positions| && positions[init[k].0] == x;
        assert pairs[k] == init[k];
      }
      assert pairs[|init|] == last;
    }
  }

  lemma {:induction false} GivenPersonStep(detections: seq<nat>, init: seq<Cell>, last: Cell)
    requires last.1 < |detections|
    ensures forall x: nat :: GivenPerson(detections, init + [last], x) <==> GivenPerson(detections, init, x) || x == detections[last.1]
  {
    var pairs := init + [last];
    forall x: nat ensures GivenPerson(detections, pairs, x) <==> GivenPerson(detections, init, x) || x == detections[last.1] {
      if GivenPerson(detections, init, x) {
        var k :| 0 <= k < |init| && init[k].1 < |detections| && detections[init[k].1] == x;
        assert pairs[k] == init[k];
      }
      assert pairs[|init|] == last;
    }
  }

  lemma {:induction false} OnceGiven(positions: seq<nat>, detections: seq<nat>, init: seq<Cell>, last: Cell)
    requires Distinct(positions) && Distinct(detections) && Independent(init + [last]) && last.0 < |positions| && last.1 < |detections|
    ensures !GivenTrack(positions, init, positions[last.0]) && !GivenPerson(detections, init, detections[last.1])
  {
    var pairs := init + [last];
    forall k | 0 <= k < |init| ensures init[k].0 != last.0 && init[k].1 != last.1 {
      assert pairs[k] == init[k] && pairs[|init|] == last;
    }
  }

  lemma {:induction false} OpenAllCovers(w: Scene, index: int, high: seq<nat>)
    requires forall k | 0 <= k < |high| :: high[k] < |w.entries| && w.entries[high[k]].Detected?
    ensures var w' := OpenAll(w, index, high);
      && w.matched <= w'.matched && (forall k | 0 <= k < |high| :: high[k] in w'.matched)
      && |w'.entries| == |w.entries| && forall i | 0 <= i < |w.entries| :: w'.entries[i].Detected? == w.entries[i].Detected?
  {
    if high != [] {
      OpenAllCovers(w, index, high[..|high| - 1]);
    }
  }

  lemma {:induction false} OpenSnoc(w: Scene, index: int, high: seq<nat>, k: nat)
    requires k < |high|
    ensures OpenAll(w, index, high[..k + 1]) == OpenFor(OpenAll(w, index, high[..k]), index, high[k])
  {
    assert high[..k + 1][..k] == high[..k];
  }

  lemma {:induction false} NumberedMore(tracks: seq<Track>, tracks': seq<Track>, t: Track, next: nat)
    requires Numbered(tracks, next) && t.id == TrackName(next)
    requires forall s | s in tracks' :: s in tracks || s == t
    ensures Numbered(tracks', next + 1)
  {
    forall s | s in tracks' ensures HasNumber(s.id, next + 1) {
      if s in tracks {
        assert HasNumber(s.id, next);
        var m: nat :| m < next && s.id == TrackName(m);
        assert m < next + 1;
      } else {
        assert next < next + 1;
      }
    }
  }

  function Ids(tracks: seq<Track>): seq<string> {
    seq(|tracks|, i requires 0 <= i < |tracks| => tracks[i].id)
  }
}
