/** The tracker's run over all frames: match the confident persons, recover doubtful ones,
    open new tracks, age out old ones, and finally merge fragments. */
module Tracker {
  import opened Matchings
  import opened ExactAssignment
  import opened Hungarian
  import opened Options
  import opened Orders
  import opened Sums
  import opened Tracks
  import opened Sorting
  import opened UnionFind
  import opened Fragments
  import opened FragmentLaw
  import opened FragmentGroups
  import opened FragmentMerge
  import opened TrackerFrame
  import opened FrameOutcome
  import opened TrackerHistory

  class PersonTracker {
    const scorer: Scorer
    const compare: Comparer
    const highConfidence: real
    const lowConfidence: real
    const minMatchScore: int
    const maxAge: int
    const maxGap: int
    const maxExactSize: int
    var frames: seq<Frame>
    var active: seq<Track>
    var finished: seq<Track>
    var nextNumber: nat

    function Settings(): Rules {
      Rules(scorer, highConfidence, lowConfidence, minMatchScore, maxAge, maxExactSize)
    }

    ghost predicate Working(base: seq<Frame>, index: int, entries: seq<Entry>, matched: set<nat>)
      reads this
    {
      InProgress(base, index, entries, matched, active + finished, nextNumber, maxAge)
    }

    /** Tracks that can be given a person of this frame. */
    ghost predicate Free(index: int, entries: seq<Entry>, matched: set<nat>, p: nat)
      reads this
    {
      p < |active| && index - active[p].lastFrame <= maxAge && Unseen(Mask(entries, matched), active[p].id)
    }

    /** One match. */
    method Assign(ghost base: seq<Frame>, index: int, entries: seq<Entry>, ghost matched: set<nat>, p: nat, i: nat, state: string)
      returns (entries': seq<Entry>)
      requires Working(base, index, entries, matched) && Free(index, entries, matched, p)
      requires i < |entries| && entries[i].Detected? && i !in matched
      modifies this`active
      ensures Working(base, index, entries', matched + {i})
      ensures entries' == entries[i := Name(entries[i], old(active)[p].id, state)]
      ensures active == old(active)[p := Updated(old(active)[p], index, entries[i].person)] && Ids(active) == old(Ids(active))
      ensures forall q: nat | q != p && old(Free(index, entries, matched, q)) :: Free(index, entries', matched + {i}, q)
    {
      var t := active[p];
      AssignInProgress(base, index, entries, matched, active + finished, nextNumber, maxAge, p, i, state);
      UpdateInFront(active, finished, p, Updated(t, index, entries[i].person));
      entries' := entries[i := Name(entries[i], t.id, state)];
      active := active[p := Updated(t, index, entries[i].person)];
      forall q: nat | q != p && old(Free(index, entries, matched, q)) ensures Free(index, entries', matched + {i}, q) {
        StaysUnseen(old(active) + finished, entries, matched, p, i, state, q);
      }
    }

    /** Apply all pairs of an assignment. */
    method ApplyMatches(ghost base: seq<Frame>, index: int, entries: seq<Entry>, matched: set<nat>,
                        positions: seq<nat>, detections: seq<nat>, pairs: seq<Cell>, state: string)
      returns (entries': seq<Entry>, matched': set<nat>)
      requires Working(base, index, entries, matched)
      requires Distinct(positions) && forall k | 0 <= k < |positions| :: Free(index, entries, matched, positions[k])
      requires Distinct(detections)
      requires forall k | 0 <= k < |detections| :: detections[k] < |entries| && entries[detections[k]].Detected? && detections[k] !in matched
      requires Independent(pairs) && forall k | 0 <= k < |pairs| :: pairs[k].0 < |positions| && pairs[k].1 < |detections|
      modifies this`active
      ensures Working(base, index, entries', matched') && SamePersons(entries, entries')
      ensures matched <= matched' && Ids(active) == old(Ids(active))
      ensures Scene(active, nextNumber, entries', matched')
           == GiveAll(Scene(old(active), nextNumber, entries, matched), index, positions, detections, pairs, state)
    {
      entries', matched' := entries, matched;
      ghost var w := Scene(active, nextNumber, entries, matched);
      for k := 0 to |pairs|
        invariant Working(base, index, entries', matched') && SamePersons(entries, entries')
        invariant matched <= matched' && Ids(active) == Ids(w.active)
        invariant forall m | k <= m < |pairs| :: Free(index, entries', matched', positions[pairs[m].0]) && detections[pairs[m].1] !in matched'
        invariant Scene(active, nextNumber, entries', matched') == GiveAll(w, index, positions, detections, pairs[..k], state)
      {
        var p, i := positions[pairs[k].0], detections[pairs[k].1];
        assert SamePerson(entries[i], entries'[i]);
        NameSame(entries, entries', i, active[p].id, state);
        GiveSnoc(w, index, positions, detections, pairs, k, state);
        entries' := Assign(base, index, entries', matched', p, i, state);
        matched' := matched' + {i};
      }
      assert pairs[..|pairs|] == pairs;
    }

    /** Every confident person without a track opens one. */
    method OpenTracks(ghost base: seq<Frame>, index: int, entries: seq<Entry>, matched: set<nat>, high: seq<nat>)
      returns (entries': seq<Entry>, matched': set<nat>)
      requires Working(base, index, entries, matched)
      requires forall k | 0 <= k < |high| :: high[k] < |entries| && entries[high[k]].Detected?
      modifies this`active, this`nextNumber
      ensures Working(base, index, entries', matched') && SamePersons(entries, entries')
      ensures matched <= matched' && forall k | 0 <= k < |high| :: high[k] in matched'
      ensures Scene(active, nextNumber, entries', matched') == OpenAll(Scene(old(active), old(nextNumber), entries, matched), index, high)
    {
      entries', matched' := entries, matched;
      ghost var w := Scene(active, nextNumber, entries, matched);
      for k := 0 to |high|
        invariant Working(base, index, entries', matched') && SamePersons(entries, entries')
        invariant Scene(active, nextNumber, entries', matched') == OpenAll(w, index, high[..k])
      {
        OpenSnoc(w, index, high, k);
        entries', matched' := OpenUnmatched(base, index, entries, entries', matched', high[k]);
      }
      assert high[..|high|] == high;
      OpenAllCovers(w, index, high);
    }

    method OpenUnmatched(ghost base: seq<Frame>, index: int, ghost before: seq<Entry>, entries: seq<Entry>, matched: set<nat>, i: nat)
      returns (entries': seq<Entry>, matched': set<nat>)
      requires Working(base, index, entries, matched) && SamePersons(before, entries) && i < |before| && before[i].Detected?
      modifies this`active, this`nextNumber
      ensures Working(base, index, entries', matched') && SamePersons(before, entries') && matched' == matched + {i}
      ensures Scene(active, nextNumber, entries', matched') == OpenFor(Scene(old(active), old(nextNumber), entries, matched), index, i)
    {
      if i in matched {
        assert matched + {i} == matched;
        return entries, matched;
      }
      entries' := OpenTrack(base, index, before, entries, matched, i);
      matched' := matched + {i};
    }

    method OpenTrack(ghost base: seq<Frame>, index: int, ghost before: seq<Entry>, entries: seq<Entry>, ghost matched: set<nat>, i: nat)
      returns (entries': seq<Entry>)
      requires Working(base, index, entries, matched) && SamePersons(before, entries)
      requires i < |before| && before[i].Detected? && i !in matched
      modifies this`active, this`nextNumber
      ensures Working(base, index, entries', matched + {i}) && SamePersons(before, entries')
      ensures |entries'| == |entries| && entries[i].Detected?
      ensures entries' == entries[i := Name(entries[i], TrackName(old(nextNumber)), "new")]
      ensures active == old(active) + [Open(TrackName(old(nextNumber)), index, entries[i].person)] && nextNumber == old(nextNumber) + 1
    {
      var id := TrackName(nextNumber);
      assert SamePerson(before[i], entries[i]);
      NameSame(before, entries, i, id, "new");
      OpenInProgress(base, index, entries, matched, active + finished, nextNumber, maxAge, i);
      entries' := entries[i := Name(entries[i], id, "new")];
      ghost var t := Open(id, index, entries[i].person);
      InsertBefore(active, finished, t);
      RearrangedInProgress(base, index, entries', matched + {i}, active + finished + [t], active + [t] + finished, nextNumber + 1, maxAge);
      active := active + [Open(id, index, entries[i].person)];
      nextNumber := nextNumber + 1;
    }

    constructor (scorer: Scorer, compare: Comparer, highConfidence: real, lowConfidence: real, minMatchScore: int,
                 maxAge: int, maxGap: int, maxExactSize: int, frames: seq<Frame>)
      ensures Settings() == Rules(scorer, highConfidence, lowConfidence, minMatchScore, maxAge, maxExactSize)
      ensures this.compare == compare && this.maxGap == maxGap
      ensures this.frames == frames && active == [] && finished == [] && nextNumber == 1
    {
      this.scorer, this.compare := scorer, compare;
      this.highConfidence, this.lowConfidence, this.minMatchScore := highConfidence, lowConfidence, minMatchScore;
      this.maxAge, this.maxGap, this.maxExactSize := maxAge, maxGap, maxExactSize;
      this.frames, active, finished, nextNumber := frames, [], [], 1;
    }

    /** Match the confident persons with the tracks that are not too old. */
    method MatchHigh(ghost base: seq<Frame>, index: int, entries: seq<Entry>, high: seq<nat>)
      returns (entries': seq<Entry>, matched: set<nat>, ghost pairs: seq<Cell>)
      requires Working(base, index, entries, {})
      requires Distinct(high) && forall i | i in high :: i < |entries| && entries[i].Detected?
      modifies this`active
      ensures Working(base, index, entries', matched) && SamePersons(entries, entries') && Ids(active) == old(Ids(active))
      ensures FirstPhase(Settings(), Scene(old(active), nextNumber, entries, {}), index, high, pairs, Scene(active, nextNumber, entries', matched))
    {
      var positions := Recent(Settings(), active, index);
      forall k | 0 <= k < |positions| ensures Free(index, entries, {}, positions[k]) {
        assert positions[k] in positions;
      }
      assert forall k | 0 <= k < |high| :: high[k] in high;
      var found;
      ghost var scores;
      found, scores := GlobalMatch(scorer, TracksAt(active, positions), PersonsAt(entries, high), index, minMatchScore, maxExactSize);
      pairs := found;
      entries', matched := ApplyMatches(base, index, entries, {}, positions, high, found, "tracked");
    }

    /** Recover doubtful persons with the tracks that no person mentions. */
    method MatchLow(ghost base: seq<Frame>, index: int, entries: seq<Entry>, matched: set<nat>, low: seq<nat>)
      returns (entries': seq<Entry>, matched': set<nat>, ghost pairs: seq<Cell>)
      requires Working(base, index, entries, matched)
      requires Distinct(low) && forall i | i in low :: i < |entries| && entries[i].Detected?
      modifies this`active
      ensures Working(base, index, entries', matched') && SamePersons(entries, entries') && matched <= matched'
      ensures SecondPhase(Settings(), Scene(old(active), nextNumber, entries, matched), index, low, pairs, Scene(active, nextNumber, entries', matched'))
    {
      var positions := Remaining(Settings(), active, index, Mentioned(entries));
      var rest := Without(low, matched);
      forall k | 0 <= k < |positions| ensures Free(index, entries, matched, positions[k]) {
        assert positions[k] in positions;
        NotMentioned(entries, matched, active[positions[k]].id);
      }
      assert forall k | 0 <= k < |rest| :: rest[k] in rest;
      var found;
      ghost var scores;
      found, scores := GlobalMatch(scorer, TracksAt(active, positions), PersonsAt(entries, rest), index, LowThreshold(minMatchScore), maxExactSize);
      pairs := found;
      entries', matched' := ApplyMatches(base, index, entries, matched, positions, rest, found, "recovered_low_confidence");
    }

    /** Between frames: the tracks agree with the first k frames, whose confident persons
        all have ids. */
    ghost predicate Idle(k: nat)
      reads this
    {
      && k <= |frames| && Increasing(frames)
      && Consistent(frames[..k], active + finished, maxAge) && Numbered(active + finished, nextNumber)
      && forall f | 0 <= f < k :: AllNamed(frames[f].entries, highConfidence)
    }

    /** The three phases of a frame. */
    method NamePersons(ghost base: seq<Frame>, index: int, entries: seq<Entry>) returns (entries': seq<Entry>)
      requires Increasing(base + [Frame(index, entries)])
      requires Consistent(base, active + finished, maxAge) && Numbered(active + finished, nextNumber)
      modifies this`active, this`nextNumber
      ensures Increasing(base + [Frame(index, entries')])
      ensures Consistent(base + [Frame(index, entries')], active + finished, maxAge) && Numbered(active + finished, nextNumber)
      ensures SamePersons(entries, entries') && AllNamed(entries', highConfidence)
      ensures FrameDone(Settings(), old(active), old(nextNumber), index, entries, active, nextNumber, entries')
    {
      var high, low := High(Settings(), entries), Low(Settings(), entries);
      StartFrame(base, index, entries, active + finished, maxAge);
      AnyEntries(base, index, entries, Mask(entries, {}));
      var named, matched;
      ghost var pairs, w1, pairs2, w2;
      ghost var start := Scene(active, nextNumber, entries, {});
      named, matched, pairs := MatchHigh(base, index, entries, high);
      w1 := Scene(active, nextNumber, named, matched);
      named, matched, pairs2, w2 := MatchRest(base, index, entries, named, matched, high, low);
      ThreePhases(Settings(), start, index, pairs, w1, pairs2, w2, Scene(active, nextNumber, named, matched));
      FrameIsDone(Settings(), start, finished, index, Scene(active, nextNumber, named, matched));
      ClearedConsistent(base, index, named, matched, active + finished, maxAge);
      AnyEntries(base, index, entries, ClearRest(named, matched));
      ClearSame(entries, named, matched);
      ClearNames(entries, named, matched, high, highConfidence);
      entries' := ClearRest(named, matched);
    }

    /** Recover doubtful persons, then open tracks for the confident ones left. */
    method MatchRest(ghost base: seq<Frame>, index: int, entries0: seq<Entry>, entries: seq<Entry>, matched: set<nat>, high: seq<nat>, low: seq<nat>)
      returns (entries': seq<Entry>, matched': set<nat>, ghost pairs: seq<Cell>, ghost w: Scene)
      requires Working(base, index, entries, matched) && SamePersons(entries0, entries)
      requires forall i | i in high :: i < |entries0| && entries0[i].Detected?
      requires Distinct(low) && forall i | i in low :: i < |entries0| && entries0[i].Detected?
      modifies this`active, this`nextNumber
      ensures Working(base, index, entries', matched') && SamePersons(entries0, entries')
      ensures forall i | i in high :: i in matched'
      ensures SecondPhase(Settings(), Scene(old(active), old(nextNumber), entries, matched), index, low, pairs, w)
      ensures Scene(active, nextNumber, entries', matched') == OpenAll(w, index, high)
    {
      assert forall i | 0 <= i < |entries0| :: SamePerson(entries0[i], entries[i]);
      var recovered, known;
      recovered, known, pairs := MatchLow(base, index, entries, matched, low);
      w := Scene(active, nextNumber, recovered, known);
      SameTwice(entries0, entries, recovered);
      assert forall i | 0 <= i < |entries0| :: SamePerson(entries0[i], recovered[i]);
      assert forall k | 0 <= k < |high| :: high[k] in high;
      entries', matched' := OpenTracks(base, index, recovered, known, high);
      SameTwice(entries0, recovered, entries');
    }

    ghost function Now(): Snapshot
      reads this
    {
      Snapshot(active, finished, nextNumber)
    }

    /** Process one frame. */
    method ProcessFrame(k: nat)
      requires Idle(k) && k < |frames|
      modifies this`frames, this`active, this`finished, this`nextNumber
      ensures Idle(k + 1) && |frames| == |old(frames)| && frames == old(frames)[k := frames[k]]
      ensures frames[k].index == old(frames)[k].index && SamePersons(old(frames)[k].entries, frames[k].entries)
      ensures Processed(Settings(), old(Now()), old(frames)[k], frames[k], Now())
    {
      PrefixIncreasing(frames, k);
      var entries := TrackFrame(frames[..k], frames[k]);
      ReplaceFrame(frames, k, entries);
      frames := frames[k := Frame(frames[k].index, entries)];
    }

    /** Name the persons of a frame, then age the tracks. */
    method TrackFrame(ghost base: seq<Frame>, frame: Frame) returns (entries: seq<Entry>)
      requires Increasing(base + [Frame(frame.index, frame.entries)])
      requires Consistent(base, active + finished, maxAge) && Numbered(active + finished, nextNumber)
      modifies this`active, this`finished, this`nextNumber
      ensures Consistent(base + [Frame(frame.index, entries)], active + finished, maxAge) && Numbered(active + finished, nextNumber)
      ensures SamePersons(frame.entries, entries) && AllNamed(entries, highConfidence)
      ensures Processed(Settings(), old(Now()), frame, Frame(frame.index, entries), Now())
    {
      entries := NamePersons(base, frame.index, frame.entries);
      ghost var before := active + finished;
      ghost var tracked := active;
      active, finished := AgeOut(active, finished, frame.index, maxAge);
      AgedIsProcessed(Settings(), old(Now()), frame, entries, tracked, Now());
      RearrangedIdle(base + [Frame(frame.index, entries)], before, active + finished, nextNumber, maxAge);
    }

    /** The whole run.  Every frame is matched, opened and aged as its step says (`history` holds
        the tracks before and after each frame); before merging (`mid`, `fragments`) and after
        it, every track records exactly the persons that carry its id; every confident person
        has an id; and nothing but ids and states has changed in the frames. */
    method Run() returns (tracks: seq<Track>, ghost mid: seq<Frame>, ghost history: seq<Snapshot>, ghost fragments: seq<Track>,
                          ghost accepted: seq<Candidate>, ghost root: Partition, ghost groups: Groups)
      requires Increasing(frames) && active == [] && finished == []
      modifies this`frames, this`active, this`finished, this`nextNumber
      ensures IsHistory(Settings(), old(frames), mid, history) && history[0] == Snapshot([], [], old(nextNumber))
      ensures multiset(fragments) == multiset(history[|history| - 1].active + history[|history| - 1].finished)
      ensures Consistent(mid, fragments, maxAge)
      ensures AllBeginConfident(Settings(), fragments)
      ensures Grouped(fragments, root, groups, maxGap) && Maximal(compare, fragments, root, groups, maxGap)
      ensures Greedy(compare, fragments, maxGap, accepted) && Reflects(root, Members(accepted))
      ensures Renamed(PrimaryNames(root, groups), mid, frames)
      ensures Consistent(frames, tracks, IntMax(maxAge, maxGap + 1))
      ensures SameFrames(old(frames), mid) && SameFrames(old(frames), frames)
      ensures forall f | 0 <= f < |frames| :: AllNamed(frames[f].entries, highConfidence) && FaintUnnamed(Settings(), frames[f].entries)
    {
      mid, history := ProcessAll();
      var all := SortBy(SmallerId, finished + active);
      SwapLists(finished, active);
      Rearranged(frames, active + finished, all, maxAge);
      fragments := all;
      BeginnersLast(Settings(), old(frames), mid, history, fragments);
      var frames', merges;
      frames', tracks, merges, root, groups := MergeFragments(compare, frames, all, maxGap, maxAge);
      accepted := merges;
      RenamedSame(old(frames), frames, frames', PrimaryNames(root, groups), highConfidence);
      AllFaintUnnamed(Settings(), old(frames), mid, history, PrimaryNames(root, groups), frames');
      frames := frames';
    }

    /** All frames in order. */
    method ProcessAll() returns (ghost mid: seq<Frame>, ghost history: seq<Snapshot>)
      requires Increasing(frames) && active == [] && finished == []
      modifies this`frames, this`active, this`finished, this`nextNumber
      ensures mid == frames && IsHistory(Settings(), old(frames), mid, history)
      ensures history[0] == old(Now()) && history[|history| - 1] == Now()
      ensures Idle(|frames|) && Consistent(frames, active + finished, maxAge) && SameFrames(old(frames), frames)
    {
      ghost var start := frames;
      SameSelf(frames);
      assert frames[..0] == [];
      history := [Now()];
      for k := 0 to |frames|
        invariant |frames| == |start| && Idle(k) && SameFrames(start, frames) && frames[k..] == start[k..]
        invariant HistoryUpTo(Settings(), start, frames, history, k) && history[0] == old(Now()) && history[k] == Now()
      {
        ghost var before, now := frames, Now();
        assert frames[k] == frames[k..][0] && start[k] == start[k..][0];
        ProcessFrame(k);
        SameStep(start, before, frames, k);
        HistoryStep(Settings(), start, before, frames, history, k, Now());
        history := history + [Now()];
        RestKept(start, before, frames, k);
      }
      WholePrefix(frames);
      mid := frames;
    }
  }

  lemma {:induction false} RestKept(frames: seq<Frame>, before: seq<Frame>, after: seq<Frame>, k: nat)
    requires |frames| == |before| == |after| && k < |frames| && before[k..] == frames[k..] && after == before[k := after[k]]
    ensures after[k + 1..] == frames[k + 1..]
  {
    assert before[k + 1..] == before[k..][1..] && frames[k + 1..] == frames[k..][1..];
  }

  lemma {:induction false} AllFaintUnnamed(r: Rules, frames: seq<Frame>, mid: seq<Frame>, history: seq<Snapshot>, names: Names, last: seq<Frame>)
    requires IsHistory(r, frames, mid, history) && Renamed(names, mid, last)
    ensures forall f | 0 <= f < |last| :: FaintUnnamed(r, last[f].entries)
  {
    forall f | 0 <= f < |last| ensures FaintUnnamed(r, last[f].entries) {
      FaintStayUnnamed(r, frames, mid, history, names, last, f);
    }
  }

  lemma {:induction false} BeginnersLast(r: Rules, frames: seq<Frame>, mid: seq<Frame>, history: seq<Snapshot>, fragments: seq<Track>)
    requires IsHistory(r, frames, mid, history) && history[0].active == [] && history[0].finished == []
    requires multiset(fragments) == multiset(history[|history| - 1].active + history[|history| - 1].finished)
    ensures AllBeginConfident(r, fragments)
  {
    HistoryBegins(r, frames, mid, history, |frames|, |frames|);
    var last := history[|history| - 1].active + history[|history| - 1].finished;
    forall t | t in fragments ensures t in last {
      assert t in multiset(fragments);
    }
  }

  lemma {:induction false} FrameIsDone(r: Rules, start: Scene, finished: seq<Track>, index: int, w: Scene)
    requires Reaches(r, start, index, 3, w) && start.matched == {}
    requires DistinctIds(start.active + finished) && Numbered(start.active + finished, start.next)
    ensures FrameDone(r, start.active, start.next, index, start.entries, w.active, w.next, ClearRest(w.entries, w.matched))
  {
    assert forall p | 0 <= p < |start.active| :: start.active[p] == (start.active + finished)[p];
    assert Tracked(r, start.active, start.next, index, start.entries, w.active, w.next, ClearRest(w.entries, w.matched));
    PhasesOutcome(r, start.active, start.next, index, start.entries, w.active, w.next, ClearRest(w.entries, w.matched));
  }

  /** The frames differ in ids and states at most. */
  ghost predicate SameFrames(a: seq<Frame>, b: seq<Frame>) {
    |a| == |b| && forall f | 0 <= f < |a| :: a[f].index == b[f].index && SamePersons(a[f].entries, b[f].entries)
  }

  lemma {:induction false} SameSelf(frames: seq<Frame>)
    ensures SameFrames(frames, frames)
  {
  }

  lemma {:induction false} SameStep(a: seq<Frame>, b: seq<Frame>, c: seq<Frame>, k: nat)
    requires SameFrames(a, b) && k < |b| == |c| && c == b[k := c[k]] && c[k].index == b[k].index && SamePersons(b[k].entries, c[k].entries)
    ensures SameFrames(a, c)
  {
    SameTwice(a[k].entries, b[k].entries, c[k].entries);
  }

  lemma {:induction false} SwapLists<T>(a: seq<T>, b: seq<T>)
    ensures multiset(a + b) == multiset(b + a)
  {
  }

  /** Renaming ids keeps the detections and leaves every named person named. */
  lemma {:induction false} RenamedSame(a: seq<Frame>, b: seq<Frame>, c: seq<Frame>, names: Names, highConfidence: real)
    requires SameFrames(a, b) && Renamed(names, b, c)
    requires forall f | 0 <= f < |b| :: AllNamed(b[f].entries, highConfidence)
    ensures SameFrames(a, c)
    ensures forall f | 0 <= f < |c| :: AllNamed(c[f].entries, highConfidence)
  {
    forall f | 0 <= f < |c|
      ensures c[f].index == a[f].index && SamePersons(a[f].entries, c[f].entries) && AllNamed(c[f].entries, highConfidence)
    {
      assert RenamedFrame(names, b[f], c[f]);
      RenamedEntries(names, b[f].entries, c[f].entries, highConfidence);
      SameTwice(a[f].entries, b[f].entries, c[f].entries);
    }
  }

  lemma {:induction false} RenamedEntries(names: Names, b: seq<Entry>, c: seq<Entry>, highConfidence: real)
    requires |b| == |c| && forall j | 0 <= j < |b| :: RenamedEntry(names, b[j], c[j])
    requires AllNamed(b, highConfidence)
    ensures SamePersons(b, c) && AllNamed(c, highConfidence)
  {
    forall j | 0 <= j < |b| ensures SamePerson(b[j], c[j]) {
      assert RenamedEntry(names, b[j], c[j]);
    }
    forall j | 0 <= j < |c| && c[j].Detected? && c[j].person.score >= highConfidence ensures c[j].person.trackId.Some? {
      assert RenamedEntry(names, b[j], c[j]);
    }
  }

  lemma {:induction false} RearrangedIdle(frames: seq<Frame>, tracks: seq<Track>, tracks': seq<Track>, next: nat, maxAge: int)
    requires Consistent(frames, tracks, maxAge) && Numbered(tracks, next) && multiset(tracks) == multiset(tracks')
    ensures Consistent(frames, tracks', maxAge) && Numbered(tracks', next)
  {
    Rearranged(frames, tracks, tracks', maxAge);
    assert forall t :: t in tracks' <==> t in multiset(tracks');
    assert forall t :: t in tracks <==> t in multiset(tracks);
  }

  lemma {:induction false} ReplaceFrame(frames: seq<Frame>, k: nat, entries: seq<Entry>)
    requires k < |frames| && Increasing(frames)
    ensures frames[k := Frame(frames[k].index, entries)][..k + 1] == frames[..k] + [Frame(frames[k].index, entries)]
    ensures Increasing(frames[k := Frame(frames[k].index, entries)])
  {
  }

  lemma {:induction false} PrefixIncreasing(frames: seq<Frame>, k: nat)
    requires Increasing(frames) && k < |frames|
    ensures Increasing(frames[..k] + [Frame(frames[k].index, frames[k].entries)])
  {
    assert frames[..k] + [frames[k]] == frames[..k + 1];
  }

  lemma {:induction false} ClearNames(entries0: seq<Entry>, entries: seq<Entry>, matched: set<nat>, high: seq<nat>, highConfidence: real)
    requires SamePersons(entries0, entries)
    requires forall i: nat | i < |entries0| && entries0[i].Detected? && entries0[i].person.score >= highConfidence :: i in matched
    requires forall i | i in matched :: i < |entries| && entries[i].Detected? && entries[i].person.trackId.Some?
    ensures AllNamed(ClearRest(entries, matched), highConfidence)
  {
    forall i | 0 <= i < |entries| && ClearRest(entries, matched)[i].Detected? && ClearRest(entries, matched)[i].person.score >= highConfidence
      ensures ClearRest(entries, matched)[i].person.trackId.Some?
    {
      assert SamePerson(entries0[i], entries[i]);
    }
  }
}
