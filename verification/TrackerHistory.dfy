/** The history of a tracker's run: the frames' outcomes and the tracks between them. */
module TrackerHistory {
  import opened Options
  import opened Orders
  import opened Sums
  import opened Matchings
  import opened Hungarian
  import opened ExactAssignment
  import opened Tracks
  import opened Fragments
  import opened FragmentMerge
  import opened TrackerFrame
  import opened FrameOutcome

  /** The tracks between two frames. */
  datatype Snapshot = Snapshot(active: seq<Track>, finished: seq<Track>, next: nat)

  /** The tracks at some positions, in order: those seen within `maxAge` frames, or the others. */
  ghost predicate Keeps(tracks: seq<Track>, index: int, maxAge: int, tooOld: bool, kept: seq<Track>) {
    exists positions :: KeepsAt(tracks, index, maxAge, tooOld, kept, positions)
  }

  ghost predicate KeepsAt(tracks: seq<Track>, index: int, maxAge: int, tooOld: bool, kept: seq<Track>, positions: seq<nat>) {
    && Ascends(positions) && (forall p | p in positions :: p < |tracks|) && kept == TracksAt(tracks, positions)
    && forall p: nat | p < |tracks| :: p in positions <==> (index - tracks[p].lastFrame > maxAge) == tooOld
  }

  /** One frame, and the tracks before and after it: tracks unseen for too long are finished. */
  ghost predicate Processed(r: Rules, before: Snapshot, frame: Frame, frame': Frame, after: Snapshot) {
    exists active, gone :: ProcessedBy(r, before, frame, frame', after, active, gone)
  }

  ghost predicate ProcessedBy(r: Rules, before: Snapshot, frame: Frame, frame': Frame, after: Snapshot, active: seq<Track>, gone: seq<Track>) {
    && FrameDone(r, before.active, before.next, frame.index, frame.entries, active, after.next, frame'.entries)
    && Keeps(active, frame.index, r.maxAge, false, after.active)
    && Keeps(active, frame.index, r.maxAge, true, gone) && after.finished == before.finished + gone
  }

  ghost predicate ProcessedAt(r: Rules, frames: seq<Frame>, mid: seq<Frame>, history: seq<Snapshot>, k: nat) {
    k < |frames| && k < |mid| && k + 1 < |history| && Processed(r, history[k], frames[k], mid[k], history[k + 1])
  }

  ghost predicate HistoryUpTo(r: Rules, frames: seq<Frame>, mid: seq<Frame>, history: seq<Snapshot>, n: nat) {
    && |frames| == |mid| && n <= |frames| && |history| == n + 1
    && forall k: nat {:trigger ProcessedAt(r, frames, mid, history, k)} | k < n :: ProcessedAt(r, frames, mid, history, k)
  }

  /** Every frame was processed, one after another. */
  ghost predicate IsHistory(r: Rules, frames: seq<Frame>, mid: seq<Frame>, history: seq<Snapshot>) {
    HistoryUpTo(r, frames, mid, history, |frames|)
  }

  lemma {:induction false} HistoryStep(r: Rules, frames: seq<Frame>, before: seq<Frame>, after: seq<Frame>, history: seq<Snapshot>, k: nat, now: Snapshot)
    requires HistoryUpTo(r, frames, before, history, k) && k < |frames| && |after| == |before| && after == before[k := after[k]]
    requires Processed(r, history[k], frames[k], after[k], now)
    ensures HistoryUpTo(r, frames, after, history + [now], k + 1)
  {
    forall i: nat | i < k + 1 ensures ProcessedAt(r, frames, after, history + [now], i) {
      if i < k {
        assert ProcessedAt(r, frames, before, history, i);
      }
    }
  }

  lemma {:induction false} AgedKeeps(tracks: seq<Track>, index: int, maxAge: int, tooOld: bool)
    ensures Keeps(tracks, index, maxAge, tooOld, Aged(tracks, index, maxAge, tooOld))
  {
    if tracks == [] {
      KeepsNone(index, maxAge, tooOld);
    } else {
      var init, last := tracks[..|tracks| - 1], tracks[|tracks| - 1];
      AgedKeeps(init, index, maxAge, tooOld);
      AgedMore(init, last, tracks, index, maxAge, tooOld);
      KeepsOneMore(init, last, index, maxAge, tooOld, Aged(init, index, maxAge, tooOld));
    }
  }

  lemma {:induction false} AgedMore(init: seq<Track>, last: Track, tracks: seq<Track>, index: int, maxAge: int, tooOld: bool)
    requires tracks != [] && init == tracks[..|tracks| - 1] && last == tracks[|tracks| - 1]
    ensures tracks == init + [last]
    ensures Aged(tracks, index, maxAge, tooOld)
            == if (index - last.lastFrame > maxAge) == tooOld then Aged(init, index, maxAge, tooOld) + [last] else Aged(init, index, maxAge, tooOld)
  {
  }

  lemma {:induction false} KeepsNone(index: int, maxAge: int, tooOld: bool)
    ensures Keeps([], index, maxAge, tooOld, [])
  {
    assert KeepsAt([], index, maxAge, tooOld, [], []);
  }

  lemma {:induction false} KeepsOneMore(init: seq<Track>, last: Track, index: int, maxAge: int, tooOld: bool, kept: seq<Track>)
    requires Keeps(init, index, maxAge, tooOld, kept)
    ensures Keeps(init + [last], index, maxAge, tooOld, if (index - last.lastFrame > maxAge) == tooOld then kept + [last] else kept)
  {
    var (tracks, n) := (init + [last], |init|);
    var positions :| KeepsAt(init, index, maxAge, tooOld, kept, positions);
    assert forall k | 0 <= k < |positions| :: positions[k] in positions;
    assert TracksAt(tracks, positions) == kept;
    if (index - last.lastFrame > maxAge) == tooOld {
      assert TracksAt(tracks, positions + [n]) == kept + [last];
      assert KeepsAt(tracks, index, maxAge, tooOld, kept + [last], positions + [n]);
    } else {
      assert KeepsAt(tracks, index, maxAge, tooOld, kept, positions);
    }
  }

  lemma {:induction false} AgedIsProcessed(r: Rules, before: Snapshot, frame: Frame, entries: seq<Entry>, active: seq<Track>, after: Snapshot)
    requires FrameDone(r, before.active, before.next, frame.index, frame.entries, active, after.next, entries)
    requires after.active == Aged(active, frame.index, r.maxAge, false) && after.finished == before.finished + Aged(active, frame.index, r.maxAge, true)
    ensures Processed(r, before, frame, Frame(frame.index, entries), after)
  {
    AgedKeeps(active, frame.index, r.maxAge, false);
    AgedKeeps(active, frame.index, r.maxAge, true);
    assert ProcessedBy(r, before, frame, Frame(frame.index, entries), after, active, Aged(active, frame.index, r.maxAge, true));
  }

  // ----- every track begins with a confident person

  ghost predicate BeginsConfident(r: Rules, t: Track) {
    t.observations != [] && t.observations[0].score >= r.highConfidence
  }

  ghost predicate AllBeginConfident(r: Rules, tracks: seq<Track>) {
    forall t | t in tracks :: BeginsConfident(r, t)
  }

  lemma {:induction false} FrameBegins(r: Rules, before: seq<Track>, next: nat, index: int, entries: seq<Entry>, active: seq<Track>, next': nat, entries': seq<Entry>)
    requires TracksMove(r, before, next, index, entries, active, next', entries') && AllBeginConfident(r, before)
    ensures AllBeginConfident(r, active)
  {
    var news :| Opened(r, before, next, index, entries, active, next', entries', news);
    forall p: nat | p < |active| ensures BeginsConfident(r, active[p]) {
      if p < |before| {
        assert Moves(before, index, entries, active, entries', p) && before[p] in before;
      } else {
        var k := p - |before|;
        assert news[k] in news && Confident(r, entries[news[k]]);
        assert active[|before| + k] == Open(TrackName(next + k), index, entries[news[k]].person);
      }
    }
  }

  lemma {:induction false} KeptBegins(r: Rules, tracks: seq<Track>, index: int, maxAge: int, tooOld: bool, kept: seq<Track>)
    requires Keeps(tracks, index, maxAge, tooOld, kept) && AllBeginConfident(r, tracks)
    ensures AllBeginConfident(r, kept)
  {
    var positions :| KeepsAt(tracks, index, maxAge, tooOld, kept, positions);
    forall j | 0 <= j < |kept| ensures BeginsConfident(r, kept[j]) {
      assert positions[j] in positions && kept[j] == tracks[positions[j]];
    }
  }

  lemma {:induction false} StepBegins(r: Rules, before: Snapshot, frame: Frame, frame': Frame, after: Snapshot)
    requires Processed(r, before, frame, frame', after) && AllBeginConfident(r, before.active + before.finished)
    ensures AllBeginConfident(r, after.active + after.finished)
  {
    var active, gone :| ProcessedBy(r, before, frame, frame', after, active, gone);
    FrameBegins(r, before.active, before.next, frame.index, frame.entries, active, after.next, frame'.entries);
    KeptBegins(r, active, frame.index, r.maxAge, false, after.active);
    KeptBegins(r, active, frame.index, r.maxAge, true, gone);
  }

  /** A frame of a history and what it was processed to. */
  lemma {:induction false} StepOf(r: Rules, frames: seq<Frame>, mid: seq<Frame>, history: seq<Snapshot>, n: nat, k: nat)
    requires HistoryUpTo(r, frames, mid, history, n) && k < n
    ensures Processed(r, history[k], frames[k], mid[k], history[k + 1])
  {
    assert ProcessedAt(r, frames, mid, history, k);
  }

  lemma {:induction false} StepOfBegins(r: Rules, frames: seq<Frame>, mid: seq<Frame>, history: seq<Snapshot>, n: nat, k: nat)
    requires HistoryUpTo(r, frames, mid, history, n) && k < n && AllBeginConfident(r, history[k].active + history[k].finished)
    ensures AllBeginConfident(r, history[k + 1].active + history[k + 1].finished)
  {
    StepOf(r, frames, mid, history, n, k);
    StepBegins(r, history[k], frames[k], mid[k], history[k + 1]);
  }

  /** Over every run: each track at each time began with a confident person. */
  lemma {:induction false} HistoryBegins(r: Rules, frames: seq<Frame>, mid: seq<Frame>, history: seq<Snapshot>, n: nat, k: nat)
    requires HistoryUpTo(r, frames, mid, history, n) && k <= n && history[0].active == [] && history[0].finished == []
    ensures AllBeginConfident(r, history[k].active + history[k].finished)
  {
    if k > 0 {
      HistoryBegins(r, frames, mid, history, n, k - 1);
      StepOfBegins(r, frames, mid, history, n, k - 1);
    }
  }

  // ----- persons below both thresholds

  /** No person below both thresholds has an id. */
  ghost predicate FaintUnnamed(r: Rules, entries: seq<Entry>) {
    forall i | 0 <= i < |entries| && entries[i].Detected? && entries[i].person.score < r.highConfidence && entries[i].person.score < r.lowConfidence ::
      entries[i].person.trackId.None?
  }

  lemma {:induction false} OutcomeFaint(r: Rules, before: seq<Track>, next: nat, index: int, entries: seq<Entry>, active: seq<Track>, next': nat, entries': seq<Entry>)
    requires FrameDone(r, before, next, index, entries, active, next', entries')
    ensures FaintUnnamed(r, entries')
  {
    forall i | 0 <= i < |entries'| && entries'[i].Detected? && entries'[i].person.score < r.highConfidence && entries'[i].person.score < r.lowConfidence
      ensures entries'[i].person.trackId.None?
    {
      assert Outcome(r, before, next, index, entries[i], next', entries'[i]);
    }
  }

  /** Over every run: persons below both thresholds end without an id, before the merge and after. */
  lemma {:induction false} FaintStayUnnamed(r: Rules, frames: seq<Frame>, mid: seq<Frame>, history: seq<Snapshot>, names: Names, last: seq<Frame>, f: nat)
    requires IsHistory(r, frames, mid, history) && Renamed(names, mid, last) && f < |mid|
    ensures FaintUnnamed(r, mid[f].entries) && FaintUnnamed(r, last[f].entries)
  {
    StepOf(r, frames, mid, history, |frames|, f);
    var active, gone :| ProcessedBy(r, history[f], frames[f], mid[f], history[f + 1], active, gone);
    OutcomeFaint(r, history[f].active, history[f].next, frames[f].index, frames[f].entries, active, history[f + 1].next, mid[f].entries);
    assert RenamedFrame(names, mid[f], last[f]);
    forall i | 0 <= i < |last[f].entries| ensures RenamedEntry(names, mid[f].entries[i], last[f].entries[i]) {
    }
  }

  // ----- no match is missed

  lemma {:induction false} MoreIsMatching(scores: Scores, pairs: seq<Cell>, c: Cell) returns (more: seq<Cell>)
    requires IsMatching(scores, pairs) && c in scores && forall k | 0 <= k < |pairs| :: pairs[k].0 != c.0 && pairs[k].1 != c.1
    ensures IsMatching(scores, more) && |more| == |pairs| + 1 && TotalScore(scores, more) == TotalScore(scores, pairs) + scores[c]
  {
    TotalScoreAppend(scores, pairs, c);
    more := SortCells(pairs + [c]);
    SortedIsMatching(scores, pairs + [c]);
    SortCellsSorts(scores, pairs + [c]);
    assert |multiset(more)| == |multiset(pairs + [c])|;
  }

  /** Neither solver leaves a track and a person free that could be paired. */
  lemma {:induction false} SolvedIsMaximal(scores: Scores, tracks: nat, persons: nat, maxExactSize: int, pairs: seq<Cell>, c: Cell)
    requires Solves(scores, tracks, persons, maxExactSize, pairs) && forall k | 0 <= k < |pairs| :: pairs[k].0 != c.0 && pairs[k].1 != c.1
    ensures c !in scores
  {
    if c in scores {
      var more := MoreIsMatching(scores, pairs, c);
      if tracks <= maxExactSize && persons <= maxExactSize {
        BetterTotal(PlanOf(scores, more), PlanOf(scores, pairs));
      }
    }
  }

  /** A track and a person free after a matching do not reach its threshold. */
  lemma {:induction false} NothingMissed(r: Rules, before: seq<Track>, index: int, entries: seq<Entry>, entries': seq<Entry>, least: int, state: string,
                                         positions: seq<nat>, detections: seq<nat>, p: nat, i: nat)
    requires Matched(r, before, index, entries, entries', least, state, positions, detections) && p in positions && i in detections
    requires forall j: nat | j < |entries| :: !TakenBy(before, p, entries[j], state, entries'[j])
    requires forall q: nat | q < |before| :: !TakenBy(before, q, entries[i], state, entries'[i])
    ensures r.scorer(before[p], entries[i].person, index) < least
  {
    var pairs: seq<Cell> :| Matches(r, TracksAt(before, positions), PersonsAt(entries, detections), index, least, pairs)
                            && CarriedOut(before, entries, entries', state, positions, detections, pairs);
    MatchesInRange(r, TracksAt(before, positions), PersonsAt(entries, detections), index, least, pairs);
    forall q: nat, j: nat | (q == p || j == i) && Paired(positions, detections, pairs, q, j) ensures false {
      PairTaken(before, entries, entries', state, positions, detections, pairs, q, j);
    }
    FreePair(r, before, index, entries, least, positions, detections, pairs, p, i);
  }

  lemma {:induction false} FreePair(r: Rules, before: seq<Track>, index: int, entries: seq<Entry>, least: int,
                                    positions: seq<nat>, detections: seq<nat>, pairs: seq<Cell>, p: nat, i: nat)
    requires (forall q | q in positions :: q < |before|) && (forall j | j in detections :: j < |entries| && entries[j].Detected?)
    requires Matches(r, TracksAt(before, positions), PersonsAt(entries, detections), index, least, pairs) && p in positions && i in detections
    requires forall k | 0 <= k < |pairs| :: pairs[k].0 < |positions| && pairs[k].1 < |detections|
    requires forall q: nat, j: nat | q == p || j == i :: !Paired(positions, detections, pairs, q, j)
    ensures r.scorer(before[p], entries[i].person, index) < least
  {
    var a: nat :| a < |positions| && positions[a] == p;
    var b: nat :| b < |detections| && detections[b] == i;
    forall k | 0 <= k < |pairs| ensures pairs[k].0 != a && pairs[k].1 != b {
      assert Paired(positions, detections, pairs, positions[pairs[k].0], detections[pairs[k].1]);
    }
    FreeScore(r, TracksAt(before, positions), PersonsAt(entries, detections), index, least, pairs, a, b);
  }

  lemma {:induction false} FreeScore(r: Rules, tracks: seq<Track>, persons: seq<Person>, index: int, least: int, pairs: seq<Cell>, a: nat, b: nat)
    requires Matches(r, tracks, persons, index, least, pairs) && a < |tracks| && b < |persons|
    requires forall k | 0 <= k < |pairs| :: pairs[k].0 != a && pairs[k].1 != b
    ensures r.scorer(tracks[a], persons[b], index) < least
  {
    var scores: Scores :| IsScoreTable(r.scorer, tracks, persons, index, least, scores) && Solves(scores, |tracks|, |persons|, r.maxExactSize, pairs);
    SolvedIsMaximal(scores, |tracks|, |persons|, r.maxExactSize, pairs, (a, b));
  }

  lemma {:induction false} PairTaken(before: seq<Track>, entries: seq<Entry>, entries': seq<Entry>, state: string,
                                     positions: seq<nat>, detections: seq<nat>, pairs: seq<Cell>, p: nat, i: nat)
    requires |entries'| == |entries| && CarriedOut(before, entries, entries', state, positions, detections, pairs)
    requires Paired(positions, detections, pairs, p, i) && (forall q | q in positions :: q < |before|) && (forall j | j in detections :: j < |entries|)
    ensures p < |before| && i < |entries| && TakenBy(before, p, entries[i], state, entries'[i])
  {
    PairedGives(positions, detections, pairs, p, i);
  }

  /** A confident person opens a track only when no recent track that is left over scores enough. */
  lemma {:induction false} NewOnlyWithoutMatch(r: Rules, before: seq<Track>, next: nat, index: int, entries: seq<Entry>, active: seq<Track>, next': nat, entries': seq<Entry>,
                                               p: nat, i: nat)
    requires FrameDone(r, before, next, index, entries, active, next', entries')
    requires i < |entries| && Confident(r, entries[i]) && OpensTrack(next, next', entries[i], entries'[i])
    requires RecentAt(r, before, index, p) && forall j: nat | j < |entries| :: !TakenBy(before, p, entries[j], "tracked", entries'[j])
    ensures r.scorer(before[p], entries[i].person, index) < r.minMatchScore
  {
    var positions, detections :|
      && ListsRecent(r, before, index, positions) && ListsConfident(r, entries, detections)
      && Matched(r, before, index, entries, entries', r.minMatchScore, "tracked", positions, detections);
    assert "new"[0] != "tracked"[0];
    NothingMissed(r, before, index, entries, entries', r.minMatchScore, "tracked", positions, detections, p, i);
  }

  /** A doubtful person stays without an id only when no track that is left over scores enough. */
  lemma {:induction false} UnnamedOnlyWithoutMatch(r: Rules, before: seq<Track>, next: nat, index: int, entries: seq<Entry>, active: seq<Track>, next': nat, entries': seq<Entry>,
                                                   p: nat, i: nat)
    requires FrameDone(r, before, next, index, entries, active, next', entries')
    requires i < |entries| && Doubtful(r, entries[i]) && entries'[i].Detected? && entries'[i].person.trackId.None?
    requires RecentAt(r, before, index, p) && !Mentions(r, entries, entries', before[p].id)
    requires forall j: nat | j < |entries| :: !TakenBy(before, p, entries[j], "recovered_low_confidence", entries'[j])
    ensures r.scorer(before[p], entries[i].person, index) < 180_000 || r.scorer(before[p], entries[i].person, index) < r.minMatchScore - 80_000
  {
    var positions, detections :|
      && ListsRemaining(r, before, index, entries, entries', positions) && ListsDoubtful(r, entries, detections)
      && Matched(r, before, index, entries, entries', IntMax(180_000, r.minMatchScore - 80_000), "recovered_low_confidence", positions, detections);
    NothingMissed(r, before, index, entries, entries', IntMax(180_000, r.minMatchScore - 80_000), "recovered_low_confidence", positions, detections, p, i);
  }
}
