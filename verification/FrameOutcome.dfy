/** What a frame of the tracker must do to its persons and tracks, told from scores, thresholds and
    ids alone. */
module FrameOutcome {
  import opened Options
  import opened Orders
  import opened Sums
  import opened Matchings
  import opened Tracks
  import opened Fragments
  import opened TrackerFrame

  // ----- persons

  predicate Confident(r: Rules, e: Entry) {
    e.Detected? && e.person.score >= r.highConfidence
  }

  predicate Doubtful(r: Rules, e: Entry) {
    e.Detected? && r.lowConfidence <= e.person.score < r.highConfidence
  }

  /** An active track that was seen recently enough. */
  predicate RecentAt(r: Rules, before: seq<Track>, index: int, p: nat) {
    p < |before| && index - before[p].lastFrame <= r.maxAge
  }

  /** The person has got this id and state, and is the same otherwise. */
  predicate Becomes(e: Entry, id: Option<string>, state: string, e': Entry) {
    e.Detected? && e' == Detected(e.person.(trackId := id, trackState := state))
  }

  predicate TakenBy(before: seq<Track>, p: nat, e: Entry, state: string, e': Entry) {
    p < |before| && Becomes(e, Some(before[p].id), state, e')
  }

  /** A recent track has taken the person, with at least this score. */
  ghost predicate TakenWell(r: Rules, before: seq<Track>, index: int, e: Entry, state: string, least: int, e': Entry)
    requires e.Detected?
  {
    exists p: nat :: RecentAt(r, before, index, p) && r.scorer(before[p], e.person, index) >= least && TakenBy(before, p, e, state, e')
  }

  ghost predicate OpensTrack(next: nat, next': nat, e: Entry, e': Entry) {
    exists n: nat :: next <= n < next' && Becomes(e, Some(TrackName(n)), "new", e')
  }

  /** A confident person is taken by a recent track or opens one; a doubtful person has an id only if
      a recent track took it, at a laxer threshold; any other person has none. */
  ghost predicate Outcome(r: Rules, before: seq<Track>, next: nat, index: int, e: Entry, next': nat, e': Entry) {
    if e.Foreign? then e' == e
    else if e.person.score >= r.highConfidence then
      TakenWell(r, before, index, e, "tracked", r.minMatchScore, e') || OpensTrack(next, next', e, e')
    else if e.person.score >= r.lowConfidence then
      || TakenWell(r, before, index, e, "recovered_low_confidence", IntMax(180_000, r.minMatchScore - 80_000), e')
      || Becomes(e, None, "unconfirmed_low_confidence", e')
    else Becomes(e, None, "unconfirmed_low_confidence", e')
  }

  // ----- matchings

  ghost predicate Ascends(s: seq<nat>) {
    forall i, j | 0 <= i < j < |s| :: s[i] < s[j]
  }

  /** Some pair gives track p the person i. */
  ghost predicate Paired(positions: seq<nat>, detections: seq<nat>, pairs: seq<Cell>, p: nat, i: nat) {
    exists k :: 0 <= k < |pairs| && pairs[k].0 < |positions| && pairs[k].1 < |detections| && positions[pairs[k].0] == p && detections[pairs[k].1] == i
  }

  /** The tracks at these positions have been matched with the persons at these: the pairs solve the
      assignment, and exactly they have been carried out. */
  ghost predicate Matched(r: Rules, before: seq<Track>, index: int, entries: seq<Entry>, entries': seq<Entry>, least: int, state: string,
                          positions: seq<nat>, detections: seq<nat>) {
    && |entries'| == |entries| && Ascends(positions) && Ascends(detections)
    && (forall p | p in positions :: p < |before|) && (forall i | i in detections :: i < |entries| && entries[i].Detected?)
    && exists pairs :: Matches(r, TracksAt(before, positions), PersonsAt(entries, detections), index, least, pairs)
                       && CarriedOut(before, entries, entries', state, positions, detections, pairs)
  }

  ghost predicate CarriedOut(before: seq<Track>, entries: seq<Entry>, entries': seq<Entry>, state: string,
                             positions: seq<nat>, detections: seq<nat>, pairs: seq<Cell>)
    requires |entries'| == |entries|
  {
    forall p: nat, i: nat | p < |before| && i < |entries| ::
      TakenBy(before, p, entries[i], state, entries'[i]) <==> Paired(positions, detections, pairs, p, i)
  }

  ghost predicate ListsRecent(r: Rules, before: seq<Track>, index: int, positions: seq<nat>) {
    forall p: nat :: p in positions <==> RecentAt(r, before, index, p)
  }

  ghost predicate ListsConfident(r: Rules, entries: seq<Entry>, detections: seq<nat>) {
    forall i: nat :: i in detections <==> i < |entries| && Confident(r, entries[i])
  }

  ghost predicate ListsDoubtful(r: Rules, entries: seq<Entry>, detections: seq<nat>) {
    forall i: nat :: i in detections <==> i < |entries| && Doubtful(r, entries[i])
  }

  /** Some entry carries the id after the first matching. */
  ghost predicate Mentions(r: Rules, entries: seq<Entry>, entries': seq<Entry>, id: string) {
    |entries'| == |entries| && exists i: nat :: i < |entries| && Carries(AfterFirst(entries[i], entries'[i]), id)
  }

  /** An entry after the first matching: as it came, unless a track took it. */
  function AfterFirst(e: Entry, e': Entry): Entry {
    if e'.Detected? && e'.person.trackState == "tracked" then e' else e
  }

  ghost predicate ListsRemaining(r: Rules, before: seq<Track>, index: int, entries: seq<Entry>, entries': seq<Entry>, positions: seq<nat>) {
    forall p: nat :: p in positions <==> RecentAt(r, before, index, p) && !Mentions(r, entries, entries', before[p].id)
  }

  /** The confident persons are matched with all recent tracks. */
  ghost predicate FirstMatched(r: Rules, before: seq<Track>, index: int, entries: seq<Entry>, entries': seq<Entry>) {
    exists positions, detections ::
      && ListsRecent(r, before, index, positions) && ListsConfident(r, entries, detections)
      && Matched(r, before, index, entries, entries', r.minMatchScore, "tracked", positions, detections)
  }

  /** The doubtful persons are matched with the recent tracks that no entry mentions then. */
  ghost predicate SecondMatched(r: Rules, before: seq<Track>, index: int, entries: seq<Entry>, entries': seq<Entry>) {
    exists positions, detections ::
      && ListsRemaining(r, before, index, entries, entries', positions) && ListsDoubtful(r, entries, detections)
      && Matched(r, before, index, entries, entries', IntMax(180_000, r.minMatchScore - 80_000), "recovered_low_confidence", positions, detections)
  }

  // ----- tracks

  /** A track has recorded the person that it took, or is as before. */
  ghost predicate Moves(before: seq<Track>, index: int, entries: seq<Entry>, active: seq<Track>, entries': seq<Entry>, p: nat)
    requires p < |before| <= |active| && |entries'| == |entries|
  {
    || (exists i: nat :: i < |entries| && entries[i].Detected? && entries'[i].Detected? && entries'[i].person.trackId == Some(before[p].id)
                         && active[p] == Updated(before[p], index, entries[i].person))
    || (active[p] == before[p] && forall i: nat | i < |entries| :: !Carries(entries'[i], before[p].id))
  }

  /** The confident persons without a track open new ones under the next numbers, in order. */
  ghost predicate Opened(r: Rules, before: seq<Track>, next: nat, index: int, entries: seq<Entry>,
                         active: seq<Track>, next': nat, entries': seq<Entry>, news: seq<nat>) {
    && Ascends(news) && |entries'| == |entries| && |active| == |before| + |news| && next' == next + |news|
    && (forall i: nat :: i in news <==> i < |entries| && Confident(r, entries[i]) && entries'[i].Detected? && entries'[i].person.trackState == "new")
    && forall k: nat | k < |news| ::
         && news[k] < |entries| && Becomes(entries[news[k]], Some(TrackName(next + k)), "new", entries'[news[k]])
         && active[|before| + k] == Open(TrackName(next + k), index, entries[news[k]].person)
  }

  ghost predicate TracksMove(r: Rules, before: seq<Track>, next: nat, index: int, entries: seq<Entry>, active: seq<Track>, next': nat, entries': seq<Entry>) {
    && |entries'| == |entries| && |before| <= |active|
    && (exists news :: Opened(r, before, next, index, entries, active, next', entries', news))
    && forall p: nat | p < |before| :: Moves(before, index, entries, active, entries', p)
  }

  /** The whole frame, up to the ageing of the tracks. */
  ghost predicate FrameDone(r: Rules, before: seq<Track>, next: nat, index: int, entries: seq<Entry>,
                            active: seq<Track>, next': nat, entries': seq<Entry>) {
    && |entries'| == |entries|
    && (forall i: nat | i < |entries| :: Outcome(r, before, next, index, entries[i], next', entries'[i]))
    && FirstMatched(r, before, index, entries, entries') && SecondMatched(r, before, index, entries, entries')
    && TracksMove(r, before, next, index, entries, active, next', entries')
  }

  // ----- lists of positions

  lemma {:induction false} SelectAscends(entries: seq<Entry>, keep: Person -> bool, n: nat)
    requires n <= |entries|
    ensures Ascends(Select(entries, keep, n))
  {
    if n > 0 {
      SelectAscends(entries, keep, n - 1);
      var init := Select(entries, keep, n - 1);
      assert forall k | 0 <= k < |init| :: init[k] in init;
    }
  }

  lemma {:induction false} SelectTracksAscends(tracks: seq<Track>, keep: Track -> bool, n: nat)
    requires n <= |tracks|
    ensures Ascends(SelectTracks(tracks, keep, n))
  {
    if n > 0 {
      SelectTracksAscends(tracks, keep, n - 1);
      var init := SelectTracks(tracks, keep, n - 1);
      assert forall k | 0 <= k < |init| :: init[k] in init;
    }
  }

  lemma {:induction false} WithoutAscends(s: seq<nat>, gone: set<nat>)
    requires Ascends(s)
    ensures Ascends(Without(s, gone))
  {
    if s != [] {
      var init := s[..|s| - 1];
      WithoutAscends(init, gone);
      forall k | 0 <= k < |Without(init, gone)| ensures Without(init, gone)[k] < s[|s| - 1] {
        assert Without(init, gone)[k] in Without(init, gone);
        var j :| 0 <= j < |init| && init[j] == Without(init, gone)[k];
      }
    }
  }

  lemma {:induction false} AscendsDistinct(s: seq<nat>)
    requires Ascends(s)
    ensures Distinct(s)
  {
  }

  // ----- opening

  /** What opening means: each listed person has opened a track under the next number, and nothing
      else has changed. */
  ghost predicate AllOpened(w: Scene, index: int, news: seq<nat>, w': Scene) {
    && |w'.entries| == |w.entries| && w'.next == w.next + |news| && |w'.active| == |w.active| + |news|
    && (forall i: nat :: i in w'.matched <==> i in w.matched || i in news)
    && (forall k: nat | k < |news| :: OpenedAt(w, index, news, w', k))
    && (forall i: nat | i < |w.entries| && i !in news :: w'.entries[i] == w.entries[i])
    && (forall p: nat | p < |w.active| :: w'.active[p] == w.active[p])
  }

  ghost predicate OpenedAt(w: Scene, index: int, news: seq<nat>, w': Scene, k: nat) {
    && k < |news| && news[k] < |w.entries| == |w'.entries| && w.entries[news[k]].Detected?
    && w'.entries[news[k]] == Name(w.entries[news[k]], TrackName(w.next + k), "new")
    && |w.active| + k < |w'.active| && w'.active[|w.active| + k] == Open(TrackName(w.next + k), index, w.entries[news[k]].person)
  }

  lemma {:induction false} OpenAllMeans(w: Scene, index: int, high: seq<nat>)
    requires Distinct(high) && forall i | i in high :: i < |w.entries| && w.entries[i].Detected?
    ensures AllOpened(w, index, Without(high, w.matched), OpenAll(w, index, high))
  {
    if high != [] {
      var init, last := high[..|high| - 1], high[|high| - 1];
      assert high == init + [last];
      OpenAllMeans(w, index, init);
      assert last !in init && last in high;
      OpenOneMore(w, index, Without(init, w.matched), OpenAll(w, index, init), last);
    }
  }

  lemma {:induction false} OpenOneMore(w: Scene, index: int, news: seq<nat>, before: Scene, i: nat)
    requires AllOpened(w, index, news, before) && i !in news && i < |w.entries| && w.entries[i].Detected?
    ensures AllOpened(w, index, if i in w.matched then news else news + [i], OpenFor(before, index, i))
  {
    if i !in w.matched {
      var more, after := news + [i], OpenFor(before, index, i);
      forall k: nat | k < |more| ensures OpenedAt(w, index, more, after, k) {
        if k < |news| {
          assert OpenedAt(w, index, news, before, k) && news[k] in news;
        }
      }
    }
  }

  // ----- giving

  /** A pair that was given: its track and its person, and the score that allowed it. */
  lemma {:induction false} GivenWell(r: Rules, w: Scene, index: int, positions: seq<nat>, detections: seq<nat>, pairs: seq<Cell>, least: int, state: string, w': Scene,
                                     i: nat) returns (p: nat)
    requires (forall q | q in positions :: q < |w.active|) && (forall j | j in detections :: j < |w.entries| && w.entries[j].Detected?)
    requires Matches(r, TracksAt(w.active, positions), PersonsAt(w.entries, detections), index, least, pairs)
    requires AllGiven(w, index, positions, detections, pairs, state, w') && GivenPerson(detections, pairs, i)
    ensures p in positions && i in detections && Paired(positions, detections, pairs, p, i) && i < |w'.entries|
    ensures r.scorer(w.active[p], w.entries[i].person, index) >= least
    ensures w'.entries[i] == Name(w.entries[i], w.active[p].id, state) && Took(w, index, p, i, state, w')
  {
    var k :| 0 <= k < |pairs| && pairs[k].1 < |detections| && detections[pairs[k].1] == i;
    assert Took(w, index, positions[pairs[k].0], detections[pairs[k].1], state, w');
    p := positions[pairs[k].0];
    var scores :| IsScoreTable(r.scorer, TracksAt(w.active, positions), PersonsAt(w.entries, detections), index, least, scores)
                  && Solves(scores, |positions|, |detections|, r.maxExactSize, pairs);
    assert pairs[k] in scores;
  }

  lemma {:induction false} MatchesInRange(r: Rules, tracks: seq<Track>, persons: seq<Person>, index: int, least: int, pairs: seq<Cell>)
    requires Matches(r, tracks, persons, index, least, pairs)
    ensures Independent(pairs) && forall k | 0 <= k < |pairs| :: pairs[k].0 < |tracks| && pairs[k].1 < |persons|
  {
    var scores :| IsScoreTable(r.scorer, tracks, persons, index, least, scores) && Solves(scores, |tracks|, |persons|, r.maxExactSize, pairs);
    forall k | 0 <= k < |pairs| ensures pairs[k].0 < |tracks| && pairs[k].1 < |persons| {
      assert pairs[k] in scores;
    }
  }

  lemma {:induction false} MatchesFit(r: Rules, w: Scene, index: int, positions: seq<nat>, detections: seq<nat>, pairs: seq<Cell>, least: int)
    requires (forall q | q in positions :: q < |w.active|) && (forall j | j in detections :: j < |w.entries| && w.entries[j].Detected?)
    requires Matches(r, TracksAt(w.active, positions), PersonsAt(w.entries, detections), index, least, pairs)
    requires Ascends(positions) && Ascends(detections)
    ensures Fitting(w, positions, detections, pairs)
  {
    MatchesInRange(r, TracksAt(w.active, positions), PersonsAt(w.entries, detections), index, least, pairs);
    AscendsDistinct(positions);
    AscendsDistinct(detections);
    assert forall k | 0 <= k < |positions| :: positions[k] in positions;
    assert forall k | 0 <= k < |detections| :: detections[k] in detections;
  }

  lemma {:induction false} PairedGives(positions: seq<nat>, detections: seq<nat>, pairs: seq<Cell>, p: nat, i: nat)
    requires Paired(positions, detections, pairs, p, i)
    ensures GivenTrack(positions, pairs, p) && GivenPerson(detections, pairs, i) && p in positions && i in detections
  {
    var k :| 0 <= k < |pairs| && pairs[k].0 < |positions| && pairs[k].1 < |detections| && positions[pairs[k].0] == p && detections[pairs[k].1] == i;
  }

  // ----- the phases of a frame, one after another

  /** The scenes between the phases of a frame. */
  datatype Play = Play(start: Scene, high: seq<nat>, recent: seq<nat>, pairs: seq<Cell>, named: Scene,
                       rest: seq<nat>, remaining: seq<nat>, pairs2: seq<Cell>, recovered: Scene, done: Scene)

  ghost predicate FirstPlayed(r: Rules, index: int, y: Play) {
    && Ascends(y.recent) && Ascends(y.high) && ListsRecent(r, y.start.active, index, y.recent) && ListsConfident(r, y.start.entries, y.high)
    && y.start.matched == {}
    && Matches(r, TracksAt(y.start.active, y.recent), PersonsAt(y.start.entries, y.high), index, r.minMatchScore, y.pairs)
    && AllGiven(y.start, index, y.recent, y.high, y.pairs, "tracked", y.named)
  }

  ghost predicate SecondPlayed(r: Rules, index: int, y: Play) {
    && Ascends(y.remaining) && Ascends(y.rest)
    && (forall p: nat :: p in y.remaining <==> RecentAt(r, y.named.active, index, p) && y.named.active[p].id !in Mentioned(y.named.entries))
    && (forall i: nat :: i in y.rest <==> i < |y.start.entries| && Doubtful(r, y.start.entries[i]) && i !in y.named.matched)
    && (forall i | i in y.rest :: i < |y.named.entries| && y.named.entries[i].Detected?)
    && Matches(r, TracksAt(y.named.active, y.remaining), PersonsAt(y.named.entries, y.rest), index, IntMax(180_000, r.minMatchScore - 80_000), y.pairs2)
    && AllGiven(y.named, index, y.remaining, y.rest, y.pairs2, "recovered_low_confidence", y.recovered)
  }

  ghost predicate ThirdPlayed(index: int, y: Play) {
    AllOpened(y.recovered, index, Without(y.high, y.recovered.matched), y.done)
  }

  ghost predicate Played(r: Rules, index: int, y: Play) {
    FirstPlayed(r, index, y) && SecondPlayed(r, index, y) && ThirdPlayed(index, y)
  }

  /** What happened to one entry: it was given in one of the matchings, or opened a track, or was left. */
  ghost predicate Story(r: Rules, y: Play, i: nat, e': Entry) {
    && i < |y.start.entries| == |y.named.entries| == |y.recovered.entries| == |y.done.entries|
    && var (e, given, given2) := (y.start.entries[i], GivenPerson(y.high, y.pairs, i), GivenPerson(y.rest, y.pairs2, i));
       && (given ==> Confident(r, e) && e' == y.named.entries[i])
       && (!given ==> y.named.entries[i] == e)
       && (given2 ==> Doubtful(r, e) && e' == y.recovered.entries[i])
       && (Confident(r, e) && !given ==> i in Without(y.high, y.recovered.matched) && y.recovered.entries[i] == e && e' == y.done.entries[i])
       && (i in Without(y.high, y.recovered.matched) ==> Confident(r, e) && !given && e' == y.done.entries[i])
       && (e.Foreign? ==> e' == e)
       && (e.Detected? && !Confident(r, e) && !given2 ==> Becomes(e, None, "unconfirmed_low_confidence", e'))
  }

  lemma {:induction false} EntryStory(r: Rules, index: int, y: Play, i: nat)
    requires Played(r, index, y) && i < |y.start.entries|
    ensures |ClearRest(y.done.entries, y.done.matched)| == |y.start.entries|
    ensures Story(r, y, i, ClearRest(y.done.entries, y.done.matched)[i])
  {
    var (given, given2) := (GivenPerson(y.high, y.pairs, i), GivenPerson(y.rest, y.pairs2, i));
    if given {
      GivenListed(y.high, y.pairs, i);
    }
    if given2 {
      GivenListed(y.rest, y.pairs2, i);
    }
  }

  lemma {:induction false} GivenListed(detections: seq<nat>, pairs: seq<Cell>, i: nat)
    requires GivenPerson(detections, pairs, i)
    ensures i in detections
  {
  }

  /** A track that took a person in the first matching is mentioned afterwards. */
  lemma {:induction false} GivenIsMentioned(r: Rules, index: int, y: Play, p: nat)
    requires FirstPlayed(r, index, y) && GivenTrack(y.recent, y.pairs, p)
    ensures p < |y.start.active| == |y.named.active| && y.named.active[p].id == y.start.active[p].id && y.named.active[p].id in Mentioned(y.named.entries)
  {
    var k :| 0 <= k < |y.pairs| && y.pairs[k].0 < |y.recent| && y.recent[y.pairs[k].0] == p;
    var i := y.high[y.pairs[k].1];
    assert Took(y.start, index, p, i, "tracked", y.named);
    assert y.named.entries[i].person.trackId.value == y.start.active[p].id;
  }

  /** The tracks that remain and the doubtful persons left are as they were before the frame. */
  lemma {:induction false} RemainingUntouched(r: Rules, index: int, y: Play, p: nat)
    requires FirstPlayed(r, index, y) && p in y.remaining && SecondPlayed(r, index, y)
    ensures p < |y.start.active| == |y.named.active| && y.named.active[p] == y.start.active[p] && RecentAt(r, y.start.active, index, p)
  {
    if GivenTrack(y.recent, y.pairs, p) {
      GivenIsMentioned(r, index, y, p);
    }
  }

  lemma {:induction false} RestUntouched(r: Rules, index: int, y: Play, i: nat)
    requires FirstPlayed(r, index, y) && SecondPlayed(r, index, y) && i in y.rest
    ensures i < |y.start.entries| == |y.named.entries| && y.named.entries[i] == y.start.entries[i] && !GivenPerson(y.high, y.pairs, i)
  {
  }

  /** The second matching is about tracks and persons as they were before the frame. */
  lemma {:induction false} SecondTable(r: Rules, index: int, y: Play)
    requires FirstPlayed(r, index, y) && SecondPlayed(r, index, y)
    ensures forall p | p in y.remaining :: p < |y.start.active|
    ensures forall i | i in y.rest :: i < |y.start.entries| && y.start.entries[i].Detected?
    ensures TracksAt(y.named.active, y.remaining) == TracksAt(y.start.active, y.remaining)
    ensures PersonsAt(y.named.entries, y.rest) == PersonsAt(y.start.entries, y.rest)
  {
    forall p | p in y.remaining ensures p < |y.start.active| && y.named.active[p] == y.start.active[p] {
      RemainingUntouched(r, index, y, p);
    }
    forall i | i in y.rest ensures i < |y.start.entries| && y.named.entries[i] == y.start.entries[i] {
      RestUntouched(r, index, y, i);
    }
    assert forall k | 0 <= k < |y.remaining| :: y.remaining[k] in y.remaining;
    assert forall k | 0 <= k < |y.rest| :: y.rest[k] in y.rest;
  }

  // ----- the fate of each person

  /** A pair of the matching gave the person to a recent track, with a sufficient score. */
  ghost predicate TakenAs(r: Rules, before: seq<Track>, index: int, positions: seq<nat>, detections: seq<nat>, pairs: seq<Cell>,
                          least: int, state: string, i: nat, e: Entry, e': Entry) {
    e.Detected? && exists p: nat :: Paired(positions, detections, pairs, p, i) && RecentAt(r, before, index, p)
                                    && r.scorer(before[p], e.person, index) >= least && TakenBy(before, p, e, state, e')
  }

  ghost predicate OpenedAs(next: nat, news: seq<nat>, i: nat, e: Entry, e': Entry) {
    exists k: nat :: k < |news| && news[k] == i && Becomes(e, Some(TrackName(next + k)), "new", e')
  }

  function News(y: Play): seq<nat> {
    Without(y.high, y.recovered.matched)
  }

  /** What became of person i. */
  ghost predicate Fate(r: Rules, index: int, y: Play, i: nat, e': Entry) {
    && i < |y.start.entries| == |y.named.entries|
    && var e := y.start.entries[i];
       if GivenPerson(y.high, y.pairs, i) then
         && Confident(r, e) && !GivenPerson(y.rest, y.pairs2, i) && i !in News(y) && y.named.entries[i] == e'
         && TakenAs(r, y.start.active, index, y.recent, y.high, y.pairs, r.minMatchScore, "tracked", i, e, e')
       else if GivenPerson(y.rest, y.pairs2, i) then
         && Doubtful(r, e) && i !in News(y) && y.named.entries[i] == e
         && TakenAs(r, y.start.active, index, y.remaining, y.rest, y.pairs2, IntMax(180_000, r.minMatchScore - 80_000), "recovered_low_confidence", i, e, e')
       else if Confident(r, e) then
         i in News(y) && y.named.entries[i] == e && OpenedAs(y.start.next, News(y), i, e, e')
       else
         i !in News(y) && y.named.entries[i] == e && if e.Foreign? then e' == e else Becomes(e, None, "unconfirmed_low_confidence", e')
  }

  lemma {:induction false} GivenFate(r: Rules, index: int, y: Play, i: nat)
    requires FirstPlayed(r, index, y) && GivenPerson(y.high, y.pairs, i)
    ensures i < |y.start.entries| == |y.named.entries|
    ensures TakenAs(r, y.start.active, index, y.recent, y.high, y.pairs, r.minMatchScore, "tracked", i, y.start.entries[i], y.named.entries[i])
  {
    var p := GivenWell(r, y.start, index, y.recent, y.high, y.pairs, r.minMatchScore, "tracked", y.named, i);
    assert RecentAt(r, y.start.active, index, p) && TakenBy(y.start.active, p, y.start.entries[i], "tracked", y.named.entries[i]);
  }

  lemma {:induction false} RecoveredFate(r: Rules, index: int, y: Play, i: nat, least: int)
    requires FirstPlayed(r, index, y) && SecondPlayed(r, index, y) && GivenPerson(y.rest, y.pairs2, i) && least == IntMax(180_000, r.minMatchScore - 80_000)
    ensures i < |y.start.entries| == |y.recovered.entries|
    ensures TakenAs(r, y.start.active, index, y.remaining, y.rest, y.pairs2, least, "recovered_low_confidence", i, y.start.entries[i], y.recovered.entries[i])
  {
    var p := GivenWell(r, y.named, index, y.remaining, y.rest, y.pairs2, least, "recovered_low_confidence", y.recovered, i);
    RemainingUntouched(r, index, y, p);
    RestUntouched(r, index, y, i);
    assert TakenBy(y.start.active, p, y.start.entries[i], "recovered_low_confidence", y.recovered.entries[i]);
  }

  lemma {:induction false} NothingOpenedYet(r: Rules, index: int, y: Play)
    requires Played(r, index, y)
    ensures y.recovered.next == y.start.next && |y.recovered.active| == |y.start.active|
    ensures y.done.next == y.start.next + |News(y)| && |y.done.active| == |y.start.active| + |News(y)|
  {
  }

  lemma {:induction false} OpenedShows(w: Scene, index: int, news: seq<nat>, w': Scene, k: nat, e: Entry)
    requires OpenedAt(w, index, news, w', k) && e == w.entries[news[k]]
    ensures Becomes(e, Some(TrackName(w.next + k)), "new", w'.entries[news[k]])
    ensures |w.active| + k < |w'.active| && w'.active[|w.active| + k] == Open(TrackName(w.next + k), index, e.person)
  {
  }

  lemma {:induction false} NewFate(index: int, y: Play, news: seq<nat>, i: nat, e: Entry, next: nat)
    requires AllOpened(y.recovered, index, news, y.done) && i in news && i < |y.recovered.entries| && e == y.recovered.entries[i] && next == y.recovered.next
    ensures i < |y.done.entries| && OpenedAs(next, news, i, e, y.done.entries[i])
  {
    var k :| 0 <= k < |news| && news[k] == i;
    assert OpenedAt(y.recovered, index, news, y.done, k);
    OpenedShows(y.recovered, index, news, y.done, k, e);
  }

  lemma {:induction false} FateOf(r: Rules, index: int, y: Play, i: nat, e': Entry)
    requires Played(r, index, y) && Story(r, y, i, e')
    ensures Fate(r, index, y, i, e')
  {
    if GivenPerson(y.high, y.pairs, i) {
      GivenFate(r, index, y, i);
    } else if GivenPerson(y.rest, y.pairs2, i) {
      RecoveredFate(r, index, y, i, IntMax(180_000, r.minMatchScore - 80_000));
    } else if Confident(r, y.start.entries[i]) {
      NothingOpenedYet(r, index, y);
      NewFate(index, y, News(y), i, y.start.entries[i], y.start.next);
    }
  }

  ghost predicate Fates(r: Rules, index: int, y: Play, entries': seq<Entry>) {
    |entries'| == |y.start.entries| && forall i: nat | i < |entries'| :: Fate(r, index, y, i, entries'[i])
  }

  lemma {:induction false} TakenAsWell(r: Rules, before: seq<Track>, index: int, positions: seq<nat>, detections: seq<nat>, pairs: seq<Cell>,
                                       least: int, state: string, i: nat, e: Entry, e': Entry)
    requires TakenAs(r, before, index, positions, detections, pairs, least, state, i, e, e')
    ensures TakenWell(r, before, index, e, state, least, e') && e'.Detected? && e'.person.trackState == state
  {
  }

  lemma {:induction false} OpenedAsNew(next: nat, news: seq<nat>, i: nat, e: Entry, e': Entry)
    requires OpenedAs(next, news, i, e, e')
    ensures OpensTrack(next, next + |news|, e, e') && e'.Detected? && e'.person.trackState == "new"
  {
    var k: nat :| k < |news| && news[k] == i && Becomes(e, Some(TrackName(next + k)), "new", e');
  }

  lemma {:induction false} EntryOutcome(r: Rules, index: int, y: Play, i: nat, e': Entry, next': nat)
    requires Fate(r, index, y, i, e') && next' == y.start.next + |News(y)|
    ensures Outcome(r, y.start.active, y.start.next, index, y.start.entries[i], next', e')
  {
    var e := y.start.entries[i];
    if GivenPerson(y.high, y.pairs, i) {
      TakenAsWell(r, y.start.active, index, y.recent, y.high, y.pairs, r.minMatchScore, "tracked", i, e, e');
    } else if GivenPerson(y.rest, y.pairs2, i) {
      TakenAsWell(r, y.start.active, index, y.remaining, y.rest, y.pairs2, IntMax(180_000, r.minMatchScore - 80_000), "recovered_low_confidence", i, e, e');
    } else if Confident(r, e) {
      OpenedAsNew(y.start.next, News(y), i, e, e');
    }
  }

  /** The state of a person tells its fate. */
  lemma {:induction false} StateTells(r: Rules, index: int, y: Play, i: nat, e': Entry)
    requires Fate(r, index, y, i, e') && y.start.entries[i].Detected?
    ensures e'.Detected?
    ensures e'.person.trackState == "tracked" <==> GivenPerson(y.high, y.pairs, i)
    ensures e'.person.trackState == "recovered_low_confidence" <==> GivenPerson(y.rest, y.pairs2, i)
    ensures e'.person.trackState == "new" <==> i in News(y)
  {
    var e := y.start.entries[i];
    var (t, v, n, u) := ("tracked", "recovered_low_confidence", "new", "unconfirmed_low_confidence");
    assert t[0] == 't' && v[0] == 'r' && n[0] == 'n' && u[0] == 'u';
    if GivenPerson(y.high, y.pairs, i) {
      TakenAsWell(r, y.start.active, index, y.recent, y.high, y.pairs, r.minMatchScore, t, i, e, e');
    } else if GivenPerson(y.rest, y.pairs2, i) {
      TakenAsWell(r, y.start.active, index, y.remaining, y.rest, y.pairs2, IntMax(180_000, r.minMatchScore - 80_000), v, i, e, e');
    } else if Confident(r, e) {
      OpenedAsNew(y.start.next, News(y), i, e, e');
    }
  }

  // ----- the two matchings

  /** A person stands in one pair at most. */
  lemma {:induction false} PairedOnce(positions: seq<nat>, detections: seq<nat>, pairs: seq<Cell>, p: nat, q: nat, i: nat)
    requires Independent(pairs) && Ascends(detections) && Paired(positions, detections, pairs, p, i) && Paired(positions, detections, pairs, q, i)
    ensures p == q
  {
    var k :| 0 <= k < |pairs| && pairs[k].0 < |positions| && pairs[k].1 < |detections| && positions[pairs[k].0] == p && detections[pairs[k].1] == i;
    var m :| 0 <= m < |pairs| && pairs[m].0 < |positions| && pairs[m].1 < |detections| && positions[pairs[m].0] == q && detections[pairs[m].1] == i;
    AscendsDistinct(detections);
    assert pairs[k].1 == pairs[m].1;
  }

  /** The person is taken by exactly the track it is paired with. */
  lemma {:induction false} TakenIffPaired(r: Rules, before: seq<Track>, index: int, positions: seq<nat>, detections: seq<nat>, pairs: seq<Cell>,
                                          least: int, state: string, i: nat, e: Entry, e': Entry, p: nat)
    requires DistinctIds(before) && p < |before| && Independent(pairs) && Ascends(detections)
    requires TakenAs(r, before, index, positions, detections, pairs, least, state, i, e, e')
    ensures Carries(e', before[p].id) <==> Paired(positions, detections, pairs, p, i)
    ensures TakenBy(before, p, e, state, e') <==> Paired(positions, detections, pairs, p, i)
  {
    var q: nat :| Paired(positions, detections, pairs, q, i) && RecentAt(r, before, index, q) && TakenBy(before, q, e, state, e');
    assert before[p].id == before[q].id ==> p == q;
    if Paired(positions, detections, pairs, p, i) {
      PairedOnce(positions, detections, pairs, p, q, i);
    }
  }

  lemma {:induction false} FirstCarriedOut(r: Rules, index: int, y: Play, p: nat, i: nat, e': Entry)
    requires Fate(r, index, y, i, e') && DistinctIds(y.start.active) && p < |y.start.active| && Independent(y.pairs) && Ascends(y.high)
    ensures TakenBy(y.start.active, p, y.start.entries[i], "tracked", e') <==> Paired(y.recent, y.high, y.pairs, p, i)
  {
    var e := y.start.entries[i];
    if GivenPerson(y.high, y.pairs, i) {
      TakenIffPaired(r, y.start.active, index, y.recent, y.high, y.pairs, r.minMatchScore, "tracked", i, e, e', p);
    } else {
      if e.Detected? {
        StateTells(r, index, y, i, e');
      }
      if Paired(y.recent, y.high, y.pairs, p, i) {
        PairedGives(y.recent, y.high, y.pairs, p, i);
      }
    }
  }

  lemma {:induction false} SecondCarriedOut(r: Rules, index: int, y: Play, p: nat, i: nat, e': Entry)
    requires Fate(r, index, y, i, e') && DistinctIds(y.start.active) && p < |y.start.active| && Independent(y.pairs2) && Ascends(y.rest)
    ensures TakenBy(y.start.active, p, y.start.entries[i], "recovered_low_confidence", e') <==> Paired(y.remaining, y.rest, y.pairs2, p, i)
  {
    var e := y.start.entries[i];
    if GivenPerson(y.rest, y.pairs2, i) {
      TakenIffPaired(r, y.start.active, index, y.remaining, y.rest, y.pairs2, IntMax(180_000, r.minMatchScore - 80_000), "recovered_low_confidence", i, e, e', p);
    } else {
      if e.Detected? {
        StateTells(r, index, y, i, e');
      }
      if Paired(y.remaining, y.rest, y.pairs2, p, i) {
        PairedGives(y.remaining, y.rest, y.pairs2, p, i);
      }
    }
  }

  lemma {:induction false} FirstMatching(r: Rules, index: int, y: Play, entries': seq<Entry>)
    requires FirstPlayed(r, index, y) && Fates(r, index, y, entries') && DistinctIds(y.start.active)
    ensures FirstMatched(r, y.start.active, index, y.start.entries, entries')
  {
    MatchesInRange(r, TracksAt(y.start.active, y.recent), PersonsAt(y.start.entries, y.high), index, r.minMatchScore, y.pairs);
    forall p: nat, i: nat | p < |y.start.active| && i < |y.start.entries|
      ensures TakenBy(y.start.active, p, y.start.entries[i], "tracked", entries'[i]) <==> Paired(y.recent, y.high, y.pairs, p, i)
    {
      assert Fate(r, index, y, i, entries'[i]);
      FirstCarriedOut(r, index, y, p, i, entries'[i]);
    }
    assert CarriedOut(y.start.active, y.start.entries, entries', "tracked", y.recent, y.high, y.pairs);
    assert Matched(r, y.start.active, index, y.start.entries, entries', r.minMatchScore, "tracked", y.recent, y.high);
  }

  lemma {:induction false} SecondIsCarriedOut(r: Rules, index: int, y: Play, entries': seq<Entry>)
    requires Fates(r, index, y, entries') && DistinctIds(y.start.active) && Independent(y.pairs2) && Ascends(y.rest)
    ensures CarriedOut(y.start.active, y.start.entries, entries', "recovered_low_confidence", y.remaining, y.rest, y.pairs2)
  {
    forall p: nat, i: nat | p < |y.start.active| && i < |y.start.entries|
      ensures TakenBy(y.start.active, p, y.start.entries[i], "recovered_low_confidence", entries'[i]) <==> Paired(y.remaining, y.rest, y.pairs2, p, i)
    {
      assert Fate(r, index, y, i, entries'[i]);
      SecondCarriedOut(r, index, y, p, i, entries'[i]);
    }
  }

  lemma {:induction false} SecondIsMatched(r: Rules, index: int, y: Play, entries': seq<Entry>, least: int)
    requires FirstPlayed(r, index, y) && SecondPlayed(r, index, y) && Fates(r, index, y, entries') && DistinctIds(y.start.active)
    requires least == IntMax(180_000, r.minMatchScore - 80_000)
    ensures Matched(r, y.start.active, index, y.start.entries, entries', least, "recovered_low_confidence", y.remaining, y.rest)
  {
    SecondTable(r, index, y);
    MatchesInRange(r, TracksAt(y.start.active, y.remaining), PersonsAt(y.start.entries, y.rest), index, least, y.pairs2);
    SecondIsCarriedOut(r, index, y, entries');
  }

  lemma {:induction false} RestIsDoubtful(r: Rules, index: int, y: Play)
    requires FirstPlayed(r, index, y) && SecondPlayed(r, index, y)
    ensures ListsDoubtful(r, y.start.entries, y.rest)
  {
    forall i: nat | i < |y.start.entries| && Doubtful(r, y.start.entries[i]) ensures i !in y.named.matched {
      if GivenPerson(y.high, y.pairs, i) {
        GivenListed(y.high, y.pairs, i);
      }
    }
  }

  /** The ids mentioned after the first matching. */
  lemma {:induction false} MentionsIff(r: Rules, index: int, y: Play, entries': seq<Entry>, id: string)
    requires Fates(r, index, y, entries') && |y.named.entries| == |y.start.entries|
    ensures Mentions(r, y.start.entries, entries', id) <==> id in Mentioned(y.named.entries)
  {
    forall i: nat | i < |y.start.entries| ensures AfterFirst(y.start.entries[i], entries'[i]) == y.named.entries[i] {
      assert Fate(r, index, y, i, entries'[i]);
      if y.start.entries[i].Detected? {
        StateTells(r, index, y, i, entries'[i]);
      }
    }
    MentionedIff(y.named.entries, id);
    if Mentions(r, y.start.entries, entries', id) {
      var i: nat :| i < |y.start.entries| && Carries(AfterFirst(y.start.entries[i], entries'[i]), id);
      assert Carries(y.named.entries[i], id);
    }
  }

  lemma {:induction false} MentionedIff(entries: seq<Entry>, id: string)
    ensures id in Mentioned(entries) <==> exists i: nat :: i < |entries| && Carries(entries[i], id)
  {
    if i: nat :| i < |entries| && Carries(entries[i], id) {
      assert entries[i].person.trackId.value in Mentioned(entries);
    }
  }

  lemma {:induction false} RemainingIff(r: Rules, index: int, y: Play, entries': seq<Entry>, p: nat)
    requires FirstPlayed(r, index, y) && SecondPlayed(r, index, y) && Fates(r, index, y, entries')
    ensures p in y.remaining <==> RecentAt(r, y.start.active, index, p) && !Mentions(r, y.start.entries, entries', y.start.active[p].id)
  {
    if p < |y.start.active| {
      MentionsIff(r, index, y, entries', y.start.active[p].id);
      if GivenTrack(y.recent, y.pairs, p) {
        GivenIsMentioned(r, index, y, p);
      }
    }
  }

  lemma {:induction false} RemainingIsListed(r: Rules, index: int, y: Play, entries': seq<Entry>)
    requires FirstPlayed(r, index, y) && SecondPlayed(r, index, y) && Fates(r, index, y, entries')
    ensures ListsRemaining(r, y.start.active, index, y.start.entries, entries', y.remaining)
  {
    forall p: nat ensures p in y.remaining <==> RecentAt(r, y.start.active, index, p) && !Mentions(r, y.start.entries, entries', y.start.active[p].id) {
      RemainingIff(r, index, y, entries', p);
    }
  }

  lemma {:induction false} SecondMatching(r: Rules, index: int, y: Play, entries': seq<Entry>, least: int)
    requires FirstPlayed(r, index, y) && SecondPlayed(r, index, y) && Fates(r, index, y, entries') && DistinctIds(y.start.active)
    requires least == IntMax(180_000, r.minMatchScore - 80_000)
    ensures SecondMatched(r, y.start.active, index, y.start.entries, entries')
  {
    SecondIsMatched(r, index, y, entries', least);
    RestIsDoubtful(r, index, y);
    RemainingIsListed(r, index, y, entries');
  }

  // ----- tracks

  lemma {:induction false} NewIff(r: Rules, index: int, y: Play, i: nat, e': Entry)
    requires Fate(r, index, y, i, e')
    ensures i in News(y) <==> Confident(r, y.start.entries[i]) && e'.Detected? && e'.person.trackState == "new"
  {
    if y.start.entries[i].Detected? {
      StateTells(r, index, y, i, e');
    }
  }

  lemma {:induction false} NewTrack(index: int, y: Play, news: seq<nat>, k: nat, e: Entry)
    requires AllOpened(y.recovered, index, news, y.done) && k < |news| && news[k] < |y.recovered.entries| && e == y.recovered.entries[news[k]]
    ensures e.Detected? && |y.recovered.active| + k < |y.done.active|
    ensures y.done.active[|y.recovered.active| + k] == Open(TrackName(y.recovered.next + k), index, e.person)
    ensures news[k] < |y.done.entries| && Becomes(e, Some(TrackName(y.recovered.next + k)), "new", y.done.entries[news[k]])
  {
    assert OpenedAt(y.recovered, index, news, y.done, k);
    OpenedShows(y.recovered, index, news, y.done, k, e);
  }

  lemma {:induction false} NewsListed(r: Rules, index: int, y: Play, entries': seq<Entry>, news: seq<nat>)
    requires Fates(r, index, y, entries') && news == News(y) && forall i | i in news :: i < |entries'|
    ensures forall i: nat :: i in news <==> i < |entries'| && Confident(r, y.start.entries[i]) && entries'[i].Detected? && entries'[i].person.trackState == "new"
  {
    forall i: nat | i < |entries'| ensures i in news <==> Confident(r, y.start.entries[i]) && entries'[i].Detected? && entries'[i].person.trackState == "new" {
      assert Fate(r, index, y, i, entries'[i]);
      NewIff(r, index, y, i, entries'[i]);
    }
  }

  lemma {:induction false} NewsOpened(r: Rules, index: int, y: Play, entries': seq<Entry>, news: seq<nat>, k: nat)
    requires AllOpened(y.recovered, index, news, y.done) && news == News(y) && k < |news| && news[k] < |entries'| && Story(r, y, news[k], entries'[news[k]])
    requires y.recovered.next == y.start.next && |y.recovered.active| == |y.start.active| <= |y.done.active| - |news|
    ensures news[k] < |y.start.entries| && Becomes(y.start.entries[news[k]], Some(TrackName(y.start.next + k)), "new", entries'[news[k]])
    ensures y.done.active[|y.start.active| + k] == Open(TrackName(y.start.next + k), index, y.start.entries[news[k]].person)
  {
    assert news[k] in news;
    NewTrack(index, y, news, k, y.start.entries[news[k]]);
  }

  lemma {:induction false} NewsInside(r: Rules, index: int, y: Play, news: seq<nat>)
    requires FirstPlayed(r, index, y) && news == News(y)
    ensures Ascends(news) && forall i | i in news :: i < |y.start.entries|
  {
    WithoutAscends(y.high, y.recovered.matched);
  }

  lemma {:induction false} OpenedTracks(r: Rules, index: int, y: Play, entries': seq<Entry>, news: seq<nat>)
    requires Played(r, index, y) && Told(r, y, entries') && Fates(r, index, y, entries') && news == News(y)
    ensures Opened(r, y.start.active, y.start.next, index, y.start.entries, y.done.active, y.done.next, entries', news)
  {
    NewsInside(r, index, y, news);
    NothingOpenedYet(r, index, y);
    NewsListed(r, index, y, entries', news);
    forall k: nat | k < |news|
      ensures news[k] < |y.start.entries| && Becomes(y.start.entries[news[k]], Some(TrackName(y.start.next + k)), "new", entries'[news[k]])
      ensures y.done.active[|y.start.active| + k] == Open(TrackName(y.start.next + k), index, y.start.entries[news[k]].person)
    {
      assert news[k] in news;
      assert Story(r, y, news[k], entries'[news[k]]);
      NewsOpened(r, index, y, entries', news, k);
    }
  }

  /** No id of an active track is among those still to be given out. */
  lemma {:induction false} NotNumbered(before: seq<Track>, next: nat, p: nat, n: nat)
    requires Numbered(before, next) && p < |before| && n >= next
    ensures before[p].id != TrackName(n)
  {
    assert HasNumber(before[p].id, next);
    var m: nat :| m < next && before[p].id == TrackName(m);
    if TrackName(m) == TrackName(n) {
      TrackNameInjective(m, n);
    }
  }

  lemma {:induction false} NewIsNotCarried(before: seq<Track>, next: nat, news: seq<nat>, i: nat, e: Entry, e': Entry, p: nat)
    requires OpenedAs(next, news, i, e, e') && Numbered(before, next) && p < |before|
    ensures !Carries(e', before[p].id)
  {
    var k: nat :| k < |news| && news[k] == i && Becomes(e, Some(TrackName(next + k)), "new", e');
    NotNumbered(before, next, p, next + k);
  }

  /** An entry carries a track's id exactly when it was paired with the track. */
  lemma {:induction false} CarriedIff(r: Rules, index: int, y: Play, p: nat, i: nat, e': Entry)
    requires Fate(r, index, y, i, e') && DistinctIds(y.start.active) && Numbered(y.start.active, y.start.next) && p < |y.start.active|
    requires Independent(y.pairs) && Ascends(y.high) && Independent(y.pairs2) && Ascends(y.rest) && y.start.entries[i].Detected?
    ensures Carries(e', y.start.active[p].id) <==> Paired(y.recent, y.high, y.pairs, p, i) || Paired(y.remaining, y.rest, y.pairs2, p, i)
  {
    var (e, before) := (y.start.entries[i], y.start.active);
    if Paired(y.recent, y.high, y.pairs, p, i) {
      PairedGives(y.recent, y.high, y.pairs, p, i);
    }
    if Paired(y.remaining, y.rest, y.pairs2, p, i) {
      PairedGives(y.remaining, y.rest, y.pairs2, p, i);
    }
    if GivenPerson(y.high, y.pairs, i) {
      TakenIffPaired(r, before, index, y.recent, y.high, y.pairs, r.minMatchScore, "tracked", i, e, e', p);
    } else if GivenPerson(y.rest, y.pairs2, i) {
      TakenIffPaired(r, before, index, y.remaining, y.rest, y.pairs2, IntMax(180_000, r.minMatchScore - 80_000), "recovered_low_confidence", i, e, e', p);
    } else if Confident(r, e) {
      NewIsNotCarried(before, y.start.next, News(y), i, e, e', p);
    }
  }

  /** Where the tracks stand after the two matchings. */
  lemma {:induction false} FirstMoves(r: Rules, index: int, y: Play, p: nat) returns (i: nat)
    requires FirstPlayed(r, index, y) && SecondPlayed(r, index, y) && GivenTrack(y.recent, y.pairs, p)
    ensures p < |y.start.active| == |y.recovered.active| && i < |y.start.entries| && y.start.entries[i].Detected?
    ensures Paired(y.recent, y.high, y.pairs, p, i) && y.recovered.active[p] == Updated(y.start.active[p], index, y.start.entries[i].person)
  {
    var k :| 0 <= k < |y.pairs| && y.pairs[k].0 < |y.recent| && y.recent[y.pairs[k].0] == p;
    i := y.high[y.pairs[k].1];
    assert Took(y.start, index, p, i, "tracked", y.named);
    GivenIsMentioned(r, index, y, p);
    if GivenTrack(y.remaining, y.pairs2, p) {
      GivenRemains(y.remaining, y.pairs2, p);
    }
  }

  lemma {:induction false} GivenRemains(positions: seq<nat>, pairs: seq<Cell>, p: nat)
    requires GivenTrack(positions, pairs, p)
    ensures p in positions
  {
  }

  lemma {:induction false} SecondMoves(r: Rules, index: int, y: Play, p: nat) returns (i: nat)
    requires FirstPlayed(r, index, y) && SecondPlayed(r, index, y) && GivenTrack(y.remaining, y.pairs2, p)
    ensures p < |y.start.active| == |y.recovered.active| && i < |y.start.entries| && y.start.entries[i].Detected?
    ensures Paired(y.remaining, y.rest, y.pairs2, p, i) && y.recovered.active[p] == Updated(y.start.active[p], index, y.start.entries[i].person)
  {
    var k :| 0 <= k < |y.pairs2| && y.pairs2[k].0 < |y.remaining| && y.remaining[y.pairs2[k].0] == p;
    i := y.rest[y.pairs2[k].1];
    assert Took(y.named, index, p, i, "recovered_low_confidence", y.recovered);
    RemainingUntouched(r, index, y, p);
    RestUntouched(r, index, y, i);
  }

  lemma {:induction false} Unmoved(r: Rules, index: int, y: Play, p: nat)
    requires FirstPlayed(r, index, y) && SecondPlayed(r, index, y) && !GivenTrack(y.recent, y.pairs, p) && !GivenTrack(y.remaining, y.pairs2, p)
    requires p < |y.start.active|
    ensures |y.recovered.active| == |y.start.active| && y.recovered.active[p] == y.start.active[p]
  {
  }

  lemma {:induction false} NotPaired(positions: seq<nat>, detections: seq<nat>, pairs: seq<Cell>, p: nat, i: nat)
    requires !GivenTrack(positions, pairs, p)
    ensures !Paired(positions, detections, pairs, p, i)
  {
  }

  /** What the tracks need to know of the pairs. */
  ghost predicate PairsFit(y: Play) {
    Independent(y.pairs) && Ascends(y.high) && Independent(y.pairs2) && Ascends(y.rest)
  }

  lemma {:induction false} CarriedByNone(r: Rules, index: int, y: Play, entries': seq<Entry>, p: nat)
    requires Fates(r, index, y, entries') && DistinctIds(y.start.active) && Numbered(y.start.active, y.start.next) && PairsFit(y)
    requires p < |y.start.active| && !GivenTrack(y.recent, y.pairs, p) && !GivenTrack(y.remaining, y.pairs2, p)
    requires forall i: nat | i < |entries'| && y.start.entries[i].Foreign? :: entries'[i].Foreign?
    ensures forall i: nat | i < |entries'| :: !Carries(entries'[i], y.start.active[p].id)
  {
    forall i: nat | i < |entries'| ensures !Carries(entries'[i], y.start.active[p].id) {
      assert Fate(r, index, y, i, entries'[i]);
      if y.start.entries[i].Detected? {
        CarriedIff(r, index, y, p, i, entries'[i]);
        NotPaired(y.recent, y.high, y.pairs, p, i);
        NotPaired(y.remaining, y.rest, y.pairs2, p, i);
      }
    }
  }

  lemma {:induction false} ForeignStays(r: Rules, index: int, y: Play, i: nat, e': Entry)
    requires Fate(r, index, y, i, e')
    ensures e'.Detected? <==> y.start.entries[i].Detected?
  {
    if y.start.entries[i].Detected? {
      StateTells(r, index, y, i, e');
    }
  }

  lemma {:induction false} PairedMoves(r: Rules, index: int, y: Play, active: seq<Track>, entries': seq<Entry>, p: nat, i: nat)
    requires Fates(r, index, y, entries') && PairsFit(y) && DistinctIds(y.start.active) && Numbered(y.start.active, y.start.next)
    requires p < |y.start.active| <= |active| && i < |y.start.entries| && y.start.entries[i].Detected?
    requires Paired(y.recent, y.high, y.pairs, p, i) || Paired(y.remaining, y.rest, y.pairs2, p, i)
    requires active[p] == Updated(y.start.active[p], index, y.start.entries[i].person)
    ensures Moves(y.start.active, index, y.start.entries, active, entries', p)
  {
    assert Fate(r, index, y, i, entries'[i]);
    CarriedIff(r, index, y, p, i, entries'[i]);
  }

  lemma {:induction false} UnpairedMoves(r: Rules, index: int, y: Play, active: seq<Track>, entries': seq<Entry>, p: nat)
    requires Fates(r, index, y, entries') && PairsFit(y) && DistinctIds(y.start.active) && Numbered(y.start.active, y.start.next)
    requires p < |y.start.active| <= |active| && active[p] == y.start.active[p] && !GivenTrack(y.recent, y.pairs, p) && !GivenTrack(y.remaining, y.pairs2, p)
    ensures Moves(y.start.active, index, y.start.entries, active, entries', p)
  {
    forall i: nat | i < |entries'| && y.start.entries[i].Foreign? ensures entries'[i].Foreign? {
      assert Fate(r, index, y, i, entries'[i]);
      ForeignStays(r, index, y, i, entries'[i]);
    }
    CarriedByNone(r, index, y, entries', p);
  }

  lemma {:induction false} TrackMoves(r: Rules, index: int, y: Play, active: seq<Track>, entries': seq<Entry>, p: nat)
    requires FirstPlayed(r, index, y) && SecondPlayed(r, index, y) && Fates(r, index, y, entries') && PairsFit(y)
    requires DistinctIds(y.start.active) && Numbered(y.start.active, y.start.next)
    requires p < |y.start.active| <= |active| && p < |y.recovered.active| && active[p] == y.recovered.active[p]
    ensures Moves(y.start.active, index, y.start.entries, active, entries', p)
  {
    if GivenTrack(y.recent, y.pairs, p) {
      var i := FirstMoves(r, index, y, p);
      PairedMoves(r, index, y, active, entries', p, i);
    } else if GivenTrack(y.remaining, y.pairs2, p) {
      var i := SecondMoves(r, index, y, p);
      PairedMoves(r, index, y, active, entries', p, i);
    } else {
      Unmoved(r, index, y, p);
      UnpairedMoves(r, index, y, active, entries', p);
    }
  }

  lemma {:induction false} PlayFits(r: Rules, index: int, y: Play)
    requires FirstPlayed(r, index, y) && SecondPlayed(r, index, y)
    ensures PairsFit(y)
  {
    MatchesInRange(r, TracksAt(y.start.active, y.recent), PersonsAt(y.start.entries, y.high), index, r.minMatchScore, y.pairs);
    MatchesInRange(r, TracksAt(y.named.active, y.remaining), PersonsAt(y.named.entries, y.rest), index, IntMax(180_000, r.minMatchScore - 80_000), y.pairs2);
  }

  lemma {:induction false} AllTracksMove(r: Rules, index: int, y: Play, entries': seq<Entry>)
    requires Played(r, index, y) && Told(r, y, entries') && Fates(r, index, y, entries')
    requires DistinctIds(y.start.active) && Numbered(y.start.active, y.start.next)
    ensures TracksMove(r, y.start.active, y.start.next, index, y.start.entries, y.done.active, y.done.next, entries')
  {
    NothingOpenedYet(r, index, y);
    OpenedTracks(r, index, y, entries', News(y));
    PlayFits(r, index, y);
    forall p: nat | p < |y.start.active| ensures Moves(y.start.active, index, y.start.entries, y.done.active, entries', p) {
      assert y.done.active[p] == y.recovered.active[p];
      TrackMoves(r, index, y, y.done.active, entries', p);
    }
  }

  ghost predicate Told(r: Rules, y: Play, entries': seq<Entry>) {
    |entries'| == |y.start.entries| && forall i: nat | i < |entries'| :: Story(r, y, i, entries'[i])
  }

  // ----- from the phases to the outcome

  lemma {:induction false} FirstIsPlayed(r: Rules, index: int, y: Play)
    requires y.high == High(r, y.start.entries) && FirstPhase(r, y.start, index, y.high, y.pairs, y.named) && y.start.matched == {}
    requires y.recent == Recent(r, y.start.active, index)
    ensures FirstPlayed(r, index, y)
  {
    SelectAscends(y.start.entries, (p: Person) => p.score >= r.highConfidence, |y.start.entries|);
    SelectTracksAscends(y.start.active, (t: Track) => index - t.lastFrame <= r.maxAge, |y.start.active|);
    MatchesFit(r, y.start, index, y.recent, y.high, y.pairs, r.minMatchScore);
    GiveAllMeans(y.start, index, y.recent, y.high, y.pairs, "tracked");
  }

  lemma {:induction false} SecondLists(r: Rules, index: int, low: seq<nat>, y: Play)
    requires low == Low(r, y.start.entries)
    requires y.remaining == Remaining(r, y.named.active, index, Mentioned(y.named.entries)) && y.rest == Without(low, y.named.matched)
    ensures Ascends(y.remaining) && Ascends(y.rest)
    ensures forall p: nat :: p in y.remaining <==> RecentAt(r, y.named.active, index, p) && y.named.active[p].id !in Mentioned(y.named.entries)
    ensures forall i: nat :: i in y.rest <==> i < |y.start.entries| && Doubtful(r, y.start.entries[i]) && i !in y.named.matched
  {
    var entries := y.start.entries;
    SelectAscends(entries, (p: Person) => r.lowConfidence <= p.score < r.highConfidence, |entries|);
    WithoutAscends(low, y.named.matched);
    SelectTracksAscends(y.named.active, (t: Track) => index - t.lastFrame <= r.maxAge && t.id !in Mentioned(y.named.entries), |y.named.active|);
  }

  lemma {:induction false} SecondIsPlayed(r: Rules, index: int, low: seq<nat>, y: Play, least: int)
    requires low == Low(r, y.start.entries) && SecondPhase(r, y.named, index, low, y.pairs2, y.recovered)
    requires y.remaining == Remaining(r, y.named.active, index, Mentioned(y.named.entries)) && y.rest == Without(low, y.named.matched)
    requires least == IntMax(180_000, r.minMatchScore - 80_000)
    ensures SecondPlayed(r, index, y)
  {
    SecondLists(r, index, low, y);
    assert least == LowThreshold(r.minMatchScore);
    MatchesFit(r, y.named, index, y.remaining, y.rest, y.pairs2, least);
    GiveAllMeans(y.named, index, y.remaining, y.rest, y.pairs2, "recovered_low_confidence");
  }

  lemma {:induction false} ThirdIsPlayed(r: Rules, index: int, y: Play)
    requires FirstPlayed(r, index, y) && SecondPlayed(r, index, y) && y.done == OpenAll(y.recovered, index, y.high)
    ensures ThirdPlayed(index, y)
  {
    AscendsDistinct(y.high);
    OpenAllMeans(y.recovered, index, y.high);
  }

  lemma {:induction false} LastPhase(r: Rules, start: Scene, index: int, n: nat, w: Scene) returns (before: Scene)
    requires n > 0 && Reaches(r, start, index, n, w)
    ensures Reaches(r, start, index, n - 1, before) && Phase(r, start.entries, before, index, n, w)
  {
    before :| Reaches(r, start, index, n - 1, before) && Phase(r, start.entries, before, index, n, w);
  }

  lemma {:induction false} TheStart(r: Rules, start: Scene, index: int, n: nat, w: Scene)
    requires n == 0 && Reaches(r, start, index, n, w)
    ensures w == start
  {
  }

  lemma {:induction false} PhaseOne(r: Rules, entries: seq<Entry>, before: Scene, index: int, n: nat, w: Scene) returns (pairs: seq<Cell>)
    requires n == 1 && Phase(r, entries, before, index, n, w)
    ensures FirstPhase(r, before, index, High(r, entries), pairs, w)
  {
    pairs :| FirstPhase(r, before, index, High(r, entries), pairs, w);
  }

  lemma {:induction false} PhaseTwo(r: Rules, entries: seq<Entry>, before: Scene, index: int, n: nat, w: Scene) returns (pairs: seq<Cell>)
    requires n == 2 && Phase(r, entries, before, index, n, w)
    ensures SecondPhase(r, before, index, Low(r, entries), pairs, w)
  {
    pairs :| SecondPhase(r, before, index, Low(r, entries), pairs, w);
  }

  lemma {:induction false} PhaseThree(r: Rules, entries: seq<Entry>, before: Scene, index: int, n: nat, w: Scene)
    requires n == 3 && Phase(r, entries, before, index, n, w)
    ensures w == OpenAll(before, index, High(r, entries))
  {
  }

  lemma {:induction false} PlayOf(r: Rules, start: Scene, index: int, w: Scene, n: nat) returns (y: Play)
    requires n == 3 && Reaches(r, start, index, n, w) && start.matched == {}
    ensures Played(r, index, y) && y.start == start && y.done == w
  {
    var w2 := LastPhase(r, start, index, n, w);
    var w1 := LastPhase(r, start, index, n - 1, w2);
    var w0 := LastPhase(r, start, index, n - 2, w1);
    TheStart(r, start, index, n - 3, w0);
    var pairs := PhaseOne(r, start.entries, start, index, n - 2, w1);
    var pairs2 := PhaseTwo(r, start.entries, w1, index, n - 1, w2);
    PhaseThree(r, start.entries, w2, index, n, w);
    var low := Low(r, start.entries);
    y := Play(start, High(r, start.entries), Recent(r, start.active, index), pairs, w1,
              Without(low, w1.matched), Remaining(r, w1.active, index, Mentioned(w1.entries)), pairs2, w2, w);
    FirstIsPlayed(r, index, y);
    SecondIsPlayed(r, index, low, y, IntMax(180_000, r.minMatchScore - 80_000));
    ThirdIsPlayed(r, index, y);
  }

  lemma {:induction false} PlayTells(r: Rules, index: int, y: Play, entries': seq<Entry>)
    requires Played(r, index, y) && entries' == ClearRest(y.done.entries, y.done.matched)
    ensures Told(r, y, entries') && Fates(r, index, y, entries') && y.done.next == y.start.next + |News(y)|
  {
    NothingOpenedYet(r, index, y);
    forall i: nat | i < |y.start.entries| ensures |entries'| == |y.start.entries| && Story(r, y, i, entries'[i]) && Fate(r, index, y, i, entries'[i]) {
      EntryStory(r, index, y, i);
      FateOf(r, index, y, i, entries'[i]);
    }
    SameLength(r, index, y);
  }

  lemma {:induction false} SameLength(r: Rules, index: int, y: Play)
    requires Played(r, index, y)
    ensures |y.done.entries| == |y.start.entries|
  {
  }

  /** The three phases of a frame and what follows them bring about the outcome. */
  lemma {:induction false} PhasesOutcome(r: Rules, before: seq<Track>, next: nat, index: int, entries: seq<Entry>, active: seq<Track>, next': nat, entries': seq<Entry>)
    requires Tracked(r, before, next, index, entries, active, next', entries') && DistinctIds(before) && Numbered(before, next)
    ensures FrameDone(r, before, next, index, entries, active, next', entries')
  {
    var start := Scene(before, next, entries, {});
    var w :| Reaches(r, start, index, 3, w) && Named(w, active, next', entries');
    PlayDone(r, start, index, w, 3, entries');
  }

  lemma {:induction false} PlayDone(r: Rules, start: Scene, index: int, w: Scene, n: nat, entries': seq<Entry>)
    requires n == 3 && Reaches(r, start, index, n, w) && start.matched == {} && entries' == ClearRest(w.entries, w.matched)
    requires DistinctIds(start.active) && Numbered(start.active, start.next)
    ensures FrameDone(r, start.active, start.next, index, start.entries, w.active, w.next, entries')
  {
    var y := PlayOf(r, start, index, w, n);
    PlayTells(r, index, y, entries');
    forall i: nat | i < |start.entries| ensures Outcome(r, start.active, start.next, index, start.entries[i], w.next, entries'[i]) {
      assert Fate(r, index, y, i, entries'[i]);
      EntryOutcome(r, index, y, i, entries'[i], w.next);
    }
    FirstMatching(r, index, y, entries');
    SecondMatching(r, index, y, entries', IntMax(180_000, r.minMatchScore - 80_000));
    AllTracksMove(r, index, y, entries');
  }
}
