/** Tracks, frames and the ledger that ties them together: the observations of a track are
    the persons that carry its id, frame by frame. */
module Tracks {
  import opened Options
  import opened Numerals

  type Box = seq<real>
  type Vector = seq<real>

  datatype Person = Person(score: real, quality: real, box: Box, embedding: Option<Vector>,
                           trackId: Option<string>, trackState: string)

  /** An entry of a frame's person list; entries that are not records are skipped. */
  datatype Entry = Foreign | Detected(person: Person)

  datatype Frame = Frame(index: int, entries: seq<Entry>)

  /** What a frame says of a track, with the embedding sampled there, if any. */
  datatype Observation = Observation(frame: int, box: Box, score: real, quality: real, samples: seq<Vector>)

  datatype Track = Track(id: string, lastFrame: int, lastBox: Box, hits: nat, age: nat,
                         frameIndexes: seq<int>, observations: seq<Observation>, samples: seq<Vector>)

  function Observe(frame: int, person: Person): Observation {
    Observation(frame, person.box, person.score, person.quality, Samples(person))
  }

  function Samples(person: Person): seq<Vector> {
    if person.embedding.Some? && person.embedding.value != [] then [person.embedding.value] else []
  }

  /** A track opened by an unmatched person. */
  function Open(id: string, frame: int, person: Person): Track {
    Track(id, frame, person.box, 1, 1, [frame], [Observe(frame, person)], Samples(person))
  }

  /** A track updated by a matched person. */
  function Updated(t: Track, frame: int, person: Person): Track {
    t.(lastFrame := frame, lastBox := person.box, hits := t.hits + 1, age := t.age + 1,
       frameIndexes := t.frameIndexes + [frame],
       observations := t.observations + [Observe(frame, person)],
       samples := t.samples + Samples(person))
  }

  // ----- track ids

  function Padded(s: string): string
    decreases 4 - |s|
  {
    if |s| >= 4 then s else Padded(['0'] + s)
  }

  /** The id of the n-th opened track, such as trk_0001. */
  function TrackName(n: nat): string {
    "trk_" + Padded(Decimal(n))
  }

  lemma {:induction false} ReadingZero(s: string)
    ensures Reading(['0'] + s) == Reading(s)
  {
    if s == [] {
      assert ['0'][..0] == [];
    } else {
      ReadingZero(s[..|s| - 1]);
      assert (['0'] + s)[..|s|] == ['0'] + s[..|s| - 1];
    }
  }

  lemma {:induction false} ReadingPadded(s: string)
    ensures Reading(Padded(s)) == Reading(s)
    decreases 4 - |s|
  {
    if |s| < 4 {
      ReadingPadded(['0'] + s);
      ReadingZero(s);
    }
  }

  /** Different numbers give different ids. */
  lemma {:induction false} TrackNameInjective(m: nat, n: nat)
    requires TrackName(m) == TrackName(n)
    ensures m == n
  {
    assert TrackName(m)[4..] == Padded(Decimal(m)) && TrackName(n)[4..] == Padded(Decimal(n));
    ReadingPadded(Decimal(m));
    ReadingPadded(Decimal(n));
    ReadingDecimal(m);
    ReadingDecimal(n);
  }

  // ----- the ledger

  predicate Carries(e: Entry, id: string) {
    e.Detected? && e.person.trackId == Some(id)
  }

  /** What the entries of one frame say about an id. */
  function SeenIn(index: int, entries: seq<Entry>, id: string): seq<Observation> {
    if entries == [] then []
    else
      var seen := SeenIn(index, entries[..|entries| - 1], id);
      var last := entries[|entries| - 1];
      if Carries(last, id) then seen + [Observe(index, last.person)] else seen
  }

  /** The persons that carry an id, in the order of the frames. */
  function Sightings(frames: seq<Frame>, id: string): seq<Observation> {
    if frames == [] then []
    else
      var last := frames[|frames| - 1];
      Sightings(frames[..|frames| - 1], id) + SeenIn(last.index, last.entries, id)
  }

  ghost predicate Increasing(frames: seq<Frame>) {
    forall i, j | 0 <= i < j < |frames| :: frames[i].index < frames[j].index
  }

  lemma {:induction false} NotSeen(index: int, entries: seq<Entry>, id: string)
    requires forall i | 0 <= i < |entries| :: !Carries(entries[i], id)
    ensures SeenIn(index, entries, id) == []
  {
    if entries != [] {
      NotSeen(index, entries[..|entries| - 1], id);
    }
  }

  lemma {:induction false} SeenOnce(index: int, entries: seq<Entry>, id: string, k: nat)
    requires k < |entries| && Carries(entries[k], id)
    requires forall i | 0 <= i < |entries| && i != k :: !Carries(entries[i], id)
    ensures SeenIn(index, entries, id) == [Observe(index, entries[k].person)]
  {
    var init := entries[..|entries| - 1];
    if k == |entries| - 1 {
      NotSeen(index, init, id);
    } else {
      SeenOnce(index, init, id, k);
    }
  }

  lemma {:induction false} SeenFrames(index: int, entries: seq<Entry>, id: string)
    ensures forall i | 0 <= i < |SeenIn(index, entries, id)| :: SeenIn(index, entries, id)[i].frame == index
    ensures (forall i | 0 <= i < |entries| :: !Carries(entries[i], id)) <==> SeenIn(index, entries, id) == []
  {
    if entries != [] {
      SeenFrames(index, entries[..|entries| - 1], id);
    }
  }

  lemma {:induction false} SightingsWithin(frames: seq<Frame>, id: string, bound: int)
    requires forall i | 0 <= i < |frames| :: frames[i].index < bound
    ensures forall i | 0 <= i < |Sightings(frames, id)| :: Sightings(frames, id)[i].frame < bound
  {
    if frames != [] {
      var last := frames[|frames| - 1];
      SightingsWithin(frames[..|frames| - 1], id, bound);
      SeenFrames(last.index, last.entries, id);
    }
  }

  // ----- rewriting ids

  function RewriteEntry(e: Entry, from: string, to: string): Entry {
    if Carries(e, from) then Detected(e.person.(trackId := Some(to), trackState := "merged_fragment")) else e
  }

  function RewriteFrame(f: Frame, from: string, to: string): Frame {
    f.(entries := seq(|f.entries|, i requires 0 <= i < |f.entries| => RewriteEntry(f.entries[i], from, to)))
  }

  function Rewrite(frames: seq<Frame>, from: string, to: string): seq<Frame> {
    seq(|frames|, i requires 0 <= i < |frames| => RewriteFrame(frames[i], from, to))
  }

  lemma {:induction false} RewriteSeen(index: int, entries: seq<Entry>, from: string, to: string, id: string)
    requires from != to
    ensures var after := RewriteFrame(Frame(index, entries), from, to).entries;
            && (id != from && id != to ==> SeenIn(index, after, id) == SeenIn(index, entries, id))
            && SeenIn(index, after, from) == []
            && (SeenIn(index, entries, from) == [] ==> SeenIn(index, after, to) == SeenIn(index, entries, to))
            && (SeenIn(index, entries, to) == [] ==> SeenIn(index, after, to) == SeenIn(index, entries, from))
  {
    if entries != [] {
      var init := entries[..|entries| - 1];
      RewriteSeen(index, init, from, to, id);
      assert RewriteFrame(Frame(index, entries), from, to).entries[..|entries| - 1] == RewriteFrame(Frame(index, init), from, to).entries;
    }
  }

  lemma {:induction false} RewriteOthers(frames: seq<Frame>, from: string, to: string, id: string)
    requires from != to && id != to
    ensures Sightings(Rewrite(frames, from, to), id) == if id == from then [] else Sightings(frames, id)
  {
    if frames != [] {
      var init, last := frames[..|frames| - 1], frames[|frames| - 1];
      RewriteOthers(init, from, to, id);
      assert Rewrite(frames, from, to)[..|frames| - 1] == Rewrite(init, from, to);
      RewriteSeen(last.index, last.entries, from, to, id);
    }
  }

  /** All of the first list lies before all of the second. */
  ghost predicate Before(a: seq<Observation>, b: seq<Observation>) {
    forall i, j | 0 <= i < |a| && 0 <= j < |b| :: a[i].frame < b[j].frame
  }

  /** An id seen in the last frame leaves no room after it. */
  lemma {:induction false} NothingLater(frames: seq<Frame>, from: string, to: string)
    requires Increasing(frames) && frames != []
    requires Before(Sightings(frames, to), Sightings(frames, from))
    requires SeenIn(frames[|frames| - 1].index, frames[|frames| - 1].entries, to) != []
    ensures Sightings(frames, from) == []
  {
    var last := frames[|frames| - 1];
    var all, others := Sightings(frames, to), Sightings(frames, from);
    var next := if others == [] then last.index + 1 else others[0].frame;
    assert others == [] || all[|all| - 1].frame < next;
    SightingsWithin(frames, from, last.index + 1);
    assert others == [] || next <= last.index;
    SeenFrames(last.index, last.entries, to);
    assert all[|all| - 1].frame == last.index;
  }

  lemma {:induction false} BeforePrefix(a: seq<Observation>, a': seq<Observation>, b: seq<Observation>, b': seq<Observation>)
    requires Before(a + a', b + b')
    ensures Before(a, b)
  {
    forall i, j | 0 <= i < |a| && 0 <= j < |b| ensures a[i].frame < b[j].frame {
      assert (a + a')[i].frame < (b + b')[j].frame;
    }
  }

  /** In the last frame the receiving id has its own sightings, or else those it takes over. */
  lemma {:induction false} LastReceives(frames: seq<Frame>, from: string, to: string)
    requires from != to && Increasing(frames) && frames != []
    requires Before(Sightings(frames, to), Sightings(frames, from))
    ensures var (init, last) := (frames[..|frames| - 1], frames[|frames| - 1]);
      var (a', b') := (SeenIn(last.index, last.entries, to), SeenIn(last.index, last.entries, from));
      && Before(Sightings(init, to), Sightings(init, from))
      && SeenIn(last.index, RewriteFrame(last, from, to).entries, to) == (if a' != [] then a' else b')
      && (a' != [] ==> Sightings(init, from) == [] && b' == [])
  {
    var init, last := frames[..|frames| - 1], frames[|frames| - 1];
    BeforePrefix(Sightings(init, to), SeenIn(last.index, last.entries, to), Sightings(init, from), SeenIn(last.index, last.entries, from));
    RewriteSeen(last.index, last.entries, from, to, to);
    if SeenIn(last.index, last.entries, to) != [] {
      NothingLater(frames, from, to);
    }
  }

  /** When the receiving id was last seen before the rewritten one was first seen, the
      receiving id afterwards has the sightings of both, in time order. */
  lemma {:induction false} RewriteReceives(frames: seq<Frame>, from: string, to: string)
    requires from != to && Increasing(frames)
    requires Before(Sightings(frames, to), Sightings(frames, from))
    ensures Sightings(Rewrite(frames, from, to), to) == Sightings(frames, to) + Sightings(frames, from)
  {
    if frames != [] {
      var init, last := frames[..|frames| - 1], frames[|frames| - 1];
      LastReceives(frames, from, to);
      RewriteReceives(init, from, to);
      RewriteLast(frames, from, to, to);
      Interleave(Sightings(init, to), Sightings(init, from), SeenIn(last.index, last.entries, to), SeenIn(last.index, last.entries, from));
    }
  }

  lemma {:induction false} RewriteLast(frames: seq<Frame>, from: string, to: string, id: string)
    requires frames != []
    ensures var (init, last) := (frames[..|frames| - 1], frames[|frames| - 1]);
      Sightings(Rewrite(frames, from, to), id)
      == Sightings(Rewrite(init, from, to), id) + SeenIn(last.index, RewriteFrame(last, from, to).entries, id)
  {
    assert Rewrite(frames, from, to)[..|frames| - 1] == Rewrite(frames[..|frames| - 1], from, to);
  }

  lemma {:induction false} Interleave<T>(a: seq<T>, b: seq<T>, a': seq<T>, b': seq<T>)
    requires a' != [] ==> b == [] && b' == []
    ensures (a + b) + (if a' != [] then a' else b') == (a + a') + (b + b')
  {
  }

  // ----- what a sighting is

  lemma {:induction false} SeenPerson(index: int, entries: seq<Entry>, id: string, k: nat) returns (i: nat)
    requires k < |SeenIn(index, entries, id)|
    ensures i < |entries| && Carries(entries[i], id)
    ensures var (o, p) := (SeenIn(index, entries, id)[k], entries[i].person);
      o.frame == index && o.box == p.box && o.score == p.score && o.quality == p.quality
      && o.samples == if p.embedding.Some? && p.embedding.value != [] then [p.embedding.value] else []
  {
    var init := entries[..|entries| - 1];
    if k < |SeenIn(index, init, id)| {
      i := SeenPerson(index, init, id, k);
    } else {
      i := |entries| - 1;
    }
  }

  /** Every sighting of an id is a person of some frame that carries it, with that person's box,
      score, quality and embedding. */
  lemma {:induction false} SightedPerson(frames: seq<Frame>, id: string, k: nat) returns (f: nat, i: nat)
    requires k < |Sightings(frames, id)|
    ensures f < |frames| && i < |frames[f].entries| && Carries(frames[f].entries[i], id)
    ensures var (o, p) := (Sightings(frames, id)[k], frames[f].entries[i].person);
      o.frame == frames[f].index && o.box == p.box && o.score == p.score && o.quality == p.quality
      && o.samples == if p.embedding.Some? && p.embedding.value != [] then [p.embedding.value] else []
  {
    var init, last := frames[..|frames| - 1], frames[|frames| - 1];
    var before := |Sightings(init, id)|;
    if k < before {
      f, i := SightedPerson(init, id, k);
    } else {
      f := |frames| - 1;
      i := SeenPerson(last.index, last.entries, id, k - before);
    }
  }

  /** How many persons of a frame carry the id. */
  function CarriersIn(entries: seq<Entry>, id: string): nat {
    if entries == [] then 0 else CarriersIn(entries[..|entries| - 1], id) + if Carries(entries[|entries| - 1], id) then 1 else 0
  }

  function Carriers(frames: seq<Frame>, id: string): nat {
    if frames == [] then 0 else Carriers(frames[..|frames| - 1], id) + CarriersIn(frames[|frames| - 1].entries, id)
  }

  /** An id has as many sightings as persons that carry it. */
  lemma {:induction false} SightingsCounted(frames: seq<Frame>, id: string)
    ensures |Sightings(frames, id)| == Carriers(frames, id)
  {
    if frames != [] {
      SightingsCounted(frames[..|frames| - 1], id);
      SeenCounted(frames[|frames| - 1].index, frames[|frames| - 1].entries, id);
    }
  }

  lemma {:induction false} SeenCounted(index: int, entries: seq<Entry>, id: string)
    ensures |SeenIn(index, entries, id)| == CarriersIn(entries, id)
  {
    if entries != [] {
      SeenCounted(index, entries[..|entries| - 1], id);
    }
  }
}
