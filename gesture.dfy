/**
  The per-frame gesture-to-note state machine shared by both applications,
  as specification functions on values, and what is proved about them.

  A frame carries zero or more hand observations. For each hand, each finger
  name read for its side is compared with the stored state of (side, finger):
  a rising edge (stored 0, observed 1) plays the finger's chord, a falling
  edge (stored 1, observed 0) schedules its release, and the stored state
  becomes the observed flag. A frame without hands schedules a release for
  every chord of the table and resets every stored state to 0.

  The step is described by the edges it takes, in order; the MIDI events are
  derived from the edges (EventsOf).
 */
module Gesture {
  import opened Wrappers
  import opened Chords
  import opened Midi

  /** The finger flags of one detected hand: thumb, index, middle, ring, pinky. */
  type FlagVector = f: seq<Bit> | |f| == 5 witness [0, 0, 0, 0, 0]

  /** A detected hand: the detector's side label and its finger flags. */
  datatype Hand = Hand(kind: string, flags: FlagVector)

  /** The side a label stands for: only "Left" is the left hand, any other label is the right. */
  function SideOf(kind: string): (s: Side)
    ensures s == Left <==> kind == "Left"
  {
    if kind == "Left" then Left else Right
  }

  /** Where the finger names read for a side come from. */
  datatype NameSource =
      /** the keys of the table's side, in table order */
    | TableOrder
      /** a fixed list, whatever the table maps */
    | Fixed(names: seq<Finger>)

  /** The finger names read for one side; the i-th name is paired with the i-th flag. */
  function FingerNames(src: NameSource, t: ChordTable, side: Side): seq<Finger> {
    match src
    case TableOrder => Fingers(t.Bindings(side))
    case Fixed(names) => names
  }

  /** At most five names are read per side, so every flag index exists. */
  predicate Readable(src: NameSource, t: ChordTable) {
    |FingerNames(src, t, Left)| <= 5 && |FingerNames(src, t, Right)| <= 5
  }

  predicate DistinctNames(names: seq<Finger>) {
    forall i, j | 0 <= i < j < |names| :: names[i] != names[j]
  }

  datatype Edge = Rise | Fall

  /** An edge taken by the finger `key`, with the chord its table maps it to at that moment. */
  datatype KeyEdge = KeyEdge(key: Key, edge: Edge, chord: Chord)

  /** A rise plays the chord; a fall schedules its release after the sustain time. */
  function EdgeEvents(e: KeyEdge): seq<Event> {
    if e.edge == Rise then NoteOns(e.chord) else [ScheduleRelease(e.chord, SustainMillis)]
  }

  function EventsOf(es: seq<KeyEdge>): seq<Event> {
    if es == [] then []
    else EventsOf(es[..|es| - 1]) + EdgeEvents(es[|es| - 1])
  }

  /** The edge one finger takes from `stored` to the observed `flag`, if any. */
  function FingerEdges(stored: Bit, flag: Bit, key: Key, chord: Chord): seq<KeyEdge> {
    if flag == 1 && stored == 0 then [KeyEdge(key, Rise, chord)]
    else if flag == 0 && stored == 1 then [KeyEdge(key, Fall, chord)]
    else []
  }

  /** What one finger name contributes, judged against the stored states `states`. */
  function FingerRef(states: States, side: Side, f: Finger, flag: Bit, t: ChordTable): seq<KeyEdge>
    requires Covers(states, t)
  {
    match ChordOf(t, side, f)
    case None => []
    case Some(c) =>
      KeysMatchLookup(t, (side, f));
      FingerEdges(states[(side, f)], flag, (side, f), c)
  }

  datatype StepResult = StepResult(states: States, edges: seq<KeyEdge>)

  /** One finger name of one hand: a name the table does not map is skipped. */
  function FingerStep(states: States, side: Side, f: Finger, flag: Bit, t: ChordTable): (r: StepResult)
    requires Covers(states, t)
    ensures r.states.Keys == states.Keys
  {
    match ChordOf(t, side, f)
    case None => StepResult(states, [])
    case Some(_) =>
      KeysMatchLookup(t, (side, f));
      StepResult(states[(side, f) := flag], FingerRef(states, side, f, flag, t))
  }

  /** One hand: its finger names in order, the i-th name read with the i-th flag. */
  function HandStep(states: States, side: Side, flags: FlagVector, names: seq<Finger>, t: ChordTable): (r: StepResult)
    requires |names| <= 5 && Covers(states, t)
    ensures r.states.Keys == states.Keys
  {
    if names == [] then StepResult(states, [])
    else
      var n := |names| - 1;
      var before := HandStep(states, side, flags, names[..n], t);
      var last := FingerStep(before.states, side, names[n], flags[n], t);
      StepResult(last.states, before.edges + last.edges)
  }

  /** The hands of a frame, in detection order. */
  function HandsStep(states: States, hands: seq<Hand>, t: ChordTable, src: NameSource): (r: StepResult)
    requires Covers(states, t) && Readable(src, t)
    ensures r.states.Keys == states.Keys
  {
    if hands == [] then StepResult(states, [])
    else
      var n := |hands| - 1;
      var before := HandsStep(states, hands[..n], t, src);
      var side := SideOf(hands[n].kind);
      var last := HandStep(before.states, side, hands[n].flags, FingerNames(src, t, side), t);
      StepResult(last.states, before.edges + last.edges)
  }

  /** The sides of a table, in table order. */
  const TableSides: seq<Side> := [Left, Right]

  function SideReleases(side: Side, bs: seq<Binding>): seq<KeyEdge> {
    seq(|bs|, i requires 0 <= i < |bs| => KeyEdge((side, bs[i].finger), Fall, bs[i].chord))
  }

  function Releases(t: ChordTable, sides: seq<Side>): seq<KeyEdge> {
    if sides == [] then []
    else
      var n := |sides| - 1;
      Releases(t, sides[..n]) + SideReleases(sides[n], t.Bindings(sides[n]))
  }

  /** One more binding of a side adds its release at the end. */
  lemma SideReleasesSnoc(side: Side, bs: seq<Binding>, b: nat)
    requires b < |bs|
    ensures SideReleases(side, bs[..b + 1]) ==
      SideReleases(side, bs[..b]) + [KeyEdge((side, bs[b].finger), Fall, bs[b].chord)]
  {
  }

  /** A release of every chord of the table, side by side in table order. */
  function AllReleases(t: ChordTable): seq<KeyEdge> {
    Releases(t, TableSides)
  }

  /** One frame: its hands, or, when there are none, every chord released and every state reset. */
  function FrameStep(states: States, hands: seq<Hand>, t: ChordTable, src: NameSource): (r: StepResult)
    requires Covers(states, t) && Readable(src, t)
    ensures r.states.Keys == states.Keys
  {
    if hands == [] then StepResult(Zeroed(states), AllReleases(t))
    else HandsStep(states, hands, t, src)
  }

  /** What one hand contributes, each name judged against the states before the hand. */
  function HandEdgesRef(states: States, side: Side, flags: FlagVector, names: seq<Finger>, t: ChordTable): seq<KeyEdge>
    requires |names| <= 5 && Covers(states, t)
  {
    if names == [] then []
    else
      var n := |names| - 1;
      HandEdgesRef(states, side, flags, names[..n], t) + FingerRef(states, side, names[n], flags[n], t)
  }

  // ---------------------------------------------------------------------------
  // The edge log and the "no second note-on without a release" invariant

  /** The last edge `k` took in `log`, if any. */
  function LastEdge(log: seq<KeyEdge>, k: Key): Option<Edge> {
    if log == [] then None
    else if log[|log| - 1].key == k then Some(log[|log| - 1].edge)
    else LastEdge(log[..|log| - 1], k)
  }

  /** A stored state is 1 exactly when the last edge its finger took is a rise whose release is still owed. */
  ghost predicate Consistent(states: States, log: seq<KeyEdge>) {
    forall k | k in states :: states[k] == 1 <==> LastEdge(log, k) == Some(Rise)
  }

  /** Between two rises of one finger there is always a fall of that finger. */
  ghost predicate NoDoublePlay(log: seq<KeyEdge>) {
    forall i, j | 0 <= i < j < |log| && log[i].key == log[j].key && log[i].edge == Rise && log[j].edge == Rise ::
      FallBetween(log, i, j)
  }

  /** The finger of edge i falls somewhere strictly between positions i and j. */
  ghost predicate FallBetween(log: seq<KeyEdge>, i: nat, j: nat)
    requires i < j <= |log|
  {
    exists m | i < m < j :: log[m].key == log[i].key && log[m].edge == Fall
  }

  /** Every edge carries the chord the table maps its finger to. */
  ghost predicate FromTable(es: seq<KeyEdge>, t: ChordTable) {
    forall i | 0 <= i < |es| :: ChordOf(t, es[i].key.0, es[i].key.1) == Some(es[i].chord)
  }

  // ---------------------------------------------------------------------------
  // Lemmas

  lemma {:induction false} EventsOfAppend(a: seq<KeyEdge>, b: seq<KeyEdge>)
    ensures EventsOf(a + b) == EventsOf(a) + EventsOf(b)
    decreases |b|
  {
    if b == [] {
      assert a + b == a;
    } else {
      var n := |b| - 1;
      assert b == b[..n] + [b[n]];
      assert a + b == (a + b[..n]) + [b[n]];
      EventsOfSnoc(a + b[..n], b[n]);
      EventsOfSnoc(b[..n], b[n]);
      EventsOfAppend(a, b[..n]);
      var x, y, z := EventsOf(a), EventsOf(b[..n]), EdgeEvents(b[n]);
      assert x + y + z == x + (y + z);
    }
  }

  lemma EventsOfSnoc(es: seq<KeyEdge>, e: KeyEdge)
    ensures EventsOf(es + [e]) == EventsOf(es) + EdgeEvents(e)
  {
    assert (es + [e])[..|es|] == es;
  }


  lemma HandStepNext(states: States, side: Side, flags: FlagVector, names: seq<Finger>, i: nat, t: ChordTable)
    requires |names| <= 5 && Covers(states, t) && i < |names|
    ensures var before := HandStep(states, side, flags, names[..i], t);
      var last := FingerStep(before.states, side, names[i], flags[i], t);
      HandStep(states, side, flags, names[..i + 1], t) == StepResult(last.states, before.edges + last.edges)
  {
    assert names[..i + 1][..i] == names[..i];
  }

  lemma HandsStepNext(states: States, hands: seq<Hand>, h: nat, t: ChordTable, src: NameSource)
    requires Covers(states, t) && Readable(src, t) && h < |hands|
    ensures var before := HandsStep(states, hands[..h], t, src);
      var side := SideOf(hands[h].kind);
      var last := HandStep(before.states, side, hands[h].flags, FingerNames(src, t, side), t);
      HandsStep(states, hands[..h + 1], t, src) == StepResult(last.states, before.edges + last.edges)
  {
    assert hands[..h + 1][..h] == hands[..h];
  }

  /** One more hand, as the loop over a frame's hands takes it. */
  lemma HandsStepExtend(states: States, hands: seq<Hand>, h: nat, t: ChordTable, src: NameSource,
                        evs: seq<Event>, more: seq<Event>, after: States)
    requires Covers(states, t) && Readable(src, t) && h < |hands|
    requires evs == EventsOf(HandsStep(states, hands[..h], t, src).edges)
    requires var side := SideOf(hands[h].kind);
      var last := HandStep(HandsStep(states, hands[..h], t, src).states, side, hands[h].flags, FingerNames(src, t, side), t);
      after == last.states && more == EventsOf(last.edges)
    ensures var r := HandsStep(states, hands[..h + 1], t, src);
      after == r.states && evs + more == EventsOf(r.edges)
  {
    HandsStepNext(states, hands, h, t, src);
    var before := HandsStep(states, hands[..h], t, src);
    var side := SideOf(hands[h].kind);
    var last := HandStep(before.states, side, hands[h].flags, FingerNames(src, t, side), t);
    EventsOfAppend(before.edges, last.edges);
  }

  lemma EventsOfOne(e: KeyEdge)
    ensures EventsOf([e]) == EdgeEvents(e)
  {
    assert [e][..0] == [];
  }

  /**
    The events of any edge sequence are note-ons at velocity 127 and releases
    scheduled after the sustain time, each release carrying the chord of some
    fall; no note-off is sent directly.
   */
  lemma {:induction false} EventsOfShape(es: seq<KeyEdge>)
    ensures forall i | 0 <= i < |EventsOf(es)| ::
      (EventsOf(es)[i].NoteOn? && EventsOf(es)[i].velocity == Velocity) ||
      (EventsOf(es)[i].ScheduleRelease? && EventsOf(es)[i].delayMillis == SustainMillis &&
       exists j | 0 <= j < |es| :: es[j].edge == Fall && es[j].chord == EventsOf(es)[i].chord)
  {
    if es != [] {
      var n := |es| - 1;
      EventsOfShape(es[..n]);
      var pre := EventsOf(es[..n]);
      var evs := EventsOf(es);
      assert evs == pre + EdgeEvents(es[n]);
      forall i | 0 <= i < |evs|
        ensures (evs[i].NoteOn? && evs[i].velocity == Velocity) ||
          (evs[i].ScheduleRelease? && evs[i].delayMillis == SustainMillis &&
           exists j | 0 <= j < |es| :: es[j].edge == Fall && es[j].chord == evs[i].chord)
      {
        if i < |pre| {
          assert evs[i] == pre[i];
          if pre[i].ScheduleRelease? {
            var j :| 0 <= j < n && es[..n][j].edge == Fall && es[..n][j].chord == pre[i].chord;
            assert es[j] == es[..n][j];
          }
        } else if es[n].edge == Fall {
          assert evs[i] == ScheduleRelease(es[n].chord, SustainMillis);
        }
      }
    }
  }

  /** Edge by edge, the rise of a finger plays its chord and its fall schedules that chord's release. */
  lemma FingerEvents(states: States, side: Side, f: Finger, flag: Bit, t: ChordTable, c: Chord)
    requires Covers(states, t) && ChordOf(t, side, f) == Some(c)
    ensures (side, f) in states
    ensures var r := FingerStep(states, side, f, flag, t);
      && r.states == states[(side, f) := flag]
      && (flag == 1 && states[(side, f)] == 0 ==> EventsOf(r.edges) == NoteOns(c))
      && (flag == 0 && states[(side, f)] == 1 ==> EventsOf(r.edges) == [ScheduleRelease(c, SustainMillis)])
      && (flag == states[(side, f)] ==> r.edges == [])
  {
    KeysMatchLookup(t, (side, f));
    var k := (side, f);
    EventsOfOne(KeyEdge(k, Rise, c));
    EventsOfOne(KeyEdge(k, Fall, c));
  }

  /**
    Processing a hand changes no stored state outside the names read for its
    side: the other side, and names the table does not map, are untouched.
   */
  lemma {:induction false} HandStepFrame(states: States, side: Side, flags: FlagVector, names: seq<Finger>, t: ChordTable)
    requires |names| <= 5 && Covers(states, t)
    ensures var r := HandStep(states, side, flags, names, t);
      forall k | k in states && !(k.0 == side && k.1 in names) :: r.states[k] == states[k]
  {
    if names != [] {
      var n := |names| - 1;
      HandStepFrame(states, side, flags, names[..n], t);
      var before := HandStep(states, side, flags, names[..n], t);
      FingerStepStates(before.states, side, names[n], flags[n], t);
      assert HandStep(states, side, flags, names, t).states == FingerStep(before.states, side, names[n], flags[n], t).states;
      forall k | k in states && !(k.0 == side && k.1 in names)
        ensures HandStep(states, side, flags, names, t).states[k] == states[k]
      {
        assert k.1 in names[..n] ==> k.1 in names;
        assert k != (side, names[n]);
      }
    }
  }

  lemma DistinctPrefix(names: seq<Finger>, n: nat)
    requires DistinctNames(names) && n <= |names|
    ensures DistinctNames(names[..n])
  {
    forall a, b | 0 <= a < b < n ensures names[..n][a] != names[..n][b] {
      assert names[a] != names[b];
    }
  }

  /** A mapped finger stores its observed flag; an unmapped name leaves the states alone. */
  lemma FingerStepStates(states: States, side: Side, f: Finger, flag: Bit, t: ChordTable)
    requires Covers(states, t)
    ensures FingerStep(states, side, f, flag, t).states ==
      if ChordOf(t, side, f).Some? then states[(side, f) := flag] else states
  {
  }

  /** After a hand is processed, each mapped finger it reads stores that finger's observed flag. */
  lemma HandStepRecords(states: States, side: Side, flags: FlagVector, names: seq<Finger>, t: ChordTable)
    requires |names| <= 5 && Covers(states, t) && DistinctNames(names)
    ensures var r := HandStep(states, side, flags, names, t);
      forall i | 0 <= i < |names| && ChordOf(t, side, names[i]).Some? :: r.states[(side, names[i])] == flags[i]
  {
    forall i | 0 <= i < |names| && ChordOf(t, side, names[i]).Some?
      ensures HandStep(states, side, flags, names, t).states[(side, names[i])] == flags[i]
    {
      HandStepRecordsAt(states, side, flags, names, t, i);
    }
  }

  lemma {:induction false} HandStepRecordsAt(states: States, side: Side, flags: FlagVector, names: seq<Finger>, t: ChordTable, i: nat)
    requires |names| <= 5 && Covers(states, t) && DistinctNames(names)
    requires i < |names| && ChordOf(t, side, names[i]).Some?
    ensures (side, names[i]) in states
    ensures HandStep(states, side, flags, names, t).states[(side, names[i])] == flags[i]
    decreases |names|
  {
    KeysMatchLookup(t, (side, names[i]));
    var n := |names| - 1;
    var before := HandStep(states, side, flags, names[..n], t);
    FingerStepStates(before.states, side, names[n], flags[n], t);
    assert HandStep(states, side, flags, names, t).states == FingerStep(before.states, side, names[n], flags[n], t).states;
    if i < n {
      assert names[..n][i] == names[i];
      assert names[i] != names[n];
      DistinctPrefix(names, n);
      HandStepRecordsAt(states, side, flags, names[..n], t, i);
    }
  }

  /**
    Within one hand, each name is judged against the stored state from before
    the hand: the hand's edges are the concatenation, in name order, of what
    each finger contributes on its own.
   */
  lemma {:induction false} HandStepEdges(states: States, side: Side, flags: FlagVector, names: seq<Finger>, t: ChordTable)
    requires |names| <= 5 && Covers(states, t) && DistinctNames(names)
    ensures HandStep(states, side, flags, names, t).edges == HandEdgesRef(states, side, flags, names, t)
  {
    if names != [] {
      var n := |names| - 1;
      DistinctPrefix(names, n);
      HandStepEdges(states, side, flags, names[..n], t);
      HandStepFrame(states, side, flags, names[..n], t);
      var before := HandStep(states, side, flags, names[..n], t);
      assert HandStep(states, side, flags, names, t).edges ==
        before.edges + FingerStep(before.states, side, names[n], flags[n], t).edges;
      assert names[n] !in names[..n];
      if ChordOf(t, side, names[n]).Some? {
        KeysMatchLookup(t, (side, names[n]));
        assert before.states[(side, names[n])] == states[(side, names[n])];
      }
    }
  }

  lemma {:induction false} SettledHandHasNoEdges(states: States, side: Side, flags: FlagVector, names: seq<Finger>, t: ChordTable)
    requires |names| <= 5 && Covers(states, t)
    requires forall i | 0 <= i < |names| && ChordOf(t, side, names[i]).Some? :: (side, names[i]) in states && states[(side, names[i])] == flags[i]
    ensures HandEdgesRef(states, side, flags, names, t) == []
  {
    if names != [] {
      var n := |names| - 1;
      forall i | 0 <= i < n && ChordOf(t, side, names[..n][i]).Some?
        ensures (side, names[..n][i]) in states && states[(side, names[..n][i])] == flags[i]
      {
        assert names[..n][i] == names[i];
      }
      SettledHandHasNoEdges(states, side, flags, names[..n], t);
    }
  }

  /**
    Seeing the same hand again changes nothing: a sustained extension (or
    retraction) emits no second note-on (or release) and stores nothing new.
   */
  lemma HandStepSustained(states: States, side: Side, flags: FlagVector, names: seq<Finger>, t: ChordTable)
    requires |names| <= 5 && Covers(states, t) && DistinctNames(names)
    ensures var r := HandStep(states, side, flags, names, t);
      HandStep(r.states, side, flags, names, t) == StepResult(r.states, [])
  {
    var r := HandStep(states, side, flags, names, t);
    HandStepRecords(states, side, flags, names, t);
    forall i | 0 <= i < |names| && ChordOf(t, side, names[i]).Some?
      ensures (side, names[i]) in r.states && r.states[(side, names[i])] == flags[i]
    {
      KeysMatchLookup(t, (side, names[i]));
    }
    SettledHandStepsNothing(r.states, side, flags, names, t);
  }

  /** A hand whose mapped names already store its flags takes no edge and stores nothing new. */
  lemma SettledHandStepsNothing(states: States, side: Side, flags: FlagVector, names: seq<Finger>, t: ChordTable)
    requires |names| <= 5 && Covers(states, t) && DistinctNames(names)
    requires forall i | 0 <= i < |names| && ChordOf(t, side, names[i]).Some? :: (side, names[i]) in states && states[(side, names[i])] == flags[i]
    ensures HandStep(states, side, flags, names, t) == StepResult(states, [])
  {
    HandStepEdges(states, side, flags, names, t);
    SettledHandHasNoEdges(states, side, flags, names, t);
    var r := HandStep(states, side, flags, names, t);
    HandStepRecords(states, side, flags, names, t);
    HandStepFrame(states, side, flags, names, t);
    forall k | k in states
      ensures r.states[k] == states[k]
    {
      if k.0 == side && k.1 in names {
        var i :| 0 <= i < |names| && names[i] == k.1;
        KeysMatchLookup(t, k);
      }
    }
  }

  /** Only the first |names| flags are read: the others do not affect the step. */
  lemma {:induction false} HandStepIgnoresUnreadFlags(states: States, side: Side, flags1: FlagVector, flags2: FlagVector,
                                                      names: seq<Finger>, t: ChordTable)
    requires |names| <= 5 && Covers(states, t)
    requires flags1[..|names|] == flags2[..|names|]
    ensures HandStep(states, side, flags1, names, t) == HandStep(states, side, flags2, names, t)
  {
    if names != [] {
      var n := |names| - 1;
      assert flags1[..n] == flags1[..|names|][..n];
      assert flags2[..n] == flags2[..|names|][..n];
      assert flags1[n] == flags1[..|names|][n];
      assert flags2[n] == flags2[..|names|][n];
      HandStepIgnoresUnreadFlags(states, side, flags1, flags2, names[..n], t);
    }
  }

  // --- the edge log

  lemma {:induction false} LastEdgeAt(log: seq<KeyEdge>, i: nat)
    requires i < |log|
    ensures exists m | i <= m < |log| :: log[m].key == log[i].key && LastEdge(log, log[i].key) == Some(log[m].edge)
  {
    var n := |log| - 1;
    if log[n].key != log[i].key {
      assert i < n;
      assert log[..n][i] == log[i];
      LastEdgeAt(log[..n], i);
      var m :| i <= m < n && log[..n][m].key == log[i].key && LastEdge(log[..n], log[i].key) == Some(log[..n][m].edge);
      assert log[m] == log[..n][m];
    }
  }

  lemma LastEdgeAppend(log: seq<KeyEdge>, e: KeyEdge, k: Key)
    ensures LastEdge(log + [e], k) == if e.key == k then Some(e.edge) else LastEdge(log, k)
  {
    assert (log + [e])[..|log|] == log;
  }

  /** A fall found in a log is still there once the log is extended. */
  lemma FallBetweenExtended(log: seq<KeyEdge>, more: seq<KeyEdge>, i: nat, j: nat)
    requires i < j <= |log| && FallBetween(log, i, j)
    ensures FallBetween(log + more, i, j)
  {
    var m :| i < m < j && log[m].key == log[i].key && log[m].edge == Fall;
    assert (log + more)[m] == log[m] && (log + more)[i] == log[i];
  }

  /** Appending an edge keeps the log free of double plays, provided a rise does not follow a rise. */
  lemma AppendKeepsNoDoublePlay(log: seq<KeyEdge>, e: KeyEdge)
    requires NoDoublePlay(log)
    requires e.edge == Rise ==> LastEdge(log, e.key) != Some(Rise)
    ensures NoDoublePlay(log + [e])
  {
    var l := log + [e];
    forall i, j | 0 <= i < j < |l| && l[i].key == l[j].key && l[i].edge == Rise && l[j].edge == Rise
      ensures FallBetween(l, i, j)
    {
      assert l[i] == log[i];
      if j < |log| {
        assert log[j] == l[j];
        FallBetweenExtended(log, [e], i, j);
      } else {
        LastEdgeAt(log, i);
        var m :| i <= m < |log| && log[m].key == log[i].key && LastEdge(log, log[i].key) == Some(log[m].edge);
        assert l[m] == log[m];
      }
    }
  }

  lemma FingerStepKeeps(states: States, log: seq<KeyEdge>, side: Side, f: Finger, flag: Bit, t: ChordTable)
    requires Covers(states, t) && Consistent(states, log) && NoDoublePlay(log)
    ensures var r := FingerStep(states, side, f, flag, t);
      Consistent(r.states, log + r.edges) && NoDoublePlay(log + r.edges)
  {
    var r := FingerStep(states, side, f, flag, t);
    match ChordOf(t, side, f)
    case None =>
      assert log + r.edges == log;
    case Some(c) =>
      var k := (side, f);
      KeysMatchLookup(t, k);
      assert r == StepResult(states[k := flag], FingerEdges(states[k], flag, k, c));
      if flag == states[k] {
        assert r.states == states && log + r.edges == log;
      } else {
        var e := KeyEdge(k, if flag == 1 then Rise else Fall, c);
        assert r.edges == [e];
        OneEdgeKeeps(states, log, e);
      }
  }

  /** Taking one edge, and storing the flag it leads to, keeps both invariants. */
  lemma OneEdgeKeeps(states: States, log: seq<KeyEdge>, e: KeyEdge)
    requires Consistent(states, log) && NoDoublePlay(log)
    requires e.key in states && (e.edge == Rise ==> states[e.key] == 0)
    ensures var after := states[e.key := if e.edge == Rise then 1 else 0];
      Consistent(after, log + [e]) && NoDoublePlay(log + [e])
  {
    var after := states[e.key := if e.edge == Rise then 1 else 0];
    AppendKeepsNoDoublePlay(log, e);
    forall k | k in after
      ensures after[k] == 1 <==> LastEdge(log + [e], k) == Some(Rise)
    {
      LastEdgeAppend(log, e, k);
    }
  }

  lemma KeepsAssociative(states: States, log: seq<KeyEdge>, a: seq<KeyEdge>, b: seq<KeyEdge>)
    requires Consistent(states, log + a + b) && NoDoublePlay(log + a + b)
    ensures Consistent(states, log + (a + b)) && NoDoublePlay(log + (a + b))
  {
    assert log + a + b == log + (a + b);
  }

  lemma {:induction false} HandStepKeeps(states: States, log: seq<KeyEdge>, side: Side, flags: FlagVector, names: seq<Finger>, t: ChordTable)
    requires |names| <= 5 && Covers(states, t) && Consistent(states, log) && NoDoublePlay(log)
    ensures var r := HandStep(states, side, flags, names, t);
      Consistent(r.states, log + r.edges) && NoDoublePlay(log + r.edges)
  {
    if names == [] {
      assert log + [] == log;
    } else {
      var n := |names| - 1;
      HandStepKeeps(states, log, side, flags, names[..n], t);
      var before := HandStep(states, side, flags, names[..n], t);
      FingerStepKeeps(before.states, log + before.edges, side, names[n], flags[n], t);
      var last := FingerStep(before.states, side, names[n], flags[n], t);
      KeepsAssociative(last.states, log, before.edges, last.edges);
    }
  }

  lemma {:induction false} HandsStepKeeps(states: States, log: seq<KeyEdge>, hands: seq<Hand>, t: ChordTable, src: NameSource)
    requires Covers(states, t) && Readable(src, t) && Consistent(states, log) && NoDoublePlay(log)
    ensures var r := HandsStep(states, hands, t, src);
      Consistent(r.states, log + r.edges) && NoDoublePlay(log + r.edges)
  {
    if hands == [] {
      assert log + [] == log;
    } else {
      var n := |hands| - 1;
      HandsStepKeeps(states, log, hands[..n], t, src);
      var before := HandsStep(states, hands[..n], t, src);
      var side := SideOf(hands[n].kind);
      var names := FingerNames(src, t, side);
      HandStepKeeps(before.states, log + before.edges, side, hands[n].flags, names, t);
      var last := HandStep(before.states, side, hands[n].flags, names, t);
      KeepsAssociative(last.states, log, before.edges, last.edges);
    }
  }

  lemma AllReleasesSplit(t: ChordTable)
    ensures AllReleases(t) == SideReleases(Left, t.left) + SideReleases(Right, t.right)
  {
    assert TableSides[..1] == [Left];
    assert [Left][..0] == [];
    assert Releases(t, [Left]) == SideReleases(Left, t.left);
  }

  lemma {:induction false} LastEdgeOfFalls(log: seq<KeyEdge>, rels: seq<KeyEdge>, k: Key)
    requires forall i | 0 <= i < |rels| :: rels[i].edge == Fall
    requires exists i | 0 <= i < |rels| :: rels[i].key == k
    ensures LastEdge(log + rels, k) == Some(Fall)
  {
    var n := |rels| - 1;
    if rels[n].key != k {
      var i :| 0 <= i < |rels| && rels[i].key == k;
      assert rels[..n][i] == rels[i];
      LastEdgeOfFalls(log, rels[..n], k);
      assert (log + rels)[..|log + rels| - 1] == log + rels[..n];
    }
  }

  lemma ReleasesCoverKeys(t: ChordTable, k: Key)
    requires k in Keys(t)
    ensures exists i | 0 <= i < |AllReleases(t)| :: AllReleases(t)[i].key == k
  {
    AllReleasesSplit(t);
    var l := SideReleases(Left, t.left);
    var all := AllReleases(t);
    if k in SideKeys(Left, t.left) {
      var i :| 0 <= i < |t.left| && k == (Left, t.left[i].finger);
      assert all[i] == l[i];
    } else {
      var i :| 0 <= i < |t.right| && k == (Right, t.right[i].finger);
      assert all[|l| + i] == SideReleases(Right, t.right)[i];
    }
  }

  lemma NoHandsKeeps(states: States, log: seq<KeyEdge>, t: ChordTable)
    requires Covers(states, t) && NoDoublePlay(log)
    ensures Consistent(Zeroed(states), log + AllReleases(t)) && NoDoublePlay(log + AllReleases(t))
  {
    var rels := AllReleases(t);
    AllReleasesSplit(t);
    assert forall i | 0 <= i < |rels| :: rels[i].edge == Fall;
    forall k | k in Zeroed(states)
      ensures LastEdge(log + rels, k) == Some(Fall)
    {
      ReleasesCoverKeys(t, k);
      LastEdgeOfFalls(log, rels, k);
    }
    var l := log + rels;
    forall i, j | 0 <= i < j < |l| && l[i].key == l[j].key && l[i].edge == Rise && l[j].edge == Rise
      ensures FallBetween(l, i, j)
    {
      assert j < |log|;
      assert l[i] == log[i] && l[j] == log[j];
      FallBetweenExtended(log, rels, i, j);
    }
  }

  /**
    Every frame keeps the stored states consistent with the edge log, and the
    log free of double plays: a finger's chord is never played a second time
    without a release of that finger scheduled in between.
   */
  lemma FrameStepKeeps(states: States, log: seq<KeyEdge>, hands: seq<Hand>, t: ChordTable, src: NameSource)
    requires Covers(states, t) && Readable(src, t) && Consistent(states, log) && NoDoublePlay(log)
    ensures var r := FrameStep(states, hands, t, src);
      Consistent(r.states, log + r.edges) && NoDoublePlay(log + r.edges)
  {
    if hands == [] {
      NoHandsKeeps(states, log, t);
    } else {
      HandsStepKeeps(states, log, hands, t, src);
    }
  }

  /** The freshly initialised states agree with the empty log. */
  lemma InitiallyConsistent(t: ChordTable)
    ensures Consistent(ZeroStates(t), []) && NoDoublePlay([])
  {
  }

  /**
    A frame without hands releases every chord of the table exactly once,
    falls only, whatever the stored states were, and resets every state to 0.
   */
  lemma NoHandsReleasesEveryKey(states: States, t: ChordTable, src: NameSource)
    requires Covers(states, t) && Readable(src, t) && WellFormed(t)
    ensures var r := FrameStep(states, [], t, src);
      && r.states.Keys == states.Keys
      && (forall k | k in r.states :: r.states[k] == 0)
      && |r.edges| == |t.left| + |t.right|
      && (forall i | 0 <= i < |r.edges| :: r.edges[i].edge == Fall)
      && FromTable(r.edges, t)
      && (forall k | k in states :: exists i | 0 <= i < |r.edges| :: r.edges[i].key == k)
      && (forall i, j | 0 <= i < j < |r.edges| :: r.edges[i].key != r.edges[j].key)
  {
    var rels := AllReleases(t);
    AllReleasesSplit(t);
    forall k | k in states
      ensures exists i | 0 <= i < |rels| :: rels[i].key == k
    {
      ReleasesCoverKeys(t, k);
    }
    ReleasesFromTable(t);
    ReleasesDistinct(t);
  }

  /** Each release carries the chord its table maps its finger to. */
  lemma ReleasesFromTable(t: ChordTable)
    requires WellFormed(t)
    ensures FromTable(AllReleases(t), t)
  {
    var rels := AllReleases(t);
    AllReleasesSplit(t);
    var nl := |t.left|;
    forall i | 0 <= i < |rels|
      ensures ChordOf(t, rels[i].key.0, rels[i].key.1) == Some(rels[i].chord)
    {
      if i < nl {
        LookupListed(t.left, i);
      } else {
        LookupListed(t.right, i - nl);
      }
    }
  }

  /** No finger is released twice in one frame without hands. */
  lemma ReleasesDistinct(t: ChordTable)
    requires WellFormed(t)
    ensures var rels := AllReleases(t);
      forall i, j | 0 <= i < j < |rels| :: rels[i].key != rels[j].key
  {
    var rels := AllReleases(t);
    AllReleasesSplit(t);
    var nl := |t.left|;
    forall i, j | 0 <= i < j < |rels|
      ensures rels[i].key != rels[j].key
    {
      if j < nl {
        assert t.left[i].finger != t.left[j].finger;
      } else if nl <= i {
        assert t.right[i - nl].finger != t.right[j - nl].finger;
      }
    }
  }


  lemma FromTableAppend(a: seq<KeyEdge>, b: seq<KeyEdge>, t: ChordTable)
    requires FromTable(a, t) && FromTable(b, t)
    ensures FromTable(a + b, t)
  {
    var es := a + b;
    forall i | 0 <= i < |es|
      ensures ChordOf(t, es[i].key.0, es[i].key.1) == Some(es[i].chord)
    {
      if i < |a| {
        assert es[i] == a[i];
      } else {
        assert es[i] == b[i - |a|];
      }
    }
  }

  lemma FingerStepFromTable(states: States, side: Side, f: Finger, flag: Bit, t: ChordTable)
    requires Covers(states, t)
    ensures FromTable(FingerStep(states, side, f, flag, t).edges, t)
  {
    match ChordOf(t, side, f)
    case None =>
    case Some(c) =>
      KeysMatchLookup(t, (side, f));
      var es := FingerEdges(states[(side, f)], flag, (side, f), c);
      assert FingerStep(states, side, f, flag, t).edges == es;
      assert forall i | 0 <= i < |es| :: es[i].key == (side, f) && es[i].chord == c;
  }

  lemma {:induction false} HandStepFromTable(states: States, side: Side, flags: FlagVector, names: seq<Finger>, t: ChordTable)
    requires |names| <= 5 && Covers(states, t)
    ensures FromTable(HandStep(states, side, flags, names, t).edges, t)
  {
    if names != [] {
      var n := |names| - 1;
      HandStepFromTable(states, side, flags, names[..n], t);
      var before := HandStep(states, side, flags, names[..n], t);
      var last := FingerStep(before.states, side, names[n], flags[n], t);
      FingerStepFromTable(before.states, side, names[n], flags[n], t);
      FromTableAppend(before.edges, last.edges, t);
    }
  }

  /** A finger's edge, if any, belongs to that finger. */
  lemma FingerStepKey(states: States, side: Side, f: Finger, flag: Bit, t: ChordTable)
    requires Covers(states, t)
    ensures var es := FingerStep(states, side, f, flag, t).edges;
      forall i | 0 <= i < |es| :: es[i].key == (side, f)
  {
    match ChordOf(t, side, f)
    case None =>
    case Some(c) =>
      KeysMatchLookup(t, (side, f));
      var es := FingerEdges(states[(side, f)], flag, (side, f), c);
      assert FingerStep(states, side, f, flag, t).edges == es;
  }

  /**
    The membership test on the names read: every edge a hand takes belongs to
    its own side and to a name it reads that the side's table binds, so a name
    the table leaves out never takes an edge.
   */
  lemma {:induction false} HandStepSkipsUnbound(states: States, side: Side, flags: FlagVector, names: seq<Finger>, t: ChordTable)
    requires |names| <= 5 && Covers(states, t)
    ensures forall e | e in HandStep(states, side, flags, names, t).edges ::
      e.key.0 == side && e.key.1 in names && ChordOf(t, side, e.key.1).Some?
  {
    if names != [] {
      var n := |names| - 1;
      HandStepSkipsUnbound(states, side, flags, names[..n], t);
      var before := HandStep(states, side, flags, names[..n], t);
      var last := FingerStep(before.states, side, names[n], flags[n], t);
      FingerStepKey(before.states, side, names[n], flags[n], t);
      FingerStepFromTable(before.states, side, names[n], flags[n], t);
      var es := before.edges + last.edges;
      assert HandStep(states, side, flags, names, t).edges == es;
      forall e | e in es
        ensures e.key.0 == side && e.key.1 in names && ChordOf(t, side, e.key.1).Some?
      {
        if e in before.edges {
          assert e.key.1 in names[..n];
        } else {
          var j :| 0 <= j < |last.edges| && last.edges[j] == e;
        }
      }
    }
  }

  lemma {:induction false} HandsStepFromTable(states: States, hands: seq<Hand>, t: ChordTable, src: NameSource)
    requires Covers(states, t) && Readable(src, t)
    ensures FromTable(HandsStep(states, hands, t, src).edges, t)
  {
    if hands != [] {
      var n := |hands| - 1;
      HandsStepFromTable(states, hands[..n], t, src);
      var before := HandsStep(states, hands[..n], t, src);
      var side := SideOf(hands[n].kind);
      var names := FingerNames(src, t, side);
      HandStepFromTable(before.states, side, hands[n].flags, names, t);
      var last := HandStep(before.states, side, hands[n].flags, names, t);
      FromTableAppend(before.edges, last.edges, t);
    }
  }

  /**
    Every chord a frame plays or schedules for release is the one the table
    in force for that frame maps the finger to: a release captures its pitch
    list when it is scheduled.
   */
  lemma FrameStepFromTable(states: States, hands: seq<Hand>, t: ChordTable, src: NameSource)
    requires Covers(states, t) && Readable(src, t) && WellFormed(t)
    ensures FromTable(FrameStep(states, hands, t, src).edges, t)
  {
    if hands == [] {
      NoHandsReleasesEveryKey(states, t, src);
    } else {
      HandsStepFromTable(states, hands, t, src);
    }
  }
}
