/**
  The stored finger states as the applications keep them: a mutable map
  updated in place, finger by finger, while a frame's hands are walked. A
  ghost log records every edge taken, so that the object invariant can say
  that a chord is never played twice without a release in between.
 */
module Tracker {
  import opened Wrappers
  import opened Chords
  import opened Midi
  import opened Gesture

  class FingerTracker {
    /** prev_states: the last observed flag of each (side, finger) the table maps. */
    var states: States
    /** Every edge taken so far, in order. */
    ghost var log: seq<KeyEdge>

    ghost predicate Valid()
      reads this
    {
      Consistent(states, log) && NoDoublePlay(log)
    }

    /** Every mapped finger of `t` starts retracted. */
    constructor (t: ChordTable)
      ensures Valid()
      ensures states == ZeroStates(t) && log == []
    {
      states := ZeroStates(t);
      log := [];
      InitiallyConsistent(t);
    }

    /** One finger name of one hand: a name the table does not map is skipped. */
    method ProcessFinger(side: Side, f: Finger, flag: Bit, t: ChordTable) returns (evs: seq<Event>)
      requires Covers(states, t)
      modifies this
      ensures var r := FingerStep(old(states), side, f, flag, t);
        states == r.states && evs == EventsOf(r.edges)
      ensures log == old(log)
    {
      evs := [];
      var chord := ChordOf(t, side, f);
      if chord.Some? {
        KeysMatchLookup(t, (side, f));
        var stored := states[(side, f)];
        ghost var edges := FingerEdges(stored, flag, (side, f), chord.value);
        assert FingerStep(states, side, f, flag, t) == StepResult(states[(side, f) := flag], edges);
        if flag == 1 && stored == 0 {
          evs := PlayChord(chord.value);
          assert evs == NoteOns(chord.value);
          EventsOfOne(KeyEdge((side, f), Rise, chord.value));
        } else if flag == 0 && stored == 1 {
          evs := [ScheduleRelease(chord.value, SustainMillis)];
          EventsOfOne(KeyEdge((side, f), Fall, chord.value));
        }
        states := states[(side, f) := flag];
      }
    }

    /** One hand of a frame: each name read for its side, the i-th with the i-th flag. */
    method ProcessHand(side: Side, flags: FlagVector, names: seq<Finger>, t: ChordTable) returns (evs: seq<Event>)
      requires Covers(states, t) && |names| <= 5
      modifies this
      ensures var r := HandStep(old(states), side, flags, names, t);
        states == r.states && evs == EventsOf(r.edges)
      ensures log == old(log)
    {
      evs := [];
      ghost var s0 := states;
      var i := 0;
      while i < |names|
        invariant 0 <= i <= |names| && Covers(states, t) && log == old(log)
        invariant var r := HandStep(s0, side, flags, names[..i], t);
          states == r.states && evs == EventsOf(r.edges)
      {
        HandStepNext(s0, side, flags, names, i, t);
        ghost var before := HandStep(s0, side, flags, names[..i], t);
        var more := ProcessFinger(side, names[i], flags[i], t);
        ghost var last := FingerStep(before.states, side, names[i], flags[i], t);
        EventsOfAppend(before.edges, last.edges);
        evs := evs + more;
        i := i + 1;
      }
      assert names[..|names|] == names;
    }

    /**
      One frame (the edge-detection body of hand_tracking_loop): the hands in
      detection order or, when no hand is seen, a release scheduled for every
      chord of the table and every stored state reset to 0.
     */
    method ProcessFrame(hands: seq<Hand>, t: ChordTable, src: NameSource) returns (evs: seq<Event>)
      requires Valid() && Covers(states, t) && Readable(src, t)
      modifies this
      ensures Valid()
      ensures var r := FrameStep(old(states), hands, t, src);
        states == r.states && log == old(log) + r.edges && evs == EventsOf(r.edges)
    {
      FrameStepKeeps(states, log, hands, t, src);
      ghost var edges := FrameStep(states, hands, t, src).edges;
      if |hands| > 0 {
        evs := ProcessHands(hands, t, src);
      } else {
        evs := ScheduleAllReleases(t);
        ResetStates();
      }
      log := log + edges;
    }

    /** The hands of a frame, in detection order. */
    method ProcessHands(hands: seq<Hand>, t: ChordTable, src: NameSource) returns (evs: seq<Event>)
      requires Covers(states, t) && Readable(src, t)
      modifies this
      ensures var r := HandsStep(old(states), hands, t, src);
        states == r.states && evs == EventsOf(r.edges)
      ensures log == old(log)
    {
      evs := [];
      ghost var s0 := states;
      var h := 0;
      while h < |hands|
        invariant 0 <= h <= |hands| && Covers(states, t) && log == old(log)
        invariant var r := HandsStep(s0, hands[..h], t, src);
          states == r.states && evs == EventsOf(r.edges)
      {
        var side := SideOf(hands[h].kind);
        var names := FingerNames(src, t, side);
        assert |names| <= 5 by { assert side == Left || side == Right; }
        var more := ProcessHand(side, hands[h].flags, names, t);
        HandsStepExtend(s0, hands, h, t, src, evs, more, states);
        evs := evs + more;
        h := h + 1;
      }
      assert hands[..|hands|] == hands;
    }

    /** A release scheduled for every chord of the table, side by side. */
    static method ScheduleAllReleases(t: ChordTable) returns (evs: seq<Event>)
      ensures evs == EventsOf(AllReleases(t))
    {
      evs := [];
      for s := 0 to |TableSides|
        invariant evs == EventsOf(Releases(t, TableSides[..s]))
      {
        assert TableSides[..s + 1][..s] == TableSides[..s];
        var side := TableSides[s];
        var more := ScheduleSideReleases(side, t.Bindings(side));
        EventsOfAppend(Releases(t, TableSides[..s]), SideReleases(side, t.Bindings(side)));
        evs := evs + more;
      }
      assert TableSides[..|TableSides|] == TableSides;
    }

    /** A release scheduled for every chord of one side, finger by finger. */
    static method ScheduleSideReleases(side: Side, bs: seq<Binding>) returns (evs: seq<Event>)
      ensures evs == EventsOf(SideReleases(side, bs))
    {
      evs := [];
      for b := 0 to |bs|
        invariant evs == EventsOf(SideReleases(side, bs[..b]))
      {
        ghost var rel := KeyEdge((side, bs[b].finger), Fall, bs[b].chord);
        SideReleasesSnoc(side, bs, b);
        EventsOfAppend(SideReleases(side, bs[..b]), [rel]);
        EventsOfOne(rel);
        evs := evs + [ScheduleRelease(bs[b].chord, SustainMillis)];
      }
      assert bs[..|bs|] == bs;
    }

    /** Every stored state set back to 0, key by key. */
    method ResetStates()
      modifies this
      ensures states == Zeroed(old(states)) && log == old(log)
    {
      var todo := states.Keys;
      while todo != {}
        invariant todo <= states.Keys && states.Keys == old(states).Keys
        invariant forall k | k in states && k !in todo :: states[k] == 0
        invariant forall k | k in todo :: states[k] == old(states)[k]
        invariant log == old(log)
        decreases todo
      {
        var k :| k in todo;
        states := states[k := 0];
        todo := todo - {k};
      }
    }
  }
}
