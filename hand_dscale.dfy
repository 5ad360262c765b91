/**
  The hand_dscale application: one chord table with all five fingers on each
  side, and a hand-tracking step that reads the same fixed list of five
  finger names for either side, skipping any name the side's table does not
  bind.
 */
module HandDScale {
  import opened Wrappers
  import opened Chords
  import opened Midi
  import opened Gesture
  import opened Tracker

  /** Thumb to pinky: D, E, F#, G and A triads; the right pinky's top note is 98 instead of 76. */
  const DScale := ChordTable(
    [Binding(Thumb, [62, 66, 69]), Binding(Index, [64, 67, 71]), Binding(Middle, [66, 69, 73]),
     Binding(Ring, [67, 71, 74]), Binding(Pinky, [69, 73, 76])],
    [Binding(Thumb, [62, 66, 69]), Binding(Index, [64, 67, 71]), Binding(Middle, [66, 69, 73]),
     Binding(Ring, [67, 71, 74]), Binding(Pinky, [69, 73, 98])])

  /** The finger names read for either side, paired with the flags in this order. */
  const FiveNames := [Thumb, Index, Middle, Ring, Pinky]

  const Names := Fixed(FiveNames)

  /** All ten (side, finger) pairs. */
  const TenPairs: set<Key> := {(Left, Thumb), (Left, Index), (Left, Middle), (Left, Ring), (Left, Pinky),
                               (Right, Thumb), (Right, Index), (Right, Middle), (Right, Ring), (Right, Pinky)}

  lemma FiveFingerKeys(side: Side, bs: seq<Binding>)
    requires Fingers(bs) == FiveNames
    ensures SideKeys(side, bs) == {(side, Thumb), (side, Index), (side, Middle), (side, Ring), (side, Pinky)}
  {
    assert Fingers(bs)[0] == Thumb && Fingers(bs)[1] == Index && Fingers(bs)[2] == Middle;
    assert Fingers(bs)[3] == Ring && Fingers(bs)[4] == Pinky;
    assert (side, bs[0].finger) in SideKeys(side, bs);
    assert (side, bs[1].finger) in SideKeys(side, bs);
    assert (side, bs[2].finger) in SideKeys(side, bs);
    assert (side, bs[3].finger) in SideKeys(side, bs);
    assert (side, bs[4].finger) in SideKeys(side, bs);
  }

  /**
    The table binds each of the five names once per side, so every one of
    the ten (side, finger) pairs is stored, and the fixed names can be read
    against it.
   */
  lemma TableShape()
    ensures WellFormed(DScale) && Readable(Names, DScale) && DistinctNames(FiveNames)
    ensures Fingers(DScale.left) == FiveNames && Fingers(DScale.right) == FiveNames
    ensures Keys(DScale) == TenPairs
  {
    TableFingers();
    FiveFingersDistinct(DScale.left);
    FiveFingersDistinct(DScale.right);
    FiveFingerKeys(Left, DScale.left);
    FiveFingerKeys(Right, DScale.right);
  }

  lemma TableFingers()
    ensures Fingers(DScale.left) == FiveNames && Fingers(DScale.right) == FiveNames
  {
  }

  lemma FiveFingersDistinct(bs: seq<Binding>)
    requires Fingers(bs) == FiveNames
    ensures DistinctFingers(bs)
  {
    forall i, j | 0 <= i < j < |bs|
      ensures bs[i].finger != bs[j].finger
    {
      assert Fingers(bs)[i] == bs[i].finger && Fingers(bs)[j] == bs[j].finger;
    }
  }

  /** Initially all ten (side, finger) pairs are stored as 0. */
  lemma InitialStates()
    ensures ZeroStates(DScale).Keys == TenPairs
    ensures forall k | k in ZeroStates(DScale) :: ZeroStates(DScale)[k] == 0
  {
    TableShape();
  }

  /** With this table each of the five fixed names is bound on both sides, so the membership test always passes. */
  lemma EveryNameBound(side: Side, i: nat)
    requires i < 5
    ensures ChordOf(DScale, side, FiveNames[i]).Some?
  {
    TableShape();
    KeysMatchLookup(DScale, (side, FiveNames[i]));
  }

  /** The application state the tracking loop keeps. */
  class App {
    /** prev_states, with the log of edges taken */
    const tracker: FingerTracker

    ghost predicate Valid()
      reads this, tracker
    {
      tracker.Valid() && Covers(tracker.states, DScale)
    }

    /** Every finger starts retracted. */
    constructor ()
      ensures Valid() && fresh(tracker)
      ensures tracker.states == ZeroStates(DScale) && tracker.log == []
    {
      tracker := new FingerTracker(DScale);
    }

    /**
      One frame of hand_tracking_loop: its hands in detection order, the
      five fixed names read against the hand's side; or, without hands,
      every chord released and every state reset.
     */
    method HandTrackingFrame(hands: seq<Hand>) returns (evs: seq<Event>)
      requires Valid()
      modifies tracker
      ensures Valid()
      ensures var r := FrameStep(old(tracker.states), hands, DScale, Names);
        tracker.states == r.states && tracker.log == old(tracker.log) + r.edges && evs == EventsOf(r.edges)
    {
      TableShape();
      evs := tracker.ProcessFrame(hands, DScale, Names);
    }
  }

  /**
    A frame without hands schedules exactly ten releases, one for each
    (side, finger) with that pair's chord, and leaves all ten states at 0.
   */
  lemma NoHandsTenReleases(states: States)
    requires states.Keys == TenPairs
    ensures Covers(states, DScale) && Readable(Names, DScale)
    ensures var r := FrameStep(states, [], DScale, Names);
      && |r.edges| == 10
      && (forall i | 0 <= i < 10 :: r.edges[i].edge == Fall)
      && FromTable(r.edges, DScale)
      && (forall k | k in states :: r.states[k] == 0)
      && (forall k | k in states :: exists i | 0 <= i < 10 :: r.edges[i].key == k)
  {
    TableShape();
    NoHandsReleasesEveryKey(states, DScale, Names);
  }
}
