/**
  The recodes application: three instrument tables (guitar, sitar, drum)
  that share their finger names, the instrument currently in force, the
  route that switches it, and the hand-tracking step that reads the finger
  names of each side from the current instrument's table, in table order.
 */
module Recodes {
  import opened Wrappers
  import opened Chords
  import opened Midi
  import opened Gesture
  import opened Tracker

  /** The guitar: D major, E minor and G major on the left, A major, B minor and F# minor on the right. */
  const Guitar := ChordTable(
    [Binding(Thumb, [26, 86, 59]), Binding(Index, [68, 62, 41]), Binding(Middle, [46, 29, 24])],
    [Binding(Thumb, [69, 73, 76]), Binding(Index, [71, 74, 78]), Binding(Middle, [73, 76, 80])])

  /** The sitar: C major, D minor and E major on the left, F major, G minor and A major on the right. */
  const Sitar := ChordTable(
    [Binding(Thumb, [60, 64, 67]), Binding(Index, [62, 65, 69]), Binding(Middle, [64, 67, 71])],
    [Binding(Thumb, [65, 69, 72]), Binding(Index, [67, 70, 74]), Binding(Middle, [69, 72, 76])])

  /** The drum kit: bass drum, snare and hi-hat on the left, crash, ride and tom on the right. */
  const Drum := ChordTable(
    [Binding(Thumb, [36]), Binding(Index, [38]), Binding(Middle, [42])],
    [Binding(Thumb, [49]), Binding(Index, [51]), Binding(Middle, [53])])

  const Instruments: map<string, ChordTable> := map["guitar" := Guitar, "sitar" := Sitar, "drum" := Drum]

  const DefaultInstrument := "guitar"

  /** The six (side, finger) pairs every instrument maps. */
  const SixPairs: set<Key> := {(Left, Thumb), (Left, Index), (Left, Middle), (Right, Thumb), (Right, Index), (Right, Middle)}

  /** The six pairs, each bound once per side, in the order thumb, index, middle. */
  lemma InstrumentsWellFormed(name: string)
    requires name in Instruments
    ensures WellFormed(Instruments[name])
    ensures forall side :: FingerNames(TableOrder, Instruments[name], side) == [Thumb, Index, Middle]
  {
  }

  lemma ThreeFingerKeys(side: Side, bs: seq<Binding>)
    requires Fingers(bs) == [Thumb, Index, Middle]
    ensures SideKeys(side, bs) == {(side, Thumb), (side, Index), (side, Middle)}
  {
    assert Fingers(bs)[0] == Thumb && Fingers(bs)[1] == Index && Fingers(bs)[2] == Middle;
    assert (side, bs[0].finger) in SideKeys(side, bs);
    assert (side, bs[1].finger) in SideKeys(side, bs);
    assert (side, bs[2].finger) in SideKeys(side, bs);
  }

  /** Every instrument maps the same six (side, finger) pairs, so a switch never leaves a stored state without a chord. */
  lemma InstrumentsShareKeys(name: string)
    requires name in Instruments
    ensures Keys(Instruments[name]) == SixPairs
  {
    var t := Instruments[name];
    InstrumentsWellFormed(name);
    ThreeFingerKeys(Left, t.left);
    ThreeFingerKeys(Right, t.right);
  }

  /**
    The names read for a side are the table's own keys, so the membership
    test the other application makes would always pass here: every name read
    has a chord.
   */
  lemma EveryNameReadIsMapped(name: string, side: Side, i: nat)
    requires name in Instruments
    requires i < |FingerNames(TableOrder, Instruments[name], side)|
    ensures ChordOf(Instruments[name], side, FingerNames(TableOrder, Instruments[name], side)[i]).Some?
  {
    var bs := Instruments[name].Bindings(side);
    InstrumentsWellFormed(name);
    LookupListed(bs, i);
  }

  /** The stored states start at 0 for the guitar's six pairs, whichever instrument is chosen later. */
  lemma InitialStates()
    ensures ZeroStates(Guitar) == map[(Left, Thumb) := 0, (Left, Index) := 0, (Left, Middle) := 0,
                                      (Right, Thumb) := 0, (Right, Index) := 0, (Right, Middle) := 0]
  {
    InstrumentsShareKeys("guitar");
  }

  /** The reply and the instrument after a set_instrument request. */
  datatype Selection = Selection(current: string, reply: string)

  /** set_instrument: a known name becomes current, any other name is refused and changes nothing. */
  function Select(current: string, name: string): (r: Selection)
    ensures current in Instruments ==> r.current in Instruments
    ensures r.current == (if name in Instruments then name else current)
    ensures r.reply == "Invalid instrument" <==> name !in Instruments
  {
    if name in Instruments then
      assert ("Instrument set to " + name)[2] != "Invalid instrument"[2];
      Selection(name, "Instrument set to " + name)
    else Selection(current, "Invalid instrument")
  }

  /** The application state the routes and the tracking loop share. */
  class App {
    /** current_instrument */
    var current: string
    /** prev_states, with the log of edges taken */
    const tracker: FingerTracker

    ghost predicate Valid()
      reads this, tracker
    {
      && current in Instruments
      && tracker.Valid()
      && Covers(tracker.states, Instruments[current])
      && Readable(TableOrder, Instruments[current])
    }

    /** The guitar is current and every finger starts retracted. */
    constructor ()
      ensures Valid() && fresh(tracker)
      ensures current == DefaultInstrument && tracker.states == ZeroStates(Guitar) && tracker.log == []
    {
      current := DefaultInstrument;
      tracker := new FingerTracker(Guitar);
      InstrumentsWellFormed(DefaultInstrument);
      InstrumentsShareKeys(DefaultInstrument);
    }

    /** The set_instrument route: the stored finger states are kept across a switch. */
    method SetInstrument(name: string) returns (reply: string)
      requires Valid()
      modifies this
      ensures Valid()
      ensures Selection(current, reply) == Select(old(current), name)
    {
      var r := Select(current, name);
      InstrumentsShareKeys(current);
      InstrumentsShareKeys(r.current);
      InstrumentsWellFormed(r.current);
      current := r.current;
      reply := r.reply;
    }

    /**
      One frame of hand_tracking_loop with the current instrument: its
      hands in detection order, the names of a side read from the
      instrument's table; or, without hands, every chord of the current
      instrument released and every state reset.
     */
    method HandTrackingFrame(hands: seq<Hand>) returns (evs: seq<Event>)
      requires Valid()
      modifies tracker
      ensures Valid() && current == old(current)
      ensures var r := FrameStep(old(tracker.states), hands, Instruments[current], TableOrder);
        tracker.states == r.states && tracker.log == old(tracker.log) + r.edges && evs == EventsOf(r.edges)
    {
      evs := tracker.ProcessFrame(hands, Instruments[current], TableOrder);
    }
  }

  /**
    A frame without hands schedules exactly six releases, one for each pair
    of the current instrument, each with that instrument's chord, and leaves
    all six states at 0.
   */
  lemma NoHandsSixReleases(name: string, states: States)
    requires name in Instruments && states.Keys == SixPairs
    ensures Covers(states, Instruments[name]) && Readable(TableOrder, Instruments[name])
    ensures var r := FrameStep(states, [], Instruments[name], TableOrder);
      && |r.edges| == 6
      && (forall i | 0 <= i < 6 :: r.edges[i].edge == Fall)
      && FromTable(r.edges, Instruments[name])
      && (forall k | k in states :: r.states[k] == 0)
      && (forall k | k in states :: exists i | 0 <= i < 6 :: r.edges[i].key == k)
  {
    InstrumentsShareKeys(name);
    InstrumentsWellFormed(name);
    NoHandsReleasesEveryKey(states, Instruments[name], TableOrder);
  }
}
