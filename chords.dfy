/**
  Chord tables: for each hand side, an ordered list of (finger name, chord)
  bindings, as the applications' nested dictionaries list them. The order
  matters: it is the order in which finger names are read from a table and the
  order in which a frame without hands schedules its releases.
 */
module Chords {
  import opened Wrappers

  /** The hand a detection is attributed to. */
  datatype Side = Left | Right

  /** The five finger names, in the order a detector reports their flags. */
  datatype Finger = Thumb | Index | Middle | Ring | Pinky

  /** A stored finger state is kept per (hand side, finger name). */
  type Key = (Side, Finger)

  /** A chord is an ordered list of MIDI pitches. */
  type Chord = seq<int>

  /** A finger flag, or a stored finger state: 1 extended, 0 retracted. */
  type Bit = b: int | 0 <= b <= 1

  /** The stored finger states. */
  type States = map<Key, Bit>

  datatype Binding = Binding(finger: Finger, chord: Chord)

  datatype ChordTable = ChordTable(left: seq<Binding>, right: seq<Binding>) {
    /** The bindings of one side of the table. */
    function Bindings(side: Side): seq<Binding> {
      if side == Left then left else right
    }
  }

  /** Dictionary lookup of a finger name among one side's bindings. */
  function Lookup(bs: seq<Binding>, f: Finger): (r: Option<Chord>)
    ensures r.None? <==> forall i | 0 <= i < |bs| :: bs[i].finger != f
    ensures r.Some? ==> exists i | 0 <= i < |bs| :: bs[i] == Binding(f, r.value)
  {
    if bs == [] then None
    else if bs[0].finger == f then Some(bs[0].chord)
    else Lookup(bs[1..], f)
  }

  /** The chord a table maps (side, finger) to, if any. */
  function ChordOf(t: ChordTable, side: Side, f: Finger): Option<Chord> {
    Lookup(t.Bindings(side), f)
  }

  /** The finger names of one side's bindings, in table order (a dictionary's keys()). */
  function Fingers(bs: seq<Binding>): seq<Finger> {
    seq(|bs|, i requires 0 <= i < |bs| => bs[i].finger)
  }

  function SideKeys(side: Side, bs: seq<Binding>): set<Key> {
    set i | 0 <= i < |bs| :: (side, bs[i].finger)
  }

  /** Every (side, finger) a table maps. */
  function Keys(t: ChordTable): set<Key> {
    SideKeys(Left, t.left) + SideKeys(Right, t.right)
  }

  /** No finger name occurs twice on one side: the bindings are a dictionary. */
  predicate DistinctFingers(bs: seq<Binding>) {
    forall i, j | 0 <= i < j < |bs| :: bs[i].finger != bs[j].finger
  }

  predicate WellFormed(t: ChordTable) {
    DistinctFingers(t.left) && DistinctFingers(t.right)
  }

  /** The stored states have exactly one entry per (side, finger) the table maps. */
  predicate Covers(states: States, t: ChordTable) {
    states.Keys == Keys(t)
  }

  /** The stored states a table is initialised with: every mapped finger retracted. */
  function ZeroStates(t: ChordTable): (s: States)
    ensures Covers(s, t)
  {
    map k | k in Keys(t) :: 0
  }

  /** Every stored state reset to retracted. */
  function Zeroed(states: States): States {
    map k | k in states :: 0
  }

  /** A key is stored for a table exactly when the table maps it to a chord. */
  lemma KeysMatchLookup(t: ChordTable, k: Key)
    ensures k in Keys(t) <==> ChordOf(t, k.0, k.1).Some?
  {
    var bs := t.Bindings(k.0);
    if ChordOf(t, k.0, k.1).Some? {
      var i :| 0 <= i < |bs| && bs[i].finger == k.1;
      assert k == (k.0, bs[i].finger);
      assert k in SideKeys(k.0, bs);
    }
  }

  /** In a dictionary-like side, looking up a listed finger yields the chord listed with it. */
  lemma {:induction false} LookupListed(bs: seq<Binding>, i: nat)
    requires DistinctFingers(bs) && i < |bs|
    ensures Lookup(bs, bs[i].finger) == Some(bs[i].chord)
  {
    if i > 0 {
      assert bs[0].finger != bs[i].finger;
      assert bs[1..][i - 1] == bs[i];
      LookupListed(bs[1..], i - 1);
    }
  }
}
