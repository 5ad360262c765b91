/**
  The MIDI calls the applications make, as emitted events. A chord is played
  by one note-on per pitch; a release is scheduled as a background task that
  waits for the sustain time and then sends one note-off per pitch.
 */
module Midi {
  import opened Chords

  /** Every note-on and note-off is sent with this velocity. */
  const Velocity := 127

  /** Milliseconds a scheduled release waits before its note-offs (a sustain time of 2.0 seconds). */
  const SustainMillis: nat := 2000

  datatype Event =
    | NoteOn(pitch: int, velocity: int)
    | NoteOff(pitch: int, velocity: int)
      /** A background task that will release `chord` after `delayMillis` milliseconds. */
    | ScheduleRelease(chord: Chord, delayMillis: nat)

  /** The note-ons that play a chord: one per pitch, in the chord's order. */
  function NoteOns(chord: Chord): seq<Event> {
    seq(|chord|, i requires 0 <= i < |chord| => NoteOn(chord[i], Velocity))
  }

  /** The note-offs that release a chord: one per pitch, in the chord's order. */
  function NoteOffs(chord: Chord): seq<Event> {
    seq(|chord|, i requires 0 <= i < |chord| => NoteOff(chord[i], Velocity))
  }

  /** play_chord: one note-on per pitch, in the chord's order. */
  method PlayChord(chord: Chord) returns (evs: seq<Event>)
    ensures |evs| == |chord|
    ensures forall i | 0 <= i < |chord| :: evs[i] == NoteOn(chord[i], Velocity)
    ensures evs == NoteOns(chord)
  {
    evs := [];
    for i := 0 to |chord|
      invariant |evs| == i
      invariant forall j | 0 <= j < i :: evs[j] == NoteOn(chord[j], Velocity)
    {
      evs := evs + [NoteOn(chord[i], Velocity)];
    }
  }

  /**
    The body of a scheduled release (stop_chord_after_delay): after the
    sustain time, one note-off per pitch of the chord it was given, in order.
    The wait itself is not modelled.
   */
  method StopChordAfterDelay(chord: Chord) returns (evs: seq<Event>)
    ensures |evs| == |chord|
    ensures forall i | 0 <= i < |chord| :: evs[i] == NoteOff(chord[i], Velocity)
    ensures evs == NoteOffs(chord)
  {
    evs := [];
    for i := 0 to |chord|
      invariant |evs| == i
      invariant forall j | 0 <= j < i :: evs[j] == NoteOff(chord[j], Velocity)
    {
      evs := evs + [NoteOff(chord[i], Velocity)];
    }
  }
}
