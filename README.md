# Air piano: the gesture-to-note state machine

Two small Python servers turn a webcam's hand detections into MIDI chords:
`recodes.py` (three instruments, a page to switch between them and to play a
chord) and `Air-Piano-main/hand_dscale.py` (a single five-finger D-scale
table). Both run the same per-frame loop. For each detected hand, the loop
pairs the i-th finger flag with the i-th finger name read for that hand's side.
A finger that rises from 0 to 1 plays its chord as note-ons at velocity 127. A
finger that falls from 1 to 0 starts a background thread: after 2.0 seconds it
sends the chord's note-offs. The observed flag is then stored. A frame in which
no hand is seen schedules a release for every chord in the table and resets
every stored state to 0.

This project models that loop once, generically, and proves its properties.
Two modules then instantiate it for the two programs.

- `Chords` (chords.dfy) defines chord tables: per side, an ordered list of
  (finger, chord) bindings, as the dictionaries list them. It also holds the
  stored states, a map from (side, finger) to 0/1.
- `Midi` (midi.dfy) defines the events. A frame emits `NoteOn(pitch, 127)` and
  `ScheduleRelease(chord, 2000)`. A release's later body emits
  `NoteOff(pitch, 127)`. This module also holds `play_chord` and
  `stop_chord_after_delay` as loops.
- `Gesture` (gesture.dfy) specifies one frame as functions.
  - `FingerStep`, `HandStep`, `HandsStep` and `FrameStep` each return the new
    states and the edges taken. `EventsOf` maps edges to events.
  - The names read for a side come from a `NameSource`: either the table's own
    keys in table order (recodes) or a fixed list (hand_dscale).
  - The module holds the lemmas about these functions, including an invariant
    over a ghost log of edges. A stored 1 means the finger's last edge was a
    rise. The log never holds two rises of one finger without a fall between.
- `Tracker` (tracker.dfy) is the `prev_states` dictionary as a class. Its
  methods update the map in place in the loops of the Python code, and each
  one is proved equal to the spec function.
- `Recodes` (recodes.dfy) holds the three instrument tables, the
  `set_instrument` route and the current instrument. Its frame reads the
  current instrument's keys.
- `RecodesRoute` (recodes_route.dfy) is the `play_chord_route` route. It models
  `notes.split(',')` and CPython's `int()` on each piece, including its
  4300-digit limit. It proves that a list of integers written in decimal and
  joined with ',' parses back to itself, and it covers the failure paths.
- `HandDScale` (hand_dscale.dfy) holds the D-scale table and the fixed five
  names, which are guarded by a membership test.

Delays are modelled as data: a `ScheduleRelease` event carries the chord and
2000 milliseconds. The detector's output is a parameter: a side label and five
0/1 flags per hand.

## Model

| member | source | states |
|---|---|---|
| Chords.Lookup | recodes.py:115 | looking a finger up in one side's dictionary gives None exactly when no binding names that finger; otherwise it gives a chord listed with that finger |
| Chords.LookupListed | recodes.py:17-54 | when a side lists each finger once, looking up a listed finger gives the chord listed with it |
| Chords.KeysMatchLookup | recodes.py:57 | a (side, finger) has a stored state exactly when the table maps it to a chord |
| Chords.ZeroStates | recodes.py:57 | the initial stored states have one entry per (side, finger) of the table |
| Midi.PlayChord | recodes.py:63-65 | play_chord (same code at Air-Piano-main/hand_dscale.py:40-42): one note-on per pitch, in the chord's order, at velocity 127, and nothing else |
| Midi.StopChordAfterDelay | recodes.py:67-70 | the body of a scheduled release (same code at Air-Piano-main/hand_dscale.py:44-47): one note-off per pitch, in order, at velocity 127 |
| Gesture.SideOf | recodes.py:109 | a hand counts as left exactly when its label is "Left"; every other label counts as right |
| Gesture.FingerEvents | recodes.py:113-118 | for a mapped finger, the stored state becomes the flag; 0 to 1 plays exactly the chord's note-ons; 1 to 0 schedules exactly one release of that chord and no note-on; an unchanged flag takes no edge |
| Gesture.EventsOfShape | recodes.py:113-125 | every event a frame emits is either a note-on at velocity 127, or a release after the sustain time carrying the chord of a finger that fell; no note-off is sent directly |
| Gesture.HandStepRecords | recodes.py:113-118 | after a hand, each mapped name's stored state equals the flag paired with it |
| Gesture.HandStepEdges | recodes.py:113-118 | a hand's edges are, in name order, what each name contributes when judged against the states from before the hand |
| Gesture.HandStepFrame | recodes.py:109-118 | a hand changes no stored state of the other side, and none of a name it does not read |
| Gesture.HandStepSustained | recodes.py:113-118 | seeing the same hand again takes no edge and changes no state: a finger held extended sends no second note-on |
| Gesture.SettledHandStepsNothing | recodes.py:114-118 | a hand whose mapped names already store its flags takes no edge and stores nothing new |
| Gesture.HandStepIgnoresUnreadFlags | recodes.py:110-113 | a hand reads only the first as many flags as it has names; two flag vectors that agree there give the same step |
| Gesture.FingerStepKeeps | recodes.py:114-118 | one finger step keeps the stored states consistent with the edge log and keeps the log free of double plays |
| Gesture.OneEdgeKeeps | recodes.py:114-118 | taking one edge and storing the state it leads to keeps both invariants, provided a rise only starts from 0 |
| Gesture.HandStepKeeps | recodes.py:113-118 | one hand keeps both invariants |
| Gesture.HandsStepKeeps | recodes.py:108-118 | the hands of a frame, in detection order, keep both invariants |
| Gesture.NoHandsKeeps | recodes.py:119-125 | the releases and resets of a frame without hands keep both invariants |
| Gesture.FrameStepKeeps | recodes.py:107-125 | every frame keeps both invariants: a finger's chord is never played twice without a release of that finger scheduled in between |
| Gesture.InitiallyConsistent | recodes.py:57 | the all-zero initial states agree with the empty log |
| Gesture.NoHandsReleasesEveryKey | recodes.py:119-125 | a frame without hands, whatever the stored states: one release per binding of the table, falls only, each with its own chord, each stored finger released exactly once; every state reset to 0 and no key added or removed |
| Gesture.ReleasesFromTable | recodes.py:120-122 | each release of a frame without hands carries the chord the table maps its finger to |
| Gesture.ReleasesDistinct | recodes.py:120-122 | no finger is released twice in a frame without hands |
| Gesture.HandStepSkipsUnbound | Air-Piano-main/hand_dscale.py:67-72 | every edge a hand takes belongs to its own side and to a name it reads that the side's table binds: a name the table leaves out never plays or releases anything |
| Gesture.FingerStepFromTable | recodes.py:115-117 | the chord a finger plays or releases is the one the table maps it to |
| Gesture.HandStepFromTable | recodes.py:113-117 | every chord a hand plays or releases comes from the table in force |
| Gesture.HandsStepFromTable | recodes.py:108-117 | every chord the hands of a frame play or release comes from the table in force |
| Gesture.FrameStepFromTable | recodes.py:107-122 | every chord a frame plays or schedules for release is the one the table in force for that frame maps the finger to |
| Gesture.EventsOfAppend | recodes.py:108-118 | the events of consecutive edge lists are the events of the first list, then those of the second |
| Tracker.FingerTracker.constructor | recodes.py:57 | prev_states starts with every mapped finger at 0 and an empty edge log, with the invariant established |
| Tracker.FingerTracker.ProcessFinger | recodes.py:114-118 | the in-place update of one finger equals the finger-step specification, in both state and events |
| Tracker.FingerTracker.ProcessHand | recodes.py:113-118 | the loop over a hand's names equals the hand-step specification |
| Tracker.FingerTracker.ProcessHands | recodes.py:108-118 | the loop over the frame's hands equals the hands-step specification |
| Tracker.FingerTracker.ProcessFrame | recodes.py:107-125 | one frame equals the frame-step specification; it appends the frame's edges to the log and keeps the invariant |
| Tracker.FingerTracker.ScheduleAllReleases | recodes.py:120-122 | the nested loops start one release per binding, left side then right, in table order |
| Tracker.FingerTracker.ScheduleSideReleases | recodes.py:121-122 | the inner loop starts one release per binding of a side, in table order |
| Tracker.FingerTracker.ResetStates | recodes.py:123-125 | every stored state becomes 0, with no key added or removed |
| RecodesRoute.Split | recodes.py:378 | str.split(','): at least one piece, no piece contains the separator, and joining the pieces gives back the input |
| RecodesRoute.JoinSplit | recodes.py:378 | splitting the join of separator-free pieces gives back those pieces |
| RecodesRoute.LeadingSpacesSpec | recodes.py:378 | the whitespace int() skips at the front is whitespace only, and it ends at the first other character |
| RecodesRoute.TrailingSpacesSpec | recodes.py:378 | the whitespace int() skips at the back is whitespace only, and it starts after the last other character |
| RecodesRoute.StripUnique | recodes.py:378 | for whitespace, then a middle that is empty or has non-whitespace ends, then whitespace, the stripped text is exactly that middle |
| RecodesRoute.StripBounds | recodes.py:378 | the stripped text is a slice that has only whitespace around it and non-whitespace at both ends |
| RecodesRoute.StripPadded | recodes.py:378 | adding whitespace around a piece does not change what stripping keeps |
| RecodesRoute.ParsePadded | recodes.py:378 | adding whitespace around a piece does not change what int() reads |
| RecodesRoute.NatToStringValue | recodes.py:326 | the decimal rendering of a number is a valid run of digits whose value is that number |
| RecodesRoute.NatToStringLength | recodes.py:378 | a number's decimal rendering has at most k digits exactly when the number is below 10^k, so the digit limit is a bound on magnitude |
| RecodesRoute.ParseRenderedInt | recodes.py:378 | int() reads back every integer from its decimal rendering, negatives included, when it has at most 4300 digits, and refuses it otherwise |
| RecodesRoute.ParseIntRefusesBlank | recodes.py:378 | int() refuses an empty or all-whitespace piece |
| RecodesRoute.ParseIntRefusesForeign | recodes.py:378 | int() refuses a piece containing any character that is not whitespace, a digit, an underscore or a sign; this includes the separators U+001C to U+001F, which int() does not skip |
| RecodesRoute.ParseIntRefusesDoubleUnderscore | recodes.py:378 | int() refuses a piece with two underscores in a row |
| RecodesRoute.ParseAllMeaning | recodes.py:378 | list(map(int, pieces)) succeeds exactly when every piece is an integer literal; it then gives one value per piece, in order |
| RecodesRoute.ParseRenderedNotes | recodes.py:378 | a list of integers written in decimal and joined with ',' parses back to exactly that list; it is refused exactly when it is empty or an entry has more than 4300 digits |
| RecodesRoute.PlayChordRoute | recodes.py:377-380 | if every piece parses: one note-on per pitch in request order and "Chord played"; if any piece fails: no event at all and a server error; never a release |
| Recodes.InstrumentsWellFormed | recodes.py:17-54 | each instrument lists each finger at most once per side, and its keys read thumb, index, middle on both sides |
| Recodes.InstrumentsShareKeys | recodes.py:17-57 | every instrument maps the same six (side, finger) pairs, so prev_states, built from the guitar, has an entry for every key any instrument reads |
| Recodes.EveryNameReadIsMapped | recodes.py:111-115 | every name read from the current instrument's keys has a chord in that instrument |
| Recodes.InitialStates | recodes.py:57 | prev_states starts as the six guitar pairs, all 0 |
| Recodes.Select | recodes.py:369-374 | a known name becomes current and the reply is not "Invalid instrument"; an unknown name leaves the current instrument unchanged and the reply is "Invalid instrument"; the current instrument always stays a known one |
| Recodes.App.constructor | recodes.py:57-59 | the guitar is current, and the six guitar pairs are stored as 0 with an empty log |
| Recodes.App.SetInstrument | recodes.py:369-374 | the route's new instrument and reply are what the selection gives; stored states are kept across a switch, and the invariant still holds for the new table |
| Recodes.App.HandTrackingFrame | recodes.py:107-125 | one frame under the current instrument equals the frame-step specification for that table, names read in key order; the instrument is unchanged |
| Recodes.NoHandsSixReleases | recodes.py:119-125 | with no hands: six releases, all falls, each with the current instrument's chord for its finger, every one of the six pairs released, and every state reset to 0 |
| HandDScale.TableShape | Air-Piano-main/hand_dscale.py:19-34 | the table lists the five fingers once per side, in thumb-to-pinky order; it maps all ten (side, finger) pairs; the fixed names are distinct and fit five flags |
| HandDScale.InitialStates | Air-Piano-main/hand_dscale.py:37 | prev_states starts with all ten pairs, each at 0 |
| HandDScale.EveryNameBound | Air-Piano-main/hand_dscale.py:64-67 | with this table, each of the five fixed names is bound on both sides, so the membership test always passes |
| HandDScale.App.constructor | Air-Piano-main/hand_dscale.py:37 | all ten pairs are stored as 0, with an empty log |
| HandDScale.App.HandTrackingFrame | Air-Piano-main/hand_dscale.py:60-79 | one frame equals the frame-step specification for the D-scale table, with the i-th flag paired with the i-th of thumb, index, middle, ring, pinky |
| HandDScale.NoHandsTenReleases | Air-Piano-main/hand_dscale.py:73-79 | with no hands: ten releases, all falls, each with the table's chord and one per stored pair, and every state reset to 0 |

## Left out

- Camera probing and frame reading are not modelled (recodes.py:77-104 and 127-138; Air-Piano-main/hand_dscale.py:16, 54-57 and 81-88). The same goes for `imshow`/`waitKey`, the 'q' key that ends the loop, video recording and the cleanup in `finally`. All of these are I/O.
- The hand detector (`findHands`, `fingersUp`) is not modelled. Each frame is given as a list of hands, each with the detector's label and exactly five 0/1 flags, which is what `fingersUp` returns. Shorter flag lists, which would raise IndexError in the source, are not modelled.
- `pygame.midi` is not modelled. Its calls are emitted `Event` values, and what the device does with an out-of-range pitch is outside the model.
- Threads and the wall clock are not modelled. `time.sleep(SUSTAIN_TIME)` and the daemon thread become one `ScheduleRelease(chord, 2000)` event per release. When it fires, and in what order against other threads, is not modelled.
- The routes /start, /stop, /start_recording and /video are left out, and so is the HTML page apart from the chord request it builds. The `hand_tracking_running` and `recording` flags exist only to coordinate threads through unguarded globals.
- The race between a `set_instrument` request and a frame in progress is not modelled. Each frame reads the instrument current when it starts.
- Air-Piano-main/hand_dscale.py:91-96, which reads `forntpage.html`, is left out.
- RecodesRoute.ParseInt: treats only the ASCII digits 0-9 as digits, while Python's `int()` also accepts other Unicode decimal digits. The whitespace it skips is `int()`'s: tab, line feed, vertical tab, form feed, carriage return, space and Unicode's spaces and line separators, but not U+001C to U+001F, which `str.strip()` would remove.
- RecodesRoute.ParseInt: uses CPython's default limit of 4300 digits (Python 3.11 and later, and the 2022 security releases of older lines). A limit changed with `sys.set_int_max_str_digits` or `PYTHONINTMAXSTRDIGITS` is not modelled, and neither are older interpreters that have no limit.
- RecodesRoute.ParseRenderedNotes: is about decimal renderings. The page's script (recodes.py:310-326) would build its request with JavaScript's `join(',')`, but it reads an `instruments` variable the page never defines, so that request is never sent. How JavaScript writes large numbers (exponent form from 10^21) is not modelled.
- RecodesRoute.ParseInt: has no contract of its own. What it accepts and refuses is stated by the lemmas ParseRenderedInt, ParsePadded, ParseIntRefusesBlank, ParseIntRefusesForeign and ParseIntRefusesDoubleUnderscore.
- RecodesRoute.Strip: has no contract of its own. It is characterised by StripUnique, StripBounds and StripPadded.
- RecodesRoute.ParseAll: has no contract of its own. It is characterised by ParseAllMeaning.
- RecodesRoute.PlayChordRoute: the 500 response Flask sends for an uncaught ValueError is the single value `ServerError`.
- The model leaves out any specific frame sequence run on a concrete table. The per-frame properties are proved for every table and every frame instead.
