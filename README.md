# MIDI piano: note naming, message classification and the voice table

This project models the core of `src/midi.ts`, the part of a browser MIDI
piano that turns incoming MIDI messages into sounding voices. It has three
modules.

- `Keyboard` (`keyboard.dfy`) covers `getMidiKey`, which labels a MIDI note
  number with its pitch-class name and octave ("C4" for 60), and
  `createKeyboard`, the 48 labels of the on-screen keyboard from note 36.
  - `getMidiKey` takes any integer and follows JavaScript arithmetic. `%`
    truncates toward zero, so a negative note that is not a multiple of 12
    prints "undefined" as its name. `Math.floor(note / 12)` is Dafny's `/`.
  - A label parser, `ParseMidiKey`, is the independent partner definition:
    every label reads back as its own note.
- `Messages` (`messages.dfy`) covers the decision the `onmidimessage`
  handler takes on a three-byte `[status, note, velocity]` message. Command 8,
  or command 9 with velocity 0, stops the note. Command 9 with any other
  velocity plays it. Everything else is ignored. The decision is checked
  against the encodings of Note On and Note Off in the MIDI 1.0 Detailed
  Specification.
- `Voices` (`voices.dfy`) covers the module-level state and the procedures
  that change it.
  - The class `Synth` holds that state:
    - whether the audio context and master gain exist (`audioReady`);
    - the `activeNotes` map from note number to oscillator;
    - the integer under the square root in the last master-gain update.
  - It has `playMidiNote`, `stopNote`, the `createOscillator` guard and the
    message handler as methods.
  - Oscillators are `Oscillator` objects: note, velocity gain and waveform,
    plus ghost flags for started, stopped and disconnected.
  - The table invariant, kept by every method:
    - at most `MAX_POLYPHONY` (10) entries;
    - no entries while audio is missing;
    - every entry a sounding oscillator for its own note, with no oscillator
      stored twice.
  - A pure function `NextNotes` gives the notes in the table (the keys of
    `activeNotes`) after one message, and `Replay` folds it over a series.
    The handler is proved against `NextNotes`. `OnMidiMessages` delivers a
    series of messages to the handler one after another and is proved
    against `Replay`, so the lemmas about `Replay` (the cap, silence without
    audio, filling up to ten notes) hold of the table itself. The handler
    ensures that every oscillator it stores is new or was already in the
    table; that is what lets one call follow another.

A note-on for a note that is already in the table, below the cap, replaces the
table entry without stopping the old oscillator (src/midi.ts:132). The code
does not stop the old oscillator; the model follows the code. It records each
replaced oscillator in a ghost set `orphans` and proves that such oscillators
stay started, unstopped, undisconnected and out of the table, so `stopNote`
(src/midi.ts:136-140) never reaches them. `PlayTwiceThenStop` runs two
note-ons and a note-off for one note through the methods and shows the first
oscillator left sounding. Each repeated note-on adds one
orphan, so `MAX_POLYPHONY` bounds the entries of the table, not the number of
oscillators that sound: eleven note-ons for the same note leave one entry and
ten orphans, and a note-off then empties the table while the ten still sound.
The master gain is also computed from the entries (src/midi.ts:79), so it is
not lowered for orphans: two note-ons for the same note leave the divisor
argument at 1 while two oscillators sound.

## Model

| member | source | states |
|---|---|---|
| Keyboard.PitchNamesWellFormed | src/midi.ts:43 | the name table has 12 entries, each a letter A–G optionally followed by ♯ |
| Keyboard.PitchNamesDistinct | src/midi.ts:43 | the 12 pitch-class names are pairwise distinct |
| Keyboard.PitchIndex | src/midi.ts:44 | `note % 12` with truncating division: strictly between −12 and 12, congruent to the note modulo 12, and non-negative exactly when the note is non-negative or a multiple of 12 |
| Keyboard.Octave | src/midi.ts:45 | `Math.floor(note / 12) - 1` is the octave o with 12(o+1) ≤ note < 12(o+2); for notes 0..127 it lies in −1..9 |
| Keyboard.PitchName | src/midi.ts:43-46 | the printed name is "undefined" exactly when the note is negative and not a multiple of 12; otherwise it is the table entry at `note mod 12` |
| Keyboard.Digits | src/midi.ts:46 | an octave prints as a non-empty digit string without a leading zero |
| Keyboard.Decimal | src/midi.ts:46 | the printed octave is non-empty and starts with '-' exactly when it is negative |
| Keyboard.GetMidiKey | src/midi.ts:42-47 | for MIDI notes 0..127 the label has 2 to 4 characters and starts with a letter A–G |
| Keyboard.KeyParts | src/midi.ts:42-47 | for every note that has a pitch name (non-negative, or a multiple of 12) the label is the name at index `note mod 12` followed by the printed octave `floor(note / 12) - 1` |
| Keyboard.DigitsRoundTrip | src/midi.ts:46 | reading the digits of a printed natural number gives the number back |
| Keyboard.DecimalRoundTrip | src/midi.ts:46 | reading a printed octave, negative or not, gives the octave back |
| Keyboard.KeyRoundTrip | src/midi.ts:42-47 | the label of every note that has a pitch name (non-negative, or a multiple of 12) parses back to that note |
| Keyboard.KeysDistinct | src/midi.ts:42-47 | distinct non-negative notes get distinct labels |
| Keyboard.NegativeNoteUndefined | src/midi.ts:44-46 | a negative note off the C positions gets a label that starts with "undefined" and names no note |
| Keyboard.KnownKeys | src/midi.ts:42-49 | 36 is "C2", 60 is "C4", 69 is "A4" |
| Keyboard.MidiRangeKeys | src/midi.ts:42-47 | the lowest MIDI note 0 is "C-1" and the highest, 127, is "G9" |
| Keyboard.CreateKeyboard | src/midi.ts:50 | exactly 48 labels, and label i is `getMidiKey(36 + i)` |
| Keyboard.KeyboardLabels | src/midi.ts:50 | label i of the keyboard parses back to note 36 + i, so the 48 labels are pairwise distinct |
| Keyboard.KeyboardEnds | src/midi.ts:49-50 | the keyboard runs from "C2" to "B5" |
| Messages.Command | src/midi.ts:69 | `status >> 4` is the c < 16 with 16c ≤ status < 16(c+1) |
| Messages.Channel | src/midi.ts:68-69 | the low nibble the handler discards, with status = 16·command + channel |
| Messages.Classify | src/midi.ts:68-76 | stop exactly for command 8, or command 9 with velocity 0; play exactly for command 9 with non-zero velocity, carrying the message's note and velocity; ignore otherwise |
| Messages.StatusByte | src/midi.ts:69 | the status byte built from a command and channel has that command and channel |
| Messages.NoteOnPlays | src/midi.ts:74-76 | a Note On with non-zero velocity plays its note on every channel |
| Messages.NoteOffStops | src/midi.ts:71-73 | a Note Off stops its note whatever its release velocity, and so does a Note On with velocity 0 |
| Messages.ClassifyIgnoresChannel | src/midi.ts:68-69 | the channel never changes the decision |
| Messages.OtherStatusesIgnored | src/midi.ts:71-76 | every status outside 0x80..0x9F is ignored |
| Voices.VelocityGain | src/midi.ts:102-103 | `velocity / 127` lies in [0, 1] for velocities 0..127, is 0 exactly at 0 and 1 exactly at 127, and exceeds 1 above 127 |
| Voices.GainDivisorArgument | src/midi.ts:79 | the number under the square root is the number of entries in the table, or 1 when the table is empty, and never below 1 |
| Voices.NextNotes | src/midi.ts:71-76 | after one message the notes in the table stay within the cap, gain at most the note of a note-on and lose at most the note of a note-off |
| Voices.ReplayBounded | src/midi.ts:126 | no series of messages takes the table past 10 notes |
| Voices.StrayNoteOff | src/midi.ts:135-137 | a note-off for a note that is not in the table changes nothing |
| Voices.SilentWithoutAudio | src/midi.ts:93 | without an audio graph no series of messages puts anything in the table |
| Voices.PlayThenRelease | src/midi.ts:125-140 | a note played and then released below the cap leaves the other notes in the table as they were |
| Voices.RepeatedNoteOnReleased | src/midi.ts:132-140 | a note played twice and then released leaves no note in the table |
| Voices.DistinctNoteOnsFillToCap | src/midi.ts:126 | note-ons for distinct notes from an empty table leave exactly the first min(n, 10) of them in the table |
| Voices.EleventhNoteDropped | src/midi.ts:37 | with eleven distinct note-ons, ten notes are in the table and the eleventh is not among them |
| Voices.SetKeepsWellFormed | src/midi.ts:132 | storing a new sounding oscillator below the cap keeps the table invariant, with any replaced oscillator counted as an orphan |
| Voices.Oscillator.constructor | src/midi.ts:95-103 | a new oscillator carries its note, the gain `velocity / 127` and the waveform, and is neither started, stopped nor disconnected |
| Voices.Oscillator.Start | src/midi.ts:130 | `osc.start` marks the oscillator started and nothing else |
| Voices.Oscillator.Stop | src/midi.ts:138 | `osc.stop` marks the oscillator stopped and nothing else |
| Voices.Oscillator.Disconnect | src/midi.ts:139 | `osc.disconnect` marks the oscillator disconnected and nothing else |
| Voices.Synth.constructor | src/midi.ts:32-40 | at module load there is no audio graph and no active note, and the invariant holds |
| Voices.Synth.EnsureAudio | src/midi.ts:111-114 | `initAudio` runs only when the audio context is missing, and sets the master gain to 0.7, which is 0.7 / sqrt(1); the table is untouched |
| Voices.Synth.CreateOscillator | src/midi.ts:92-109 | fails exactly when audio is not initialised (the waveform error of src/midi.ts:97 is not modelled); otherwise returns a fresh, unstarted oscillator for the note with gain `velocity / 127` |
| Voices.Synth.SetVoice | src/midi.ts:132 | `activeNotes.set(note, osc)` stores the oscillator under the note, keeps the invariant, and turns the entry it replaces into an orphan |
| Voices.Synth.PlayMidiNote | src/midi.ts:125-133 | at 10 entries nothing changes, even for a note already present; without audio it fails and nothing changes; otherwise the entry for the note is a fresh, started oscillator with the velocity's gain, every other entry is unchanged, the size grows by one exactly when the note was absent, a replaced oscillator becomes an orphan, and every stored oscillator is new or was already stored |
| Voices.Synth.StopNote | src/midi.ts:135-141 | an absent note changes nothing; a present note's oscillator, started, is now stopped and disconnected and its key removed; every other entry is unchanged and no oscillator is added |
| Voices.Synth.CurrentGainDivisor | src/midi.ts:79 | reads the square-root argument for the current table, which lies in 1..10 |
| Voices.Synth.Dispatch | src/midi.ts:71-76 | the notes in the table afterwards are those `NextNotes` gives; an ignored message leaves the table unchanged; no other entry changes; every stored oscillator is new or was already stored; the only modelled error is a note-on without audio |
| Voices.Synth.OnMidiMessage | src/midi.ts:67-83 | the table follows `NextNotes` for the classified message and the invariant holds; a message that is ignored leaves the table unchanged; the error of a note-on without audio escapes before the gain update, and otherwise the gain argument matches the new number of entries; every stored oscillator is new or was already stored |
| Voices.Synth.OnMidiMessages | src/midi.ts:67-83 | after a series of messages, each handled in turn whatever the outcome of the one before, the notes in the table are `Replay` of the classified messages, audio is unchanged, and the invariant holds |
| Voices.Synth.PlayTwice | src/midi.ts:125-133 | two note-ons for a note that is not in the table, below the cap: the table gains that note, now holding the second of two fresh oscillators, every other entry is unchanged, and the first oscillator is an orphan |
| Voices.Synth.PlayTwiceThenStop | src/midi.ts:125-140 | two note-ons for an absent note and then its note-off, below the cap, leave the table as it was; the first oscillator becomes an orphan that is still started, unstopped and undisconnected; only the second is stopped and disconnected |

## Left out

- `src/lib.ts` is not part of this model: it holds the local-storage helpers and a Vue write-through, with no logic of its own.
- `initMIDI` (src/midi.ts:10-28) is left out: it is an asynchronous Web MIDI access request and device listing.
- The Web Audio graph is left out:
  - the periodic wave, the frequency and gain automation, and the connections (src/midi.ts:95-107);
  - the low-pass filter (src/midi.ts:116-121);
  - `currentTime` timestamps.

  These are calls into the browser. An oscillator keeps only its note, its gain value and its waveform coefficients.
- The frequency `440 * 2^((note - 69) / 12)` (src/midi.ts:128) and the master-gain value `0.7 / sqrt(n)` (src/midi.ts:79-81) are left out because they are floating-point. The integer argument of the square root is kept.
- The Vue `watch`/`ref` wiring and `requestMIDIAccess` (src/midi.ts:57-90) are left out, and so is the re-registration of the handler on a device change. Each message is one call of `OnMidiMessage`. `EnsureAudio` stands for the `if (!audioContext) initAudio()` of src/midi.ts:61.
- A MIDI message is exactly three bytes. Shorter messages, whose missing bytes read as `undefined` in JavaScript, are left out.
- `getMidiKey` is modelled on integers. Fractional JavaScript numbers are left out, and so are notes beyond 2^53, where `Math.floor(note / 12)` is no longer exact, and octaves of 10^21 or more, which JavaScript prints in exponent form. Gains are exact reals, not doubles.
- The exception thrown by `createOscillator` becomes the `AudioNotInitialized` outcome. The handler returns it at once, as the exception leaves the handler before the gain update.
- The second error path of `createOscillator` is left out: `createPeriodicWave` (src/midi.ts:97) throws when the real and imaginary coefficient lists differ in length, and, as the Web Audio API defines `PeriodicWave`, when either list has fewer than 2 entries. That exception would leave `playMidiNote` before `start` and `set`, and the handler before the gain update. The model accepts any `Instrument`, so `Voices.Synth.CreateOscillator`, `Voices.Synth.PlayMidiNote`, `Voices.Synth.Dispatch` and `Voices.Synth.OnMidiMessage` never fail for that reason.
- Voices.Synth.Dispatch: states the effect on the table's keys and entries and that stored oscillators are new or old ones, not the oscillator flags or the orphan set. What happens to the oscillators themselves is stated by PlayMidiNote and StopNote, which it calls.
- Voices.Synth.OnMidiMessage: likewise states the effect on the table's keys and entries, the freshness of stored oscillators, the outcome and the gain argument, not the oscillator flags or the orphan set.
- Voices.Synth.OnMidiMessages: states the keys of the table after the series, not its entries, the oscillator flags, the orphans or the outcome of each message.
- Voices.NextNotes: describes the keys of the table, not the oscillators stored under them nor the orphans that go on sounding.
