/** The active-voice table and the MIDI input handler (src/midi.ts:31-40,
    src/midi.ts:67-83, src/midi.ts:92-109, src/midi.ts:125-148).

    The module-level state of the source (the audio context and master gain,
    which are either both present or both null, and the `activeNotes` map)
    becomes the fields of one `Synth` object. Audio nodes are abstract
    `Oscillator` handles whose life cycle is recorded in ghost flags. */
module Voices {
  import opened Messages

  /** `MAX_POLYPHONY`. */
  const MaxPolyphony: nat := 10

  /** The periodic waveform an oscillator is given: the real and imaginary
      coefficient lists. */
  datatype Instrument = Instrument(realPart: seq<real>, imagPart: seq<real>)

  datatype Outcome = Ok | AudioNotInitialized

  /** `velocity / 127`, the gain of a voice's own gain node. */
  function VelocityGain(velocity: int): (g: real)
    ensures 0 <= velocity <= 127 ==> 0.0 <= g <= 1.0
    ensures g == 0.0 <==> velocity == 0
    ensures g == 1.0 <==> velocity == 127
    ensures velocity > 127 ==> g > 1.0
  {
    velocity as real / 127.0
  }

  /** The number whose square root divides the master gain of 0.7: the number
      of entries in the table, or 1 when the table is empty. */
  function GainDivisorArgument(voices: nat): (d: nat)
    ensures d >= 1
    ensures voices > 0 ==> d == voices
    ensures voices == 0 ==> d == 1
  {
    if voices > 0 then voices else 1
  }

  /** An oscillator routed through its own gain node into the master gain.
      Its frequency is 440 * 2^((note - 69) / 12); the model keeps the note. */
  class Oscillator {
    const note: int
    const gain: real
    const instrument: Instrument
    ghost var started: bool
    ghost var stopped: bool
    ghost var disconnected: bool

    constructor (note: int, velocity: int, instrument: Instrument)
      ensures this.note == note && gain == VelocityGain(velocity) && this.instrument == instrument
      ensures !started && !stopped && !disconnected
    {
      this.note := note;
      this.gain := VelocityGain(velocity);
      this.instrument := instrument;
      started, stopped, disconnected := false, false, false;
    }

    ghost predicate Sounding()
      reads this
    {
      started && !stopped && !disconnected
    }

    method Start()
      modifies this
      ensures started && stopped == old(stopped) && disconnected == old(disconnected)
    {
      started := true;
    }

    method Stop()
      modifies this
      ensures stopped && started == old(started) && disconnected == old(disconnected)
    {
      stopped := true;
    }

    method Disconnect()
      modifies this
      ensures disconnected && started == old(started) && stopped == old(stopped)
    {
      disconnected := true;
    }
  }

  /** The notes in the table (the keys of `activeNotes`) after one message,
      given whether audio was initialised: the specification of the handler's
      effect on the table. An oscillator replaced by a repeated note-on is no
      longer in the table but goes on sounding, so these are not all the
      notes that sound. */
  function NextNotes(notes: set<int>, a: Action, audioReady: bool): (next: set<int>)
    ensures |notes| <= MaxPolyphony ==> |next| <= MaxPolyphony
    ensures next - notes <= (if a.NoteOn? then {a.note} else {})
    ensures notes - next <= (if a.NoteOff? then {a.note} else {})
  {
    match a
    case NoteOff(n) => notes - {n}
    case NoteOn(n, _) => if |notes| >= MaxPolyphony || !audioReady then notes else notes + {n}
    case Ignore => notes
  }

  /** The notes in the table after a series of messages. */
  function Replay(notes: set<int>, actions: seq<Action>, audioReady: bool): set<int>
  {
    if actions == [] then notes
    else NextNotes(Replay(notes, actions[..|actions| - 1], audioReady), actions[|actions| - 1], audioReady)
  }

  /** No series of messages takes the table past the polyphony cap. The cap
      bounds table entries, not sounding oscillators: see RepeatedNoteOnReleased. */
  lemma {:induction false} ReplayBounded(notes: set<int>, actions: seq<Action>, audioReady: bool)
    requires |notes| <= MaxPolyphony
    ensures |Replay(notes, actions, audioReady)| <= MaxPolyphony
  {
    if actions != [] {
      ReplayBounded(notes, actions[..|actions| - 1], audioReady);
    }
  }

  /** A note-off for a note that is not in the table changes nothing. */
  lemma StrayNoteOff(notes: set<int>, note: nat, audioReady: bool)
    requires note !in notes
    ensures NextNotes(notes, NoteOff(note), audioReady) == notes
  {
  }

  /** Without audio, nothing is ever stored in the table. */
  lemma {:induction false} SilentWithoutAudio(actions: seq<Action>)
    ensures Replay({}, actions, false) == {}
  {
    if actions != [] {
      SilentWithoutAudio(actions[..|actions| - 1]);
    }
  }

  /** A note played and then released, below the cap, leaves the other notes
      as they were; from an empty table, the table is empty afterwards. */
  lemma PlayThenRelease(notes: set<int>, note: nat, velocity: nat)
    requires note !in notes && |notes| < MaxPolyphony
    ensures Replay(notes, [NoteOn(note, velocity), NoteOff(note)], true) == notes
  {
    var actions := [NoteOn(note, velocity), NoteOff(note)];
    assert actions[..1][..0] == [];
    assert Replay(notes, actions[..1], true) == notes + {note};
  }

  /** A note played twice and then released leaves nothing in the table.
      Synth.PlayTwiceThenStop shows what happens to the two oscillators. */
  lemma RepeatedNoteOnReleased(note: nat, velocity: nat)
    ensures Replay({}, [NoteOn(note, velocity), NoteOn(note, velocity), NoteOff(note)], true) == {}
  {
    var actions := [NoteOn(note, velocity), NoteOn(note, velocity), NoteOff(note)];
    assert actions[..2][..1][..0] == [];
    assert Replay({}, actions[..2][..1], true) == {note as int};
    assert Replay({}, actions[..2], true) == {note as int};
  }

  /** One more message extends the replay of the classified messages by one
      step. */
  lemma ReplayNextMessage(notes: set<int>, ms: seq<Message>, i: nat, audioReady: bool)
    requires i < |ms|
    ensures Replay(notes, ClassifyAll(ms[..i + 1]), audioReady) ==
            NextNotes(Replay(notes, ClassifyAll(ms[..i]), audioReady), Classify(ms[i]), audioReady)
  {
    assert ClassifyAll(ms[..i + 1])[..i] == ClassifyAll(ms[..i]);
  }

  /** Note-ons for the notes of `notes`, in order. */
  function NoteOns(notes: seq<nat>, velocity: nat): (actions: seq<Action>)
    ensures |actions| == |notes|
    ensures forall i :: 0 <= i < |notes| ==> actions[i] == NoteOn(notes[i], velocity)
  {
    seq(|notes|, i requires 0 <= i < |notes| => NoteOn(notes[i], velocity))
  }

  function Min(a: nat, b: nat): nat { if a <= b then a else b }

  /** The notes of a series, as a set. */
  function NotesOf(notes: seq<nat>): set<int>
  {
    if notes == [] then {} else NotesOf(notes[..|notes| - 1]) + {notes[|notes| - 1] as int}
  }

  lemma {:induction false} NotesOfMembers(notes: seq<nat>)
    ensures forall x :: x in NotesOf(notes) <==> x in notes
  {
    if notes != [] {
      var k := |notes| - 1;
      NotesOfMembers(notes[..k]);
      assert notes == notes[..k] + [notes[k]];
    }
  }

  lemma {:induction false} NotesOfDistinct(notes: seq<nat>)
    requires forall i, j :: 0 <= i < j < |notes| ==> notes[i] != notes[j]
    ensures |NotesOf(notes)| == |notes|
  {
    if notes != [] {
      var k := |notes| - 1;
      NotesOfDistinct(notes[..k]);
      NotesOfMembers(notes[..k]);
      assert notes[k] !in notes[..k];
    }
  }

  lemma ReplayNoteOnsLast(notes: seq<nat>, velocity: nat)
    requires notes != []
    ensures Replay({}, NoteOns(notes, velocity), true) ==
            NextNotes(Replay({}, NoteOns(notes[..|notes| - 1], velocity), true), NoteOn(notes[|notes| - 1], velocity), true)
  {
    assert NoteOns(notes, velocity)[..|notes| - 1] == NoteOns(notes[..|notes| - 1], velocity);
  }

  /** Adding a note that is not yet in a set makes the set one larger. */
  lemma AddNewNote(notes: set<int>, note: int)
    requires note !in notes
    ensures |notes + {note}| == |notes| + 1
  {
  }

  /** One more note-on below the cap, for a note not yet in the table, adds it. */
  lemma FillBelowCap(notes: seq<nat>, velocity: nat)
    requires 0 < |notes| <= MaxPolyphony
    requires Replay({}, NoteOns(notes[..|notes| - 1], velocity), true) == NotesOf(notes[..|notes| - 1])
    requires |NotesOf(notes[..|notes| - 1])| == |notes| - 1
    requires notes[|notes| - 1] !in NotesOf(notes[..|notes| - 1])
    ensures Replay({}, NoteOns(notes, velocity), true) == NotesOf(notes)
    ensures |NotesOf(notes)| == |notes|
  {
    var k := |notes| - 1;
    var earlier := NotesOf(notes[..k]);
    var note := notes[k] as int;
    ReplayNoteOnsLast(notes, velocity);
    assert NextNotes(earlier, NoteOn(notes[k], velocity), true) == earlier + {note};
    assert NotesOf(notes) == earlier + {note};
    AddNewNote(earlier, note);
  }

  /** Once ten notes are in the table, a further note-on changes nothing. */
  lemma FillAtCap(notes: seq<nat>, velocity: nat)
    requires |notes| > MaxPolyphony
    requires Replay({}, NoteOns(notes[..|notes| - 1], velocity), true) == NotesOf(notes[..MaxPolyphony])
    requires |NotesOf(notes[..MaxPolyphony])| == MaxPolyphony
    ensures Replay({}, NoteOns(notes, velocity), true) == NotesOf(notes[..MaxPolyphony])
  {
    ReplayNoteOnsLast(notes, velocity);
  }

  /** The last of distinct notes is not among the earlier ones. */
  lemma LastNoteNew(notes: seq<nat>)
    requires notes != []
    requires forall i, j :: 0 <= i < j < |notes| ==> notes[i] != notes[j]
    ensures notes[|notes| - 1] !in NotesOf(notes[..|notes| - 1])
  {
    NotesOfMembers(notes[..|notes| - 1]);
  }

  /** Playing distinct notes from an empty table: the first ten are stored,
      the rest are dropped. */
  lemma {:induction false} DistinctNoteOnsFillToCap(notes: seq<nat>, velocity: nat)
    requires forall i, j :: 0 <= i < j < |notes| ==> notes[i] != notes[j]
    ensures Replay({}, NoteOns(notes, velocity), true) == NotesOf(notes[..Min(|notes|, MaxPolyphony)])
    ensures |Replay({}, NoteOns(notes, velocity), true)| == Min(|notes|, MaxPolyphony)
  {
    if notes != [] {
      var k := |notes| - 1;
      var prefix := notes[..k];
      DistinctNoteOnsFillToCap(prefix, velocity);
      if k < MaxPolyphony {
        assert prefix[..Min(k, MaxPolyphony)] == prefix;
        assert notes[k] !in NotesOf(prefix) by { LastNoteNew(notes); }
        FillBelowCap(notes, velocity);
        assert notes[..Min(|notes|, MaxPolyphony)] == notes;
      } else {
        assert prefix[..Min(k, MaxPolyphony)] == notes[..MaxPolyphony];
        FillAtCap(notes, velocity);
      }
    }
  }

  /** Eleven distinct note-ons leave exactly ten notes in the table, and the
      eleventh is not among them. */
  lemma EleventhNoteDropped(notes: seq<nat>, velocity: nat)
    requires |notes| == MaxPolyphony + 1
    requires forall i, j :: 0 <= i < j < |notes| ==> notes[i] != notes[j]
    ensures |Replay({}, NoteOns(notes, velocity), true)| == MaxPolyphony
    ensures notes[MaxPolyphony] as int !in Replay({}, NoteOns(notes, velocity), true)
  {
    DistinctNoteOnsFillToCap(notes, velocity);
    NotesOfMembers(notes[..MaxPolyphony]);
    assert notes[MaxPolyphony] !in notes[..MaxPolyphony];
  }

  /** The shape of a voice table: within the polyphony cap, empty without
      audio, every entry a sounding oscillator for its own note, no oscillator
      under two notes, and the orphans still sounding and outside the table. */
  ghost predicate WellFormedTable(table: map<int, Oscillator>, orphans: set<Oscillator>, audioReady: bool)
    reads table.Values, orphans
  {
    |table| <= MaxPolyphony &&
    (!audioReady ==> table == map[]) &&
    (forall n :: n in table ==> table[n].note == n && table[n].Sounding()) &&
    (forall n, m :: n in table && m in table && n != m ==> table[n] != table[m]) &&
    (forall o :: o in orphans ==> o.Sounding()) &&
    (forall n :: n in table ==> table[n] !in orphans)
  }

  /** Storing a newly started oscillator below the cap keeps the shape, with
      the entry it replaces counted as an orphan. */
  lemma SetKeepsWellFormed(table: map<int, Oscillator>, orphans: set<Oscillator>, note: int, osc: Oscillator)
    requires WellFormedTable(table, orphans, true) && |table| < MaxPolyphony
    requires osc.note == note && osc.Sounding()
    requires osc !in table.Values && osc !in orphans
    ensures WellFormedTable(table[note := osc], orphans + (if note in table then {table[note]} else {}), true)
  {
    var after := table[note := osc];
    var orphansAfter := orphans + (if note in table then {table[note]} else {});
    assert forall n :: n in after && n != note ==> after[n] == table[n];
    forall n | n in after ensures after[n] !in orphansAfter {
      if n != note {
        assert table[n] != osc;
      }
    }
  }

  lemma UpdateKeepsOthers<V>(table: map<int, V>, note: int, v: V)
    ensures table[note := v].Keys == table.Keys + {note}
    ensures forall n :: n in table && n != note ==> n in table[note := v] && table[note := v][n] == table[n]
    ensures table[note := v].Values <= table.Values + {v}
  {
    var updated := table[note := v];
    forall o | o !in table.Values && o != v
      ensures o !in updated.Values
    {
      forall n | n in updated
        ensures updated[n] != o
      {
        if n != note {
          assert table[n] in table.Values;
        }
      }
    }
  }

  /** The state of the synthesiser: `audioContext`/`masterGain` (present or
      not), `activeNotes`, and the argument of the square root in the last
      master-gain update. */
  class Synth {
    var audioReady: bool
    var activeNotes: map<int, Oscillator>
    var gainDivisor: nat
    /** Oscillators that a repeated note-on replaced in the table without
        stopping them: they go on sounding and nothing can reach them. */
    ghost var orphans: set<Oscillator>

    /** The invariant of the table, kept by every play and stop. */
    ghost predicate TableValid()
      reads this`audioReady, this`activeNotes, this`orphans, activeNotes.Values, orphans
    {
      WellFormedTable(activeNotes, orphans, audioReady)
    }

    /** Between messages the master gain also matches the number of entries. */
    ghost predicate Valid()
      reads this, activeNotes.Values, orphans
    {
      TableValid() && (audioReady ==> gainDivisor == GainDivisorArgument(|activeNotes|))
    }

    /** The state at module load: no audio graph, no active notes. */
    constructor ()
      ensures Valid()
      ensures !audioReady && activeNotes == map[] && orphans == {}
    {
      audioReady := false;
      activeNotes := map[];
      gainDivisor := 1;
      orphans := {};
    }

    /** `if (!audioContext) initAudio()`: builds the graph once, with the
        master gain at 0.7, which is 0.7 / sqrt(1). */
    method EnsureAudio()
      requires Valid()
      modifies this
      ensures Valid() && audioReady
      ensures activeNotes == old(activeNotes) && orphans == old(orphans)
      ensures old(audioReady) ==> gainDivisor == old(gainDivisor)
      ensures !old(audioReady) ==> gainDivisor == 1
    {
      if !audioReady {
        audioReady := true;
        gainDivisor := 1;
      }
    }

    /** `createOscillator`: fails, returning null, when the audio graph does
        not exist; otherwise a new oscillator tuned to `note` whose gain is
        the velocity's. */
    method CreateOscillator(note: int, velocity: int, instrument: Instrument) returns (osc: Oscillator?)
      ensures osc == null <==> !audioReady
      ensures osc != null ==> fresh(osc) && osc.note == note && osc.gain == VelocityGain(velocity)
      ensures osc != null ==> osc.instrument == instrument && !osc.started && !osc.stopped && !osc.disconnected
    {
      if !audioReady {
        return null;
      }
      osc := new Oscillator(note, velocity, instrument);
    }

    /** `activeNotes.set(note, osc)` for a newly started oscillator: the entry
        it replaces, if any, becomes an orphan. */
    method SetVoice(note: int, osc: Oscillator)
      requires TableValid() && audioReady && |activeNotes| < MaxPolyphony
      requires osc.note == note && osc.Sounding()
      requires osc !in activeNotes.Values && osc !in orphans
      modifies this`activeNotes, this`orphans
      ensures TableValid()
      ensures activeNotes == old(activeNotes)[note := osc]
      ensures orphans == old(orphans) + (if note in old(activeNotes) then {old(activeNotes)[note]} else {})
    {
      var table := activeNotes[note := osc];
      ghost var replaced := orphans + (if note in activeNotes then {activeNotes[note]} else {});
      SetKeepsWellFormed(activeNotes, orphans, note, osc);
      activeNotes, orphans := table, replaced;
    }

    /** `playMidiNote`: dropped at the polyphony cap (even when the note is
        already in the table); fails when audio is not initialised; otherwise starts a new
        oscillator and stores it under `note`, replacing without stopping
        any oscillator already stored there. */
    method PlayMidiNote(note: int, velocity: int, instrument: Instrument) returns (r: Outcome)
      requires TableValid()
      modifies this
      ensures TableValid()
      ensures audioReady == old(audioReady) && gainDivisor == old(gainDivisor)
      ensures r == AudioNotInitialized <==> old(|activeNotes|) < MaxPolyphony && !audioReady
      ensures old(|activeNotes|) >= MaxPolyphony || !audioReady ==>
        activeNotes == old(activeNotes) && orphans == old(orphans)
      ensures old(|activeNotes|) < MaxPolyphony && audioReady ==>
        activeNotes.Keys == old(activeNotes).Keys + {note} &&
        fresh(activeNotes[note]) && activeNotes[note].started &&
        activeNotes[note].gain == VelocityGain(velocity) && activeNotes[note].instrument == instrument &&
        orphans == old(orphans) + (if note in old(activeNotes) then {old(activeNotes)[note]} else {})
      ensures old(|activeNotes|) < MaxPolyphony && audioReady ==>
        |activeNotes| == old(|activeNotes|) + (if note in old(activeNotes) then 0 else 1)
      ensures forall n :: n in old(activeNotes) && n != note ==> n in activeNotes && activeNotes[n] == old(activeNotes)[n]
      ensures forall o :: o in activeNotes.Values ==> o in old(activeNotes.Values) || fresh(o)
    {
      if |activeNotes| >= MaxPolyphony {
        return Ok;
      }
      var osc := CreateOscillator(note, velocity, instrument);
      if osc == null {
        return AudioNotInitialized;
      }
      osc.Start();
      ghost var before := activeNotes;
      SetVoice(note, osc);
      UpdateKeepsOthers(before, note, osc);
      return Ok;
    }

    /** `stopNote`: nothing for a note that is not in the table; otherwise stops
        and disconnects exactly that note's oscillator and removes the entry. */
    method StopNote(note: int)
      requires TableValid()
      modifies this, if note in activeNotes then {activeNotes[note]} else {}
      ensures TableValid()
      ensures audioReady == old(audioReady) && gainDivisor == old(gainDivisor) && orphans == old(orphans)
      ensures activeNotes.Keys == old(activeNotes).Keys - {note}
      ensures forall n :: n in activeNotes ==> activeNotes[n] == old(activeNotes)[n]
      ensures note !in old(activeNotes) ==> activeNotes == old(activeNotes)
      ensures note in old(activeNotes) ==>
        old(activeNotes)[note].started && old(activeNotes)[note].stopped && old(activeNotes)[note].disconnected
      ensures activeNotes.Values <= old(activeNotes.Values)
    {
      if note !in activeNotes {
        return;
      }
      var osc := activeNotes[note];
      osc.Stop();
      osc.Disconnect();
      activeNotes := activeNotes - {note};
    }

    /** The read of the divisor argument before the master-gain update. */
    method CurrentGainDivisor() returns (d: nat)
      requires TableValid()
      ensures d == GainDivisorArgument(|activeNotes|)
      ensures 1 <= d <= MaxPolyphony
    {
      d := GainDivisorArgument(|activeNotes|);
    }

    /** The branch of the handler that plays or stops the classified note;
        what happens to the oscillators themselves is stated by PlayMidiNote
        and StopNote. */
    method Dispatch(a: Action, instrument: Instrument) returns (r: Outcome)
      requires TableValid()
      modifies this, activeNotes.Values
      ensures TableValid()
      ensures audioReady == old(audioReady) && gainDivisor == old(gainDivisor)
      ensures activeNotes.Keys == NextNotes(old(activeNotes).Keys, a, audioReady)
      ensures a.Ignore? ==> activeNotes == old(activeNotes)
      ensures !a.Ignore? ==> forall n :: n in old(activeNotes) && n in activeNotes && n != a.note ==>
        activeNotes[n] == old(activeNotes)[n]
      ensures r == AudioNotInitialized <==> a.NoteOn? && !audioReady
      ensures forall o :: o in activeNotes.Values ==> o in old(activeNotes.Values) || fresh(o)
    {
      ghost var before := activeNotes;
      r := Ok;
      if a.NoteOff? {
        StopNote(a.note);
        assert activeNotes.Keys == before.Keys - {a.note};
        assert forall n :: n in activeNotes ==> activeNotes[n] == before[n];
      } else if a.NoteOn? {
        r := PlayMidiNote(a.note, a.velocity, instrument);
        assert activeNotes.Keys == NextNotes(before.Keys, a, audioReady);
        assert forall n :: n in before && n != a.note ==> activeNotes[n] == before[n];
      }
    }

    /** `onmidimessage`: classifies the message, plays or stops the note, and
        then sets the master gain to 0.7 / sqrt(d) unless audio is missing.
        The error of a note-on without audio escapes before the gain update. */
    method OnMidiMessage(m: Message, instrument: Instrument) returns (r: Outcome)
      requires Valid()
      modifies this, activeNotes.Values
      ensures Valid()
      ensures audioReady == old(audioReady)
      ensures activeNotes.Keys == NextNotes(old(activeNotes).Keys, Classify(m), audioReady)
      ensures forall n :: n in old(activeNotes) && n in activeNotes && n != m.note as int ==>
        activeNotes[n] == old(activeNotes)[n]
      ensures r == AudioNotInitialized <==> Classify(m).NoteOn? && !audioReady
      ensures Classify(m).Ignore? ==> activeNotes == old(activeNotes)
      ensures !audioReady ==> gainDivisor == old(gainDivisor)
      ensures forall o :: o in activeNotes.Values ==> o in old(activeNotes.Values) || fresh(o)
    {
      r := Dispatch(Classify(m), instrument);
      if r == AudioNotInitialized {
        return;
      }
      var d := CurrentGainDivisor();
      if !audioReady {
        return;
      }
      gainDivisor := d;
    }

    /** Messages delivered to the handler one after another, as the browser
        does: an error on one message does not stop the later ones. The table
        follows `Replay` of the classified messages. */
    method OnMidiMessages(ms: seq<Message>, instrument: Instrument)
      requires Valid()
      modifies this, activeNotes.Values
      ensures Valid()
      ensures audioReady == old(audioReady)
      ensures activeNotes.Keys == Replay(old(activeNotes).Keys, ClassifyAll(ms), audioReady)
      ensures forall o :: o in activeNotes.Values ==> o in old(activeNotes.Values) || fresh(o)
    {
      var i := 0;
      while i < |ms|
        invariant 0 <= i <= |ms|
        invariant Valid()
        invariant audioReady == old(audioReady)
        invariant activeNotes.Keys == Replay(old(activeNotes).Keys, ClassifyAll(ms[..i]), audioReady)
        invariant forall o :: o in activeNotes.Values ==> o in old(activeNotes.Values) || fresh(o)
      {
        ghost var keys := activeNotes.Keys;
        var outcome := OnMidiMessage(ms[i], instrument);
        assert activeNotes.Keys == Replay(old(activeNotes).Keys, ClassifyAll(ms[..i + 1]), audioReady) by {
          ReplayNextMessage(old(activeNotes).Keys, ms, i, audioReady);
        }
        i := i + 1;
      }
      assert ms[..i] == ms;
    }

    /** Two note-ons for the same note that is not in the table, below the
        cap: the second oscillator replaces the first in the table, and the
        first becomes an orphan. */
    method PlayTwice(note: int, velocity: int, instrument: Instrument) returns (first: Oscillator, second: Oscillator)
      requires Valid() && audioReady
      requires note !in activeNotes && |activeNotes| + 1 < MaxPolyphony
      modifies this
      ensures TableValid() && audioReady && gainDivisor == old(gainDivisor)
      ensures activeNotes.Keys == old(activeNotes).Keys + {note}
      ensures activeNotes[note] == second
      ensures forall n :: n in old(activeNotes) ==> activeNotes[n] == old(activeNotes)[n]
      ensures orphans == old(orphans) + {first}
      ensures fresh(first) && fresh(second) && first != second
    {
      ghost var before := activeNotes;
      var r := PlayMidiNote(note, velocity, instrument);
      first := activeNotes[note];
      ghost var once := activeNotes;
      assert orphans == old(orphans);
      assert once.Keys == before.Keys + {note};
      assert forall n :: n in before ==> once[n] == before[n];
      r := PlayMidiNote(note, velocity, instrument);
      second := activeNotes[note];
      assert orphans == old(orphans) + {first};
    }

    /** Two note-ons for the same note, then its note-off: the table ends as
        it began, but the first oscillator was replaced without being stopped
        and goes on sounding as an orphan; only the second one is stopped. */
    method PlayTwiceThenStop(note: int, velocity: int, instrument: Instrument) returns (first: Oscillator, second: Oscillator)
      requires Valid() && audioReady
      requires note !in activeNotes && |activeNotes| + 1 < MaxPolyphony
      modifies this
      ensures Valid()
      ensures activeNotes.Keys == old(activeNotes).Keys
      ensures forall n :: n in activeNotes ==> activeNotes[n] == old(activeNotes)[n]
      ensures orphans == old(orphans) + {first}
      ensures fresh(first) && first.Sounding() && forall n :: n in activeNotes ==> activeNotes[n] != first
      ensures fresh(second) && second != first && second.started && second.stopped && second.disconnected
    {
      ghost var before := activeNotes;
      first, second := PlayTwice(note, velocity, instrument);
      StopNote(note);
      assert activeNotes.Keys == before.Keys;
    }
  }
}
