/** Classification of the three-byte MIDI messages that reach the input
    handler (src/midi.ts:68-76): `[status, note, velocity]`, with the command
    in the status byte's high nibble and the channel in its low nibble. */
module Messages {

  /** An element of the `Uint8Array` that carries a MIDI message. */
  newtype Byte = x: int | 0 <= x < 256

  datatype Message = Message(status: Byte, note: Byte, velocity: Byte)

  /** What the handler does with a message. */
  datatype Action = NoteOn(note: nat, velocity: nat) | NoteOff(note: nat) | Ignore

  /** The command nibbles the handler reacts to (MIDI 1.0 Detailed
      Specification, Channel Voice Messages). */
  const NoteOffCommand: nat := 8
  const NoteOnCommand: nat := 9

  /** `status >> 4`. */
  function Command(status: Byte): (c: nat)
    ensures c < 16
    ensures 16 * c <= status as int < 16 * (c + 1)
  {
    status as int / 16
  }

  /** The channel, the low nibble of the status byte, which the handler ignores. */
  function Channel(status: Byte): (ch: nat)
    ensures ch < 16
    ensures status as int == 16 * Command(status) + ch
  {
    status as int % 16
  }

  /** Command 8, or command 9 with velocity 0, stops the note; command 9 with
      any other velocity plays it; everything else is ignored. */
  function Classify(m: Message): (a: Action)
    ensures a.NoteOff? <==>
      Command(m.status) == NoteOffCommand || (Command(m.status) == NoteOnCommand && m.velocity == 0)
    ensures a.NoteOn? <==> Command(m.status) == NoteOnCommand && m.velocity != 0
    ensures !a.Ignore? ==> a.note == m.note as int
    ensures a.NoteOn? ==> a.velocity == m.velocity as int && 0 < a.velocity < 256
  {
    var command := Command(m.status);
    if command == NoteOffCommand || (command == NoteOnCommand && m.velocity == 0) then
      NoteOff(m.note as nat)
    else if command == NoteOnCommand then
      NoteOn(m.note as nat, m.velocity as nat)
    else
      Ignore
  }

  /** The decisions for a series of messages, one per message in order. */
  function ClassifyAll(ms: seq<Message>): (actions: seq<Action>)
    ensures |actions| == |ms|
    ensures forall i :: 0 <= i < |ms| ==> actions[i] == Classify(ms[i])
  {
    seq(|ms|, i requires 0 <= i < |ms| => Classify(ms[i]))
  }

  // ---------------------------------------------------------------------
  // The encodings of the MIDI 1.0 Detailed Specification, Channel Voice
  // Messages: the reference Classify is checked against.
  // ---------------------------------------------------------------------

  predicate IsDataByte(b: nat) { b < 128 }

  function StatusByte(command: nat, channel: nat): (b: Byte)
    requires 8 <= command < 16 && channel < 16
    ensures Command(b) == command && Channel(b) == channel
  {
    (16 * command + channel) as Byte
  }

  /** "Note On" on a channel: status 0x9n. */
  function NoteOnMessage(channel: nat, note: nat, velocity: nat): Message
    requires channel < 16 && IsDataByte(note) && IsDataByte(velocity)
  {
    Message(StatusByte(NoteOnCommand, channel), note as Byte, velocity as Byte)
  }

  /** "Note Off" on a channel: status 0x8n, with a release velocity. */
  function NoteOffMessage(channel: nat, note: nat, velocity: nat): Message
    requires channel < 16 && IsDataByte(note) && IsDataByte(velocity)
  {
    Message(StatusByte(NoteOffCommand, channel), note as Byte, velocity as Byte)
  }

  /** A Note On with non-zero velocity plays its note, on every channel. */
  lemma NoteOnPlays(channel: nat, note: nat, velocity: nat)
    requires channel < 16 && IsDataByte(note) && IsDataByte(velocity) && velocity > 0
    ensures Classify(NoteOnMessage(channel, note, velocity)) == NoteOn(note, velocity)
  {
  }

  /** A Note Off stops its note whatever its release velocity, and a Note On
      with velocity 0 means the same thing. */
  lemma NoteOffStops(channel: nat, note: nat, velocity: nat)
    requires channel < 16 && IsDataByte(note) && IsDataByte(velocity)
    ensures Classify(NoteOffMessage(channel, note, velocity)) == NoteOff(note)
    ensures Classify(NoteOnMessage(channel, note, 0)) == NoteOff(note)
  {
  }

  /** The channel nibble never changes the outcome. */
  lemma ClassifyIgnoresChannel(m: Message, channel: nat)
    requires channel < 16
    ensures Classify(m.(status := (16 * Command(m.status) + channel) as Byte)) == Classify(m)
  {
    var status := (16 * Command(m.status) + channel) as Byte;
    assert Command(status) == Command(m.status);
  }

  /** Every status outside 0x80..0x9F (control change, program change, pitch
      bend, system messages, ...) is ignored, whatever its data bytes. */
  lemma OtherStatusesIgnored(m: Message)
    requires m.status < 0x80 || 0xA0 <= m.status
    ensures Classify(m) == Ignore
  {
  }
}
