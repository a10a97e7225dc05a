/** MIDI input decoding and output encoding of src/midi.rs: the two
    channel-voice messages the application uses, Note On (status 9nH) and
    Control Change (status BnH) of the MIDI 1.0 Detailed Specification,
    where `n` is the channel in the low nibble. Ports and connections are
    outside the model except for whether an output connection is open; the
    bytes written to it and the events handed to the receiving channel are
    recorded as lists. */
module Midi {
  import opened Common

  type Byte = bv8

  datatype MidiEvent =
    | NoteOn(channel: Byte, note: Byte, velocity: Byte)
    | ControlChange(channel: Byte, controller: Byte, value: Byte)

  /** The input callback's decoding of one message: messages shorter than
      three bytes and bytes after the third are ignored; a Note On with
      velocity 0 and every status other than Note On and Control Change
      give no event. */
  function Decode(message: seq<Byte>): (e: Option<MidiEvent>)
    ensures |message| < 3 ==> e == None
    ensures e.Some? ==> e.value.channel < 16
    ensures e.Some? && e.value.NoteOn? ==>
              message[0] >> 4 == 0x9 && e.value.note == message[1]
              && e.value.velocity == message[2] && message[2] > 0
    ensures e.Some? && e.value.ControlChange? ==>
              message[0] >> 4 == 0xB && e.value.controller == message[1] && e.value.value == message[2]
    ensures |message| >= 3 && message[0] >> 4 == 0xB ==> e.Some? && e.value.ControlChange?
    ensures |message| >= 3 && message[0] >> 4 == 0x9 ==> (e.Some? <==> message[2] > 0)
    ensures e.Some? ==> e.value.channel == message[0] % 16
  {
    if |message| >= 3 then
      var status := message[0];
      var data1 := message[1];
      var data2 := message[2];
      var channel := status & 0x0F;
      var msgType := status & 0xF0;
      if msgType == 0x90 && data2 > 0 then Some(NoteOn(channel, data1, data2))
      else if msgType == 0xB0 then Some(ControlChange(channel, data1, data2))
      else None
    else None
  }

  /** The three bytes `send_note_on` writes. */
  function NoteOnMessage(channel: Byte, note: Byte, velocity: Byte): seq<Byte>
  {
    [0x90 | (channel & 0x0F), note, velocity]
  }

  /** The three bytes `send_control_change` writes. */
  function ControlChangeMessage(channel: Byte, controller: Byte, value: Byte): seq<Byte>
  {
    [0xB0 | (channel & 0x0F), controller, value]
  }

  /** The message that carries an event. */
  function Encode(e: MidiEvent): seq<Byte>
  {
    match e
    case NoteOn(c, n, v) => NoteOnMessage(c, n, v)
    case ControlChange(c, k, v) => ControlChangeMessage(c, k, v)
  }

  /** Decoding what `send_note_on` writes gives the note and velocity back,
      on the channel's low nibble; a velocity of 0 decodes to nothing. */
  lemma NoteOnRoundTrip(channel: Byte, note: Byte, velocity: Byte)
    ensures velocity > 0 ==> Decode(NoteOnMessage(channel, note, velocity)) == Some(NoteOn(channel & 0x0F, note, velocity))
    ensures velocity == 0 ==> Decode(NoteOnMessage(channel, note, velocity)) == None
  {
  }

  /** Decoding what `send_control_change` writes gives the controller and
      value back, on the channel's low nibble. */
  lemma ControlChangeRoundTrip(channel: Byte, controller: Byte, value: Byte)
    ensures Decode(ControlChangeMessage(channel, controller, value))
              == Some(ControlChange(channel & 0x0F, controller, value))
  {
  }

  /** Every decoded event is re-encoded to the first three bytes of the
      message it came from: the decoder keeps all the information of the
      messages it accepts. */
  lemma DecodeEncode(message: seq<Byte>)
    requires Decode(message).Some?
    ensures Encode(Decode(message).value) == message[..3]
  {
    var status := message[0];
    assert status == (status & 0xF0) | (status & 0x0F);
  }

  class MidiManager {
    /** Whether an output connection is open. */
    var outputOpen: bool
    /** Every message written to the output connection, in order. */
    var written: seq<seq<Byte>>
    /** Events decoded by the input callback and not yet received. */
    var pending: seq<MidiEvent>

    constructor(outputOpen: bool)
      ensures this.outputOpen == outputOpen && written == [] && pending == []
    {
      this.outputOpen := outputOpen;
      written := [];
      pending := [];
    }

    /** `select_output`: the current output is dropped, and a new one is
        open only when the named port exists and connecting to it works. */
    method SelectOutput(portFound: bool, connects: bool)
      modifies this
      ensures outputOpen == (portFound && connects)
      ensures written == old(written) && pending == old(pending)
    {
      outputOpen := false;
      if portFound && connects {
        outputOpen := true;
      }
    }

    /** The input callback: a decoded event is sent on the channel. */
    method OnInput(message: seq<Byte>)
      modifies this
      ensures outputOpen == old(outputOpen) && written == old(written)
      ensures pending == old(pending) + (if Decode(message).Some? then [Decode(message).value] else [])
    {
      var event := Decode(message);
      if event.Some? {
        pending := pending + [event.value];
      }
    }

    /** `try_recv`: the oldest pending event, if any. */
    method TryRecv() returns (e: Option<MidiEvent>)
      modifies this
      ensures outputOpen == old(outputOpen) && written == old(written)
      ensures old(pending) == [] ==> e == None && pending == []
      ensures old(pending) != [] ==> e == Some(old(pending)[0]) && pending == old(pending)[1..]
    {
      if pending == [] {
        return None;
      }
      e := Some(pending[0]);
      pending := pending[1..];
    }

    /** `send_note_on`: writes the message only when an output is open. */
    method SendNoteOn(channel: Byte, note: Byte, velocity: Byte)
      modifies this
      ensures outputOpen == old(outputOpen) && pending == old(pending)
      ensures written == old(written) + (if outputOpen then [NoteOnMessage(channel, note, velocity)] else [])
    {
      if outputOpen {
        written := written + [[0x90 | (channel & 0x0F), note, velocity]];
      }
    }

    /** `send_control_change`: writes the message only when an output is
        open. */
    method SendControlChange(channel: Byte, controller: Byte, value: Byte)
      modifies this
      ensures outputOpen == old(outputOpen) && pending == old(pending)
      ensures written == old(written) + (if outputOpen then [ControlChangeMessage(channel, controller, value)] else [])
    {
      if outputOpen {
        written := written + [[0xB0 | (channel & 0x0F), controller, value]];
      }
    }
  }
}
