/** The outgoing MIDI channel-voice messages and their 3-byte wire form
    (status byte 0x9n for Note On and 0xBn for Control Change, section
    "Channel Voice Messages" of the MIDI 1.0 Detailed Specification). */
module Midi {
  import opened Wrappers

  newtype byte = x: int | 0 <= x < 256

  /** A message as the translator builds it: the kind, the channel, and the two data values. */
  datatype MidiMsg =
    | NoteOn(channel: int, note: int, velocity: int)
    | ControlChange(channel: int, control: int, value: int)

  predicate IsChannel(c: int) { 0 <= c < 16 }

  predicate IsData(d: int) { 0 <= d < 128 }

  /** A message whose fields fit the wire format (what mido's constructor would accept). */
  predicate ValidMsg(m: MidiMsg) {
    match m
    case NoteOn(c, n, v) => IsChannel(c) && IsData(n) && IsData(v)
    case ControlChange(c, k, v) => IsChannel(c) && IsData(k) && IsData(v)
  }

  const NoteOnStatus: int := 0x90
  const ControlChangeStatus: int := 0xB0

  function Data1(m: MidiMsg): int {
    match m
    case NoteOn(_, n, _) => n
    case ControlChange(_, k, _) => k
  }

  function Data2(m: MidiMsg): int {
    match m
    case NoteOn(_, _, v) => v
    case ControlChange(_, _, v) => v
  }

  /** The three bytes handed to the MIDI sink. */
  function Encode(m: MidiMsg): (bs: seq<byte>)
    requires ValidMsg(m)
    ensures |bs| == 3
    ensures bs[0] as int / 16 == (if m.NoteOn? then 9 else 11)
    ensures bs[0] as int % 16 == m.channel
    ensures bs[1] as int == Data1(m) && bs[2] as int == Data2(m)
  {
    match m
    case NoteOn(c, n, v) => [(NoteOnStatus + c) as byte, n as byte, v as byte]
    case ControlChange(c, k, v) => [(ControlChangeStatus + c) as byte, k as byte, v as byte]
  }

  /** Reads back a 3-byte Note On or Control Change message; anything else is None. */
  function Decode(bs: seq<byte>): (r: Option<MidiMsg>)
    ensures r.Some? ==> |bs| == 3 && ValidMsg(r.value)
  {
    if |bs| != 3 || bs[1] >= 128 || bs[2] >= 128 then None
    else if bs[0] as int / 16 == 9 then Some(NoteOn(bs[0] as int % 16, bs[1] as int, bs[2] as int))
    else if bs[0] as int / 16 == 11 then Some(ControlChange(bs[0] as int % 16, bs[1] as int, bs[2] as int))
    else None
  }

  lemma DecodeEncode(m: MidiMsg)
    requires ValidMsg(m)
    ensures Decode(Encode(m)) == Some(m)
  {
  }

  lemma EncodeDecode(bs: seq<byte>)
    requires Decode(bs).Some?
    ensures Encode(Decode(bs).value) == bs
  {
    var m := Decode(bs).value;
    assert bs[0] as int == 16 * (bs[0] as int / 16) + bs[0] as int % 16;
    assert Encode(m)[0] == bs[0];
  }
}
