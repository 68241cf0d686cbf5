/** The mapping table: an exact OSC address string to a descriptor of the
    MIDI message it produces. */
module Mappings {
  import opened Midi

  /** The `value_map` of an absolute control: input range to output range. */
  datatype ValueMap = ValueMap(inMin: real, inMax: real, outMin: int, outMax: int)

  /** One descriptor per `type`: `note_on_off` (keyed by `note`),
      `cc_absolute` (with its `value_map`) and `cc_relative`. */
  datatype Mapping =
    | NoteOnOff(channel: int, note: int)
    | CcAbsolute(channel: int, control: int, valueMap: ValueMap)
    | CcRelative(channel: int, control: int)

  type Table = map<string, Mapping>

  /** Channel 0..15, note or control number 0..127 and, for an absolute
      control, output bounds 0..127: the ranges the mapping format documents. */
  predicate WellFormed(m: Mapping) {
    match m
    case NoteOnOff(c, n) => IsChannel(c) && IsData(n)
    case CcAbsolute(c, k, vm) => IsChannel(c) && IsData(k) && IsData(vm.outMin) && IsData(vm.outMax)
    case CcRelative(c, k) => IsChannel(c) && IsData(k)
  }

  predicate WellFormedTable(t: Table) {
    forall a :: a in t ==> WellFormed(t[a])
  }

  const ButtonAddress: string := "/tangent/bt/A/press"
  const KnobAddress: string := "/tangent/kn/A/delta"
  const WheelAddress: string := "/tangent/wh/A/delta"
  const FaderAddress: string := "/tangent/sl/A/value"

  /** The table the bridge ships with. */
  const MidiMapping: Table := map[
    ButtonAddress := NoteOnOff(0, 60),
    KnobAddress := CcRelative(0, 20),
    WheelAddress := CcRelative(0, 21),
    FaderAddress := CcAbsolute(0, 22, ValueMap(0.0, 1.0, 0, 127))
  ]

  /** The shipped table has exactly its four addresses, each well formed. */
  lemma MidiMappingWellFormed()
    ensures MidiMapping.Keys == {ButtonAddress, KnobAddress, WheelAddress, FaderAddress}
    ensures WellFormedTable(MidiMapping)
  {
  }
}
