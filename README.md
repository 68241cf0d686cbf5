# Tangent OSC to MIDI bridge: the translation engine

This project models the translation engine of the Tangent-to-MIDI bridge
(`tangent_to_midi.py`). The bridge receives OSC events from a Tangent control
surface and turns each one into at most one MIDI channel-voice message:

- **Mapping table.** `MIDI_MAPPING` maps an exact OSC address to a descriptor.
  A descriptor is one of three kinds. A `note_on_off` button has a channel and a
  note. A `cc_absolute` fader has a channel, a control number and a `value_map`.
  A `cc_relative` knob or jog wheel has a channel and a control number. This is
  `Mappings.Mapping` and `Mappings.MidiMapping`.
- **`scale_value`.** It clamps the input into `[in_min, in_max]`, maps it
  linearly onto `[out_min, out_max]` and truncates with `int()`. A zero input
  span raises `ZeroDivisionError`. This is `Scaling.ScaleValue`.
- **`osc_handler`.** It drops unknown addresses and reads `args[0]`.
  A button sends Note On with velocity 127 when the argument is positive and
  velocity 0 otherwise; a release is never sent as Note Off.
  An absolute control sends the scaled value as a Control Change.
  A relative control adds `int(args[0])` to the accumulator `cc_values[control]`.
  The accumulator starts at 64 and is clamped to 0..127; the new value is stored
  and sent. The handler catches any exception, and then nothing is sent.
  `Translator.Translate` is the handler as a function of the old accumulator.
  `Translator.Bridge.Handle` is the same handler as a method that updates the
  accumulator field `ccValues` in place and is proved equal to `Translate`.
- **Wire form.** `Midi.Encode` gives the 3-byte form of the message: status
  0x9n for Note On and 0xBn for Control Change, as in the MIDI 1.0 Detailed
  Specification. `Midi.Decode` reads it back.

`Translator.Run` applies the handler to a sequence of events, one after
another. It is used to state properties of event histories.

Choices the code makes, which the model keeps:
- A release is Note On with velocity 0, and any positive argument is a press.
  Arguments other than 0 and 1 are not rejected.
- `scale_value` clamps the input before scaling and truncates toward zero.
  It does not round. So 0.5 on the fader gives 63, not 64.
- A degenerate input range (`in_min == in_max`) raises `ZeroDivisionError`,
  and the handler sends nothing.
- Relative controls accumulate: the delta is truncated toward zero and added
  to the stored value; there is no configurable sign convention.

## Model

| member | source | states |
|---|---|---|
| `Mappings.MidiMappingWellFormed` | tangent_to_midi.py:34-71 | the shipped table has exactly the button, knob, wheel and fader addresses, and every entry has channel 0..15, note or control 0..127 and output bounds 0..127 |
| `Scaling.Trunc` | tangent_to_midi.py:87 | `int()` on a number: the result is the integer between 0 and the input that is less than 1 away from it (truncation toward zero) |
| `Scaling.ClampReal` | tangent_to_midi.py:82 | `max(lo, min(hi, x))`: the result is never below `lo`; with `lo <= hi` it is in `[lo, hi]`, equals `x` inside, `lo` below and `hi` above; with `hi < lo` it is `lo` |
| `Scaling.ClampInt` | tangent_to_midi.py:121 | the same clamp on integers, used with 0..127 for relative controls |
| `Scaling.ScaleValue` | tangent_to_midi.py:79-87 | the result is an error exactly when `inMin == inMax`, and that error is ZeroDivisionError |
| `Scaling.ScaleSaturatesLow` | tangent_to_midi.py:82-87 | for a non-degenerate range, any input at or below `inMin` gives exactly `outMin` |
| `Scaling.ScaleSaturatesHigh` | tangent_to_midi.py:82-87 | for `inMin < inMax`, any input at or above `inMax` gives exactly `outMax` |
| `Scaling.ScaleBounds` | tangent_to_midi.py:79-87 | for any non-degenerate input range and any input, the result lies between the two output bounds, in either order |
| `Scaling.ScaleInOutputRange` | tangent_to_midi.py:79-87 | for `inMin < inMax` and `outMin <= outMax`, the result is in `[outMin, outMax]` |
| `Scaling.ScaleMonotone` | tangent_to_midi.py:82-87 | for `inMin < inMax` and `outMin <= outMax`, a larger input never gives a smaller result |
| `Scaling.FaderScaling` | tangent_to_midi.py:69 | with the fader range 0.0..1.0 to 0..127, input 0.0 gives 0, 1.0 gives 127 and 0.5 gives 63 (truncated, not rounded) |
| `Midi.Encode` | tangent_to_midi.py:125-127 | a valid message is 3 bytes: the status byte carries the kind (9 or 11) and the channel, then the two data values |
| `Midi.DecodeEncode` | tangent_to_midi.py:125-127 | decoding the bytes of a valid message gives that message back |
| `Midi.EncodeDecode` | tangent_to_midi.py:125-127 | bytes that decode to a message are exactly that message's encoding |
| `Translator.Translate` | tangent_to_midi.py:89-130 | a message is sent only for a mapped address with an argument; when nothing is sent the state is unchanged; only a relative control ever changes the state |
| `Translator.Bridge.constructor` | tangent_to_midi.py:75 | a new bridge holds the given table and an empty accumulator |
| `Translator.Bridge.Handle` | tangent_to_midi.py:89-130 | the outcome and the new accumulator are those of `Translate` on the old accumulator; every stored value stays in 0..127; with a well-formed table every sent message is valid MIDI |
| `Translator.UnmappedIsIgnored` | tangent_to_midi.py:94 | an unmapped address sends nothing and leaves the state unchanged |
| `Translator.MissingArgument` | tangent_to_midi.py:98-130 | a mapped event with no argument raises IndexError before any state change, so nothing is sent and nothing changes |
| `Translator.ButtonSendsNoteOn` | tangent_to_midi.py:99-102 | a button always sends Note On on its channel and note; velocity is 127 iff the argument is positive and 0 iff it is not; the state is unchanged |
| `Translator.ButtonExamples` | tangent_to_midi.py:99-102 | the shipped button sends velocity 127 for 1.0 and 0.5, and velocity 0 for 0.0 and -1.0 |
| `Translator.AbsoluteIsStateless` | tangent_to_midi.py:104-109 | an absolute event never changes the state, and its outcome does not depend on the state, so repeating it repeats the message |
| `Translator.DegenerateRangeSendsNothing` | tangent_to_midi.py:104-130 | an absolute control with `inMin == inMax` raises ZeroDivisionError: nothing is sent and the state is unchanged |
| `Translator.AbsoluteSendsScaledValue` | tangent_to_midi.py:104-109 | a non-degenerate absolute control sends a Control Change on its channel and control whose value is exactly `ScaleValue` of the argument and the mapping's `value_map`, hence between its output bounds |
| `Translator.FaderExamples` | tangent_to_midi.py:65-70 | the shipped fader sends 0, 63 and 127 for 0.0, 0.5 and 1.0, and saturates at 0 and 127 for -3.0 and 7.5 |
| `Translator.RelativeAccumulates` | tangent_to_midi.py:111-123 | a relative event stores and sends clamp(current + trunc(delta), 0, 127), where current is 64 on first use; it sets only the entry of its own control number |
| `Translator.SharedAccumulator` | tangent_to_midi.py:114-121 | two relative mappings with the same control number share one accumulator, whatever their addresses or channels |
| `Translator.TranslatePreservesInRange` | tangent_to_midi.py:117-121 | if every stored value is in 0..127 before an event, it is after it |
| `Translator.SentMessagesAreValid` | tangent_to_midi.py:99-123 | with a well-formed table, in any state, every sent message has channel 0..15 and data values 0..127, and its 3-byte encoding decodes back to it |
| `Translator.Run` | tangent_to_midi.py:89-130 | handling a sequence of events one by one gives exactly one outcome per event |
| `Translator.RunPreservesInRange` | tangent_to_midi.py:117-121 | over any sequence of events the stored values stay in 0..127, and with a well-formed table every sent message is valid |
| `Translator.RunIgnoresUnmapped` | tangent_to_midi.py:94 | an unmapped event anywhere in a sequence yields Unmapped and changes neither the other events' outcomes nor the final state |
| `Translator.KnobExample` | tangent_to_midi.py:113-123 | starting fresh, knob deltas +5, -3 and +100 send 69, 66 and 127, and leave 127 stored for control 20 |

## Left out

- `main()` (tangent_to_midi.py:132-178) is left out. It selects the mido backend, opens the virtual MIDI port and runs the threaded OSC UDP server and the sleep loop. All of this is I/O and process lifecycle.
- Sending and logging are left out. `midi_out_port.send` and every `print` are I/O. A sent message is the `Sent` outcome, and its bytes are `Midi.Encode`.
- mido's validation inside `mido.Message` is not modelled. The model builds the message whatever its field values. `Translator.SentMessagesAreValid` shows that with a well-formed table every message is in range, so that validation could not fail.
- Concurrency is left out. The threading server may call the handler from several threads; the model handles events strictly one after another.
- IEEE-754 floating point is left out. `scale_value` is computed in exact real arithmetic with truncation toward zero. Rounding of doubles, infinities and NaN are not modelled.
- Python's dynamic typing of `args[0]` is left out. Arguments are reals; an empty list stands for the IndexError path. Non-numeric arguments, and extra arguments beyond the first, play no part.
- A mapping whose `type` is none of the three kinds, or that lacks a key it needs, cannot be written: the descriptor is a closed datatype with the fields of its kind.
