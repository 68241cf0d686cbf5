/** `osc_handler`: one OSC event (address and arguments) in, at most one MIDI
    message out, with the per-control accumulator `cc_values` for relative
    controls. `Translate` is the handler as a function of the old state;
    `Bridge.Handle` is the handler updating its state in place. */
module Translator {
  import opened Wrappers
  import opened Exceptions
  import opened Midi
  import opened Mappings
  import opened Scaling

  /** What one call of the handler does: send a message, find no mapping, or
      raise (and swallow) an exception. */
  datatype Outcome =
    | Sent(msg: MidiMsg)
    | Unmapped
    | Raised(error: Exception)

  /** `cc_values`: control number to the last value sent for that relative control. */
  type CcValues = map<int, int>

  /** Where a relative control starts on its first event. */
  const Center: int := 64

  /** Every stored relative value is a MIDI data value. */
  predicate InRange(cc: CcValues) {
    forall k :: k in cc ==> IsData(cc[k])
  }

  /** A button sends full velocity for a positive argument and 0 otherwise. */
  function Velocity(x: real): int {
    if x > 0.0 then 127 else 0
  }

  /** The value a relative control holds before an event: its stored value,
      or the center on first use. */
  function Current(cc: CcValues, control: int): int {
    if control in cc then cc[control] else Center
  }

  /** The handler as a function: its outcome and the new `cc_values`. Every
      kind reads `args[0]` before anything else, so an empty argument list
      raises IndexError with the state untouched. */
  function Translate(table: Table, cc: CcValues, address: string, args: seq<real>): (res: (Outcome, CcValues))
    ensures res.0.Sent? ==> address in table && |args| > 0
    ensures !res.0.Sent? ==> res.1 == cc
    ensures res.1 != cc ==> address in table && table[address].CcRelative?
  {
    if address !in table then (Unmapped, cc)
    else if |args| == 0 then (Raised(IndexError), cc)
    else
      match table[address]
      case NoteOnOff(ch, note) => (Sent(NoteOn(ch, note, Velocity(args[0]))), cc)
      case CcAbsolute(ch, control, vm) =>
        (match ScaleValue(args[0], vm.inMin, vm.inMax, vm.outMin, vm.outMax)
         case Ok(v) => (Sent(ControlChange(ch, control, v)), cc)
         case Err(e) => (Raised(e), cc))
      case CcRelative(ch, control) =>
        var next := ClampInt(0, 127, Current(cc, control) + Trunc(args[0]));
        (Sent(ControlChange(ch, control, next)), cc[control := next])
  }

  /** The bridge: the mapping table it was built with and the accumulator it
      updates on every relative event. */
  class Bridge {
    const table: Table
    var ccValues: CcValues

    ghost predicate Valid()
      reads this
    {
      InRange(ccValues)
    }

    constructor (t: Table)
      ensures Valid()
      ensures table == t && ccValues == map[]
    {
      table := t;
      ccValues := map[];
    }

    /** One call of `osc_handler`. */
    method Handle(address: string, args: seq<real>) returns (out: Outcome)
      requires Valid()
      modifies this`ccValues
      ensures Valid()
      ensures (out, ccValues) == Translate(table, old(ccValues), address, args)
      ensures WellFormedTable(table) && out.Sent? ==> ValidMsg(out.msg)
    {
      if address !in table {
        return Unmapped;
      }
      var mapping := table[address];
      if |args| == 0 {
        return Raised(IndexError);
      }
      match mapping
      case NoteOnOff(ch, note) =>
        var velocity := Velocity(args[0]);
        out := Sent(NoteOn(ch, note, velocity));
      case CcAbsolute(ch, control, vm) =>
        var scaled := ScaleValue(args[0], vm.inMin, vm.inMax, vm.outMin, vm.outMax);
        match scaled {
          case Ok(v) =>
            ScaleBounds(args[0], vm.inMin, vm.inMax, vm.outMin, vm.outMax);
            out := Sent(ControlChange(ch, control, v));
          case Err(e) =>
            out := Raised(e);
        }
      case CcRelative(ch, control) =>
        var delta := Trunc(args[0]);
        ghost var before := ccValues;
        if control !in ccValues {
          ccValues := ccValues[control := Center];
        }
        ccValues := ccValues[control := ClampInt(0, 127, ccValues[control] + delta)];
        out := Sent(ControlChange(ch, control, ccValues[control]));
        assert ccValues == before[control := ClampInt(0, 127, Current(before, control) + delta)];
    }
  }

  // ---------------------------------------------------------------------------
  // Properties of one event

  /** An address with no mapping sends nothing and changes nothing. */
  lemma UnmappedIsIgnored(table: Table, cc: CcValues, address: string, args: seq<real>)
    requires address !in table
    ensures Translate(table, cc, address, args) == (Unmapped, cc)
  {
  }

  /** A mapped event without an argument raises IndexError and changes nothing. */
  lemma MissingArgument(table: Table, cc: CcValues, address: string)
    requires address in table
    ensures Translate(table, cc, address, []) == (Raised(IndexError), cc)
  {
  }

  /** A button always sends Note On on its channel and note, never Note
      Off: velocity 127 exactly when the argument is positive, else 0. */
  lemma ButtonSendsNoteOn(table: Table, cc: CcValues, address: string, args: seq<real>)
    requires address in table && table[address].NoteOnOff?
    requires |args| > 0
    ensures var (out, cc') := Translate(table, cc, address, args);
      cc' == cc && out.Sent? && out.msg.NoteOn?
      && out.msg.channel == table[address].channel && out.msg.note == table[address].note
      && (out.msg.velocity == 127 <==> args[0] > 0.0)
      && (out.msg.velocity == 0 <==> args[0] <= 0.0)
  {
  }

  /** Press (0.5 counts as pressed) and release of the shipped button. */
  lemma ButtonExamples(cc: CcValues)
    ensures Translate(MidiMapping, cc, ButtonAddress, [1.0]).0 == Sent(NoteOn(0, 60, 127))
    ensures Translate(MidiMapping, cc, ButtonAddress, [0.5]).0 == Sent(NoteOn(0, 60, 127))
    ensures Translate(MidiMapping, cc, ButtonAddress, [0.0]).0 == Sent(NoteOn(0, 60, 0))
    ensures Translate(MidiMapping, cc, ButtonAddress, [-1.0]).0 == Sent(NoteOn(0, 60, 0))
  {
  }

  /** An absolute control keeps no state: the state is unchanged and the
      outcome does not depend on it, so repeating an event repeats the message. */
  lemma AbsoluteIsStateless(table: Table, cc1: CcValues, cc2: CcValues, address: string, args: seq<real>)
    requires address in table && table[address].CcAbsolute?
    ensures Translate(table, cc1, address, args).1 == cc1
    ensures Translate(table, cc1, address, args).0 == Translate(table, cc2, address, args).0
  {
  }

  /** An absolute control with `inMin == inMax` raises ZeroDivisionError: nothing is sent. */
  lemma DegenerateRangeSendsNothing(table: Table, cc: CcValues, address: string, args: seq<real>)
    requires address in table && table[address].CcAbsolute?
    requires table[address].valueMap.inMin == table[address].valueMap.inMax
    requires |args| > 0
    ensures Translate(table, cc, address, args) == (Raised(ZeroDivisionError), cc)
  {
  }

  /** An absolute control with a proper input range sends a Control Change on
      its channel and control, with a value between the output bounds. */
  lemma AbsoluteSendsScaledValue(table: Table, cc: CcValues, address: string, args: seq<real>)
    requires address in table && table[address].CcAbsolute?
    requires table[address].valueMap.inMin != table[address].valueMap.inMax
    requires |args| > 0
    ensures var vm := table[address].valueMap;
      var out := Translate(table, cc, address, args).0;
      out.Sent? && out.msg.ControlChange?
      && out.msg.channel == table[address].channel && out.msg.control == table[address].control
      && out.msg.value == ScaleValue(args[0], vm.inMin, vm.inMax, vm.outMin, vm.outMax).value
      && Min(vm.outMin, vm.outMax) <= out.msg.value <= Max(vm.outMin, vm.outMax)
  {
    var vm := table[address].valueMap;
    ScaleBounds(args[0], vm.inMin, vm.inMax, vm.outMin, vm.outMax);
  }

  /** The shipped fader: the midpoint truncates to 63, the ends give 0 and 127,
      and inputs beyond the ends saturate. */
  lemma FaderExamples(cc: CcValues)
    ensures Translate(MidiMapping, cc, FaderAddress, [0.0]).0 == Sent(ControlChange(0, 22, 0))
    ensures Translate(MidiMapping, cc, FaderAddress, [0.5]).0 == Sent(ControlChange(0, 22, 63))
    ensures Translate(MidiMapping, cc, FaderAddress, [1.0]).0 == Sent(ControlChange(0, 22, 127))
    ensures Translate(MidiMapping, cc, FaderAddress, [-3.0]).0 == Sent(ControlChange(0, 22, 0))
    ensures Translate(MidiMapping, cc, FaderAddress, [7.5]).0 == Sent(ControlChange(0, 22, 127))
  {
    FaderScaling();
    ScaleSaturatesLow(-3.0, 0.0, 1.0, 0, 127);
    ScaleSaturatesHigh(7.5, 0.0, 1.0, 0, 127);
  }

  /** A relative event adds the truncated delta to the control's current value
      (64 on first use), clamps to 0..127, stores it under the control number
      and sends it; no other entry changes. */
  lemma RelativeAccumulates(table: Table, cc: CcValues, address: string, args: seq<real>)
    requires address in table && table[address].CcRelative?
    requires |args| > 0
    ensures var m := table[address];
      var (out, cc') := Translate(table, cc, address, args);
      var next := ClampInt(0, 127, Current(cc, m.control) + Trunc(args[0]));
      0 <= next <= 127
      && cc'.Keys == cc.Keys + {m.control}
      && cc'[m.control] == next
      && (forall k :: k in cc && k != m.control ==> cc'[k] == cc[k])
      && out == Sent(ControlChange(m.channel, m.control, next))
  {
  }

  /** Two relative mappings with the same control number share one
      accumulator, whatever their address or channel. */
  lemma SharedAccumulator(table: Table, cc: CcValues, a1: string, a2: string, args1: seq<real>, args2: seq<real>)
    requires a1 in table && a2 in table && table[a1].CcRelative? && table[a2].CcRelative?
    requires table[a1].control == table[a2].control
    requires |args1| > 0 && |args2| > 0
    ensures var k := table[a1].control;
      var cc1 := Translate(table, cc, a1, args1).1;
      Translate(table, cc1, a2, args2).1[k] == ClampInt(0, 127, cc1[k] + Trunc(args2[0]))
  {
  }

  /** Every event keeps all stored values in 0..127. */
  lemma TranslatePreservesInRange(table: Table, cc: CcValues, address: string, args: seq<real>)
    requires InRange(cc)
    ensures InRange(Translate(table, cc, address, args).1)
  {
  }

  /** With a well-formed table every message that is sent fits the MIDI wire
      format, whatever the state, so its 3-byte encoding exists and reads back as itself. */
  lemma SentMessagesAreValid(table: Table, cc: CcValues, address: string, args: seq<real>)
    requires WellFormedTable(table)
    requires Translate(table, cc, address, args).0.Sent?
    ensures ValidMsg(Translate(table, cc, address, args).0.msg)
    ensures Decode(Encode(Translate(table, cc, address, args).0.msg)) == Some(Translate(table, cc, address, args).0.msg)
  {
    var m := table[address];
    if m.CcAbsolute? {
      ScaleBounds(args[0], m.valueMap.inMin, m.valueMap.inMax, m.valueMap.outMin, m.valueMap.outMax);
    }
    DecodeEncode(Translate(table, cc, address, args).0.msg);
  }

  // ---------------------------------------------------------------------------
  // Sequences of events, handled one after another

  datatype Event = Event(address: string, args: seq<real>)

  /** The handler applied to each event in order, threading `cc_values`. */
  function Run(table: Table, cc: CcValues, events: seq<Event>): (res: (seq<Outcome>, CcValues))
    ensures |res.0| == |events|
    decreases |events|
  {
    if events == [] then ([], cc)
    else
      var (out, cc1) := Translate(table, cc, events[0].address, events[0].args);
      var (outs, cc2) := Run(table, cc1, events[1..]);
      ([out] + outs, cc2)
  }

  /** The stored values stay in 0..127 over any run, and with a well-formed
      table every message sent on the way is valid. */
  lemma {:induction false} RunPreservesInRange(table: Table, cc: CcValues, events: seq<Event>)
    requires InRange(cc)
    ensures InRange(Run(table, cc, events).1)
    ensures WellFormedTable(table) ==>
      forall i :: 0 <= i < |events| && Run(table, cc, events).0[i].Sent? ==> ValidMsg(Run(table, cc, events).0[i].msg)
    decreases |events|
  {
    if events != [] {
      var e := events[0];
      var (out, cc1) := Translate(table, cc, e.address, e.args);
      TranslatePreservesInRange(table, cc, e.address, e.args);
      RunPreservesInRange(table, cc1, events[1..]);
      if WellFormedTable(table) && out.Sent? {
        SentMessagesAreValid(table, cc, e.address, e.args);
      }
      var outs := Run(table, cc, events).0;
      assert outs == [out] + Run(table, cc1, events[1..]).0;
    }
  }

  /** Running two batches one after the other is running their concatenation. */
  lemma {:induction false} RunAppend(table: Table, cc: CcValues, xs: seq<Event>, ys: seq<Event>)
    ensures var (o1, c1) := Run(table, cc, xs);
      var (o2, c2) := Run(table, c1, ys);
      Run(table, cc, xs + ys) == (o1 + o2, c2)
    decreases |xs|
  {
    if xs != [] {
      assert (xs + ys)[0] == xs[0];
      assert (xs + ys)[1..] == xs[1..] + ys;
      var (out, cc1) := Translate(table, cc, xs[0].address, xs[0].args);
      RunAppend(table, cc1, xs[1..], ys);
      var r1 := Run(table, cc1, xs[1..]);
      var r2 := Run(table, r1.1, ys);
      assert Run(table, cc, xs) == ([out] + r1.0, r1.1);
      assert Run(table, cc, xs + ys) == ([out] + (r1.0 + r2.0), r2.1);
      assert [out] + (r1.0 + r2.0) == ([out] + r1.0) + r2.0;
    } else {
      assert xs + ys == ys;
      assert Run(table, cc, xs).0 == [];
      assert [] + Run(table, cc, ys).0 == Run(table, cc, ys).0;
    }
  }

  /** An unmapped event anywhere in a run yields Unmapped and does not
      disturb what the other events send or the final state. */
  lemma RunIgnoresUnmapped(table: Table, cc: CcValues, xs: seq<Event>, e: Event, ys: seq<Event>)
    requires e.address !in table
    ensures var (outs, final) := Run(table, cc, xs + ys);
      Run(table, cc, xs + [e] + ys) == (outs[..|xs|] + [Unmapped] + outs[|xs|..], final)
  {
    var (o1, c1) := Run(table, cc, xs);
    var (o2, c2) := Run(table, c1, ys);
    RunAppend(table, cc, xs, ys);
    RunAppend(table, cc, xs, [e] + ys);
    assert Run(table, c1, [e] + ys) == ([Unmapped] + o2, c2) by {
      assert ([e] + ys)[0] == e && ([e] + ys)[1..] == ys;
      assert Translate(table, c1, e.address, e.args) == (Unmapped, c1);
    }
    assert xs + [e] + ys == xs + ([e] + ys);
    assert Run(table, cc, xs + [e] + ys) == (o1 + ([Unmapped] + o2), c2);
    var outs := o1 + o2;
    assert |o1| == |xs|;
    assert outs[..|xs|] == o1 && outs[|xs|..] == o2;
    assert o1 + ([Unmapped] + o2) == outs[..|xs|] + [Unmapped] + outs[|xs|..];
  }

  /** Starting fresh, knob deltas +5, -3, +100 send 69, 66 and the clamped 127. */
  lemma KnobExample()
    ensures Run(MidiMapping, map[], [Event(KnobAddress, [5.0]), Event(KnobAddress, [-3.0]), Event(KnobAddress, [100.0])])
      == ([Sent(ControlChange(0, 20, 69)), Sent(ControlChange(0, 20, 66)), Sent(ControlChange(0, 20, 127))], map[20 := 127])
  {
    var evs := [Event(KnobAddress, [5.0]), Event(KnobAddress, [-3.0]), Event(KnobAddress, [100.0])];
    assert Trunc(-3.0) == -3;
    assert map[20 := 69][20 := 66] == map[20 := 66];
    assert map[20 := 66][20 := 127] == map[20 := 127];
    assert Translate(MidiMapping, map[], KnobAddress, [5.0]) == (Sent(ControlChange(0, 20, 69)), map[20 := 69]);
    assert Translate(MidiMapping, map[20 := 69], KnobAddress, [-3.0]) == (Sent(ControlChange(0, 20, 66)), map[20 := 66]);
    assert Translate(MidiMapping, map[20 := 66], KnobAddress, [100.0]) == (Sent(ControlChange(0, 20, 127)), map[20 := 127]);
    var tail1 := [Event(KnobAddress, [-3.0]), Event(KnobAddress, [100.0])];
    var tail2 := [Event(KnobAddress, [100.0])];
    assert evs[1..] == tail1 && tail1[1..] == tail2 && tail2[1..] == [];
    assert Run(MidiMapping, map[20 := 127], []) == ([], map[20 := 127]);
    assert [Sent(ControlChange(0, 20, 127))] + [] == [Sent(ControlChange(0, 20, 127))];
    assert Run(MidiMapping, map[20 := 66], tail2) == ([Sent(ControlChange(0, 20, 127))], map[20 := 127]);
    assert [Sent(ControlChange(0, 20, 66))] + [Sent(ControlChange(0, 20, 127))]
      == [Sent(ControlChange(0, 20, 66)), Sent(ControlChange(0, 20, 127))];
    assert Run(MidiMapping, map[20 := 69], tail1)
      == ([Sent(ControlChange(0, 20, 66)), Sent(ControlChange(0, 20, 127))], map[20 := 127]);
    assert [Sent(ControlChange(0, 20, 69))] + [Sent(ControlChange(0, 20, 66)), Sent(ControlChange(0, 20, 127))]
      == [Sent(ControlChange(0, 20, 69)), Sent(ControlChange(0, 20, 66)), Sent(ControlChange(0, 20, 127))];
  }
}
