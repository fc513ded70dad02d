/**
 * The two decoders stacked: the SMBus framer's Python records are what the
 * PMBus decoder's `decode` consumes. Beyond the lossless hand-over of one
 * record (`DecodeFramerRecord`), this module is one worked example, a Write
 * Byte of 0x17 to VOUT_MODE at address 0x40 followed through both decoders;
 * the general properties of each decoder are in SMBusLemmas and PMBusLemmas.
 */
module Cascade {
  import opened Wrappers
  import opened SMBusCommon
  import opened PMBusCommands
  import SMBus
  import SMBusLemmas
  import PMBus
  import PMBusLemmas

  /** The PMBus view of a framer record. */
  function StepOf(f: SMBus.Frame): PMBusLemmas.Step
  {
    PMBusLemmas.Step(f.kind, f.ss, f.es, f.payload)
  }

  /** The framer writes `[kind.value, payload]`; PMBus `decode` reads the kind back with `SMBusSym(id)`, losing nothing. */
  lemma DecodeFramerRecord(c: PMBus.Context, f: SMBus.Frame)
    requires PMBus.Inv(c)
    ensures PMBus.Decode(c, Ordinal(f.kind), f.ss, f.es, f.payload) == PMBus.Transition(c, f.kind, f.ss, f.es, f.payload)
  {
    SymOfOrdinal(f.kind);
  }

  /**
   * The address byte 0x40 with the write bit (0x80 on the wire) as the I2C
   * decoder's bit list: bit 0 (the last on the wire) first, each bit one
   * sample wide, ending at sample 9.
   */
  const AddressSamples: seq<SMBus.BitSample> := [
    SMBus.BitSample(0, 8, 9), SMBus.BitSample(0, 7, 8), SMBus.BitSample(0, 6, 7), SMBus.BitSample(0, 5, 6),
    SMBus.BitSample(0, 4, 5), SMBus.BitSample(0, 3, 4), SMBus.BitSample(0, 2, 3), SMBus.BitSample(1, 1, 2)
  ]

  /** A Write Byte of 0x17 to VOUT_MODE (0x20) at address 0x40, as the I2C decoder reports it. */
  const WriteVoutMode: seq<SMBus.I2CInput> := [
    SMBus.I2CInput(SMBus.I2CSym.Start, 0, 1, SMBus.NoData),
    SMBus.I2CInput(SMBus.I2CSym.Bits, 1, 9, SMBus.BitSamples(AddressSamples)),
    SMBus.I2CInput(SMBus.I2CSym.AddressWrite, 1, 9, SMBus.DataByte(0x40)),
    SMBus.I2CInput(SMBus.I2CSym.Ack, 9, 10, SMBus.NoData),
    SMBus.I2CInput(SMBus.I2CSym.DataWrite, 10, 18, SMBus.DataByte(0x20)),
    SMBus.I2CInput(SMBus.I2CSym.Ack, 18, 19, SMBus.NoData),
    SMBus.I2CInput(SMBus.I2CSym.DataWrite, 19, 27, SMBus.DataByte(0x17)),
    SMBus.I2CInput(SMBus.I2CSym.Ack, 27, 28, SMBus.NoData),
    SMBus.I2CInput(SMBus.I2CSym.Stop, 28, 29, SMBus.NoData)
  ]

  /** What the framer makes of it. */
  const WriteVoutModeFrames: seq<SMBus.Frame> := [
    SMBus.Frame(SMBusSym.Start, 0, 1, None),
    SMBus.Frame(SMBusSym.Address, 1, 8, Some(0x40)),
    SMBus.Frame(SMBusSym.Direction, 8, 9, Some(0)),
    SMBus.Frame(SMBusSym.AddressAck, 9, 10, None),
    SMBus.Frame(SMBusSym.Command, 10, 18, Some(0x20)),
    SMBus.Frame(SMBusSym.CommandAck, 18, 19, None),
    SMBus.Frame(SMBusSym.Data, 19, 27, Some(0x17)),
    SMBus.Frame(SMBusSym.DataAck, 27, 28, None),
    SMBus.Frame(SMBusSym.Stop, 28, 29, None)
  ]

  /** The framer's context once the address is latched. */
  function Latched(s: SMBusSym): SMBus.Context
  {
    SMBus.Context(Some(s), Some(AddressSamples), Some(0x40), Some(Write))
  }

  lemma FramerOpening()
    ensures SMBus.Consume(Before(0), WriteVoutMode[0]) == SMBus.Next(Before(1), WriteVoutModeFrames[0..1])
    ensures SMBus.Consume(Before(1), WriteVoutMode[1]) == SMBus.Next(Before(2), WriteVoutModeFrames[1..1])
    ensures SMBus.Consume(Before(2), WriteVoutMode[2]) == SMBus.Next(Before(3), WriteVoutModeFrames[1..3])
  {
  }

  lemma FramerAddressed()
    ensures SMBus.Consume(Before(3), WriteVoutMode[3]) == SMBus.Next(Before(4), WriteVoutModeFrames[3..4])
    ensures SMBus.Consume(Before(4), WriteVoutMode[4]) == SMBus.Next(Before(5), WriteVoutModeFrames[4..5])
    ensures SMBus.Consume(Before(5), WriteVoutMode[5]) == SMBus.Next(Before(6), WriteVoutModeFrames[5..6])
  {
  }

  lemma FramerWritten()
    ensures SMBus.Consume(Before(6), WriteVoutMode[6]) == SMBus.Next(Before(7), WriteVoutModeFrames[6..7])
    ensures SMBus.Consume(Before(7), WriteVoutMode[7]) == SMBus.Next(Before(8), WriteVoutModeFrames[7..8])
    ensures SMBus.Consume(Before(8), WriteVoutMode[8]) == SMBus.Next(Before(9), WriteVoutModeFrames[8..])
  {
  }

  lemma RunStep(c: SMBus.Context, inputs: seq<SMBus.I2CInput>, c': SMBus.Context, fs: seq<SMBus.Frame>, t: SMBusLemmas.Trace)
    requires inputs != [] && SMBus.Consume(c, inputs[0]) == SMBus.Next(c', fs)
    requires SMBusLemmas.Run(c', inputs[1..]) == t
    ensures SMBusLemmas.Run(c, inputs) == t.(frames := fs + t.frames)
  {
  }

  /** The framer's context before input `k` of the Write Byte. */
  function Before(k: nat): SMBus.Context
    requires k <= 9
  {
    if k == 0 then SMBus.Idle
    else if k == 1 then SMBus.Idle.(state := Some(SMBusSym.Start))
    else if k == 2 then SMBus.Context(Some(SMBusSym.Start), Some(AddressSamples), None, None)
    else Latched([SMBusSym.Direction, SMBusSym.AddressAck, SMBusSym.Command, SMBusSym.CommandAck,
                  SMBusSym.Data, SMBusSym.DataAck, SMBusSym.Stop][k - 3])
  }

  /** From input `k` on, the framer emits the records from the `k`-th transition on and ends at STOP. */
  lemma FramerFrom8()
    ensures SMBusLemmas.Run(Before(8), WriteVoutMode[8..]) == SMBusLemmas.Trace(Before(9), WriteVoutModeFrames[8..], None)
  {
    var fr := WriteVoutModeFrames;
    assert WriteVoutMode[9..] == [];
    FramerWritten();
    assert WriteVoutMode[8..][1..] == WriteVoutMode[9..];
    assert fr[8..9] + [] == fr[8..];
    RunStep(Before(8), WriteVoutMode[8..], Before(9), fr[8..9], SMBusLemmas.Trace(Before(9), [], None));
  }

  lemma FramerFrom7()
    ensures SMBusLemmas.Run(Before(7), WriteVoutMode[7..]) == SMBusLemmas.Trace(Before(9), WriteVoutModeFrames[7..], None)
  {
    var fr := WriteVoutModeFrames;
    FramerFrom8();
    FramerWritten();
    assert WriteVoutMode[7..][1..] == WriteVoutMode[8..];
    assert fr[7..8] + fr[8..] == fr[7..];
    RunStep(Before(7), WriteVoutMode[7..], Before(8), fr[7..8], SMBusLemmas.Trace(Before(9), fr[8..], None));
  }

  lemma FramerFrom6()
    ensures SMBusLemmas.Run(Before(6), WriteVoutMode[6..]) == SMBusLemmas.Trace(Before(9), WriteVoutModeFrames[6..], None)
  {
    var fr := WriteVoutModeFrames;
    FramerFrom7();
    FramerWritten();
    assert WriteVoutMode[6..][1..] == WriteVoutMode[7..];
    assert fr[6..7] + fr[7..] == fr[6..];
    RunStep(Before(6), WriteVoutMode[6..], Before(7), fr[6..7], SMBusLemmas.Trace(Before(9), fr[7..], None));
  }

  lemma FramerFrom5()
    ensures SMBusLemmas.Run(Before(5), WriteVoutMode[5..]) == SMBusLemmas.Trace(Before(9), WriteVoutModeFrames[5..], None)
  {
    var fr := WriteVoutModeFrames;
    FramerFrom6();
    FramerAddressed();
    assert WriteVoutMode[5..][1..] == WriteVoutMode[6..];
    assert fr[5..6] + fr[6..] == fr[5..];
    RunStep(Before(5), WriteVoutMode[5..], Before(6), fr[5..6], SMBusLemmas.Trace(Before(9), fr[6..], None));
  }

  lemma FramerFrom4()
    ensures SMBusLemmas.Run(Before(4), WriteVoutMode[4..]) == SMBusLemmas.Trace(Before(9), WriteVoutModeFrames[4..], None)
  {
    var fr := WriteVoutModeFrames;
    FramerFrom5();
    FramerAddressed();
    assert WriteVoutMode[4..][1..] == WriteVoutMode[5..];
    assert fr[4..5] + fr[5..] == fr[4..];
    RunStep(Before(4), WriteVoutMode[4..], Before(5), fr[4..5], SMBusLemmas.Trace(Before(9), fr[5..], None));
  }

  lemma FramerFrom3()
    ensures SMBusLemmas.Run(Before(3), WriteVoutMode[3..]) == SMBusLemmas.Trace(Before(9), WriteVoutModeFrames[3..], None)
  {
    var fr := WriteVoutModeFrames;
    FramerFrom4();
    FramerAddressed();
    assert WriteVoutMode[3..][1..] == WriteVoutMode[4..];
    assert fr[3..4] + fr[4..] == fr[3..];
    RunStep(Before(3), WriteVoutMode[3..], Before(4), fr[3..4], SMBusLemmas.Trace(Before(9), fr[4..], None));
  }

  lemma FramerFrom2()
    ensures SMBusLemmas.Run(Before(2), WriteVoutMode[2..]) == SMBusLemmas.Trace(Before(9), WriteVoutModeFrames[1..], None)
  {
    var fr := WriteVoutModeFrames;
    FramerFrom3();
    FramerOpening();
    assert WriteVoutMode[2..][1..] == WriteVoutMode[3..];
    assert fr[1..3] + fr[3..] == fr[1..];
    RunStep(Before(2), WriteVoutMode[2..], Before(3), fr[1..3], SMBusLemmas.Trace(Before(9), fr[3..], None));
  }

  lemma FramerFrom1()
    ensures SMBusLemmas.Run(Before(1), WriteVoutMode[1..]) == SMBusLemmas.Trace(Before(9), WriteVoutModeFrames[1..], None)
  {
    var fr := WriteVoutModeFrames;
    FramerFrom2();
    FramerOpening();
    assert WriteVoutMode[1..][1..] == WriteVoutMode[2..];
    assert fr[1..1] + fr[1..] == fr[1..];
    RunStep(Before(1), WriteVoutMode[1..], Before(2), fr[1..1], SMBusLemmas.Trace(Before(9), fr[1..], None));
  }

  lemma FramerFrom0()
    ensures SMBusLemmas.Run(Before(0), WriteVoutMode[0..]) == SMBusLemmas.Trace(Before(9), WriteVoutModeFrames[0..], None)
  {
    var fr := WriteVoutModeFrames;
    FramerFrom1();
    FramerOpening();
    assert WriteVoutMode[0..][1..] == WriteVoutMode[1..];
    assert fr[0..1] + fr[1..] == fr[0..];
    RunStep(Before(0), WriteVoutMode[0..], Before(1), fr[0..1], SMBusLemmas.Trace(Before(9), fr[1..], None));
  }

  /** The framer turns the Write Byte into the nine records of `WriteVoutModeFrames`. */
  lemma FramerWriteVoutMode()
    ensures SMBusLemmas.Run(SMBus.Idle, WriteVoutMode) == SMBusLemmas.Trace(Latched(SMBusSym.Stop), WriteVoutModeFrames, None)
  {
    FramerFrom0();
    assert WriteVoutMode[0..] == WriteVoutMode && WriteVoutModeFrames[0..] == WriteVoutModeFrames;
  }

  /** The framer's records as the PMBus decoder's inputs. */
  function Steps(fs: seq<SMBus.Frame>): (r: seq<PMBusLemmas.Step>)
    ensures |r| == |fs| && forall i :: 0 <= i < |fs| ==> r[i] == StepOf(fs[i])
  {
    seq(|fs|, i requires 0 <= i < |fs| => StepOf(fs[i]))
  }

  /** The PMBus context once the command is known. */
  function Commanded(s: SMBusSym, data: seq<PMBus.Sample>): PMBus.Context
  {
    PMBus.Context(Some(s), Some(0x40), Some(Write), Some(VoutMode), data, [])
  }

  /** The PMBus decoder's context before record `k` of the Write Byte. */
  function PBefore(k: nat): (c: PMBus.Context)
    requires k <= 9
    ensures PMBus.Inv(c)
  {
    var d := [PMBus.Sample(19, 27, Some(0x17))];
    if k == 0 then PMBus.Idle
    else if k == 1 then PMBus.Idle.(state := Some(SMBusSym.Start))
    else if k == 2 then PMBus.Context(Some(SMBusSym.Address), Some(0x40), None, None, [], [])
    else if k == 3 then PMBus.Context(Some(SMBusSym.Direction), Some(0x40), Some(Write), None, [], [])
    else if k == 4 then PMBus.Context(Some(SMBusSym.AddressAck), Some(0x40), Some(Write), None, [], [])
    else if k == 5 then Commanded(SMBusSym.Command, [])
    else if k == 6 then Commanded(SMBusSym.CommandAck, [])
    else if k == 7 then Commanded(SMBusSym.Data, d)
    else if k == 8 then Commanded(SMBusSym.DataAck, d)
    else Commanded(SMBusSym.Stop, d)
  }

  /** What the PMBus decoder emits on record `k`. */
  function PEmitted(k: nat): seq<PMBus.Output>
    requires k < 9
  {
    if k == 0 then PMBus.Marks(SMBusSym.Start, 0, 1, None, None)
    else if k == 1 then PMBus.Marks(SMBusSym.Address, 1, 8, Some(0x40), Some(0x40))
    else if k == 2 then [PMBus.Ann(8, 9, SMBusSym.Direction, PMBus.AccessLabel(Write)), PMBus.Py(8, 9, SMBusSym.Direction, Some(0))]
    else if k == 3 then PMBus.Marks(SMBusSym.AddressAck, 9, 10, None, None)
    else if k == 4 then [PMBus.Ann(10, 18, SMBusSym.Command, PMBus.CommandLabel(VoutMode)), PMBus.Py(10, 18, SMBusSym.Command, Some(0x20))]
    else if k == 5 then PMBus.Marks(SMBusSym.CommandAck, 18, 19, None, None)
    else if k == 6 then []
    else if k == 7 then [PMBus.Ann(19, 27, SMBusSym.Data, PMBus.ByteValue(VoutMode, Write, 0x17))] + PMBus.Marks(SMBusSym.DataAck, 27, 28, None, None)
    else PMBus.Marks(SMBusSym.Stop, 28, 29, None, None)
  }

  /** Everything the PMBus decoder emits from record `k` on. */
  function PEmittedFrom(k: nat): seq<PMBus.Output>
    requires k <= 9
    decreases 9 - k
  {
    if k == 9 then [] else PEmitted(k) + PEmittedFrom(k + 1)
  }

  /** Record `k` takes the PMBus decoder from `PBefore(k)` to `PBefore(k + 1)`. */
  lemma PStepAt(k: nat)
    requires k < 9
    ensures var s := StepOf(WriteVoutModeFrames[k]);
      PMBus.Transition(PBefore(k), s.kind, s.ss, s.es, s.payload) == PMBus.Next(PBefore(k + 1), PEmitted(k))
  {
    if k == 4 {
      LookupCode(VoutMode);
    } else if k == 7 {
      assert Proto(VoutMode) == Byte;
    }
  }

  /** From record `k` on, the PMBus decoder emits `PEmittedFrom(k)` and ends at STOP. */
  lemma {:induction false} PMBusSuffix(k: nat)
    requires k <= 9
    ensures PMBusLemmas.Run(PBefore(k), Steps(WriteVoutModeFrames)[k..]) == PMBusLemmas.Trace(PBefore(9), PEmittedFrom(k), None)
    decreases 9 - k
  {
    if k < 9 {
      PMBusSuffix(k + 1);
      PStepAt(k);
      var st := Steps(WriteVoutModeFrames);
      assert st[k..][0] == StepOf(WriteVoutModeFrames[k]);
      assert st[k..][1..] == st[k + 1..];
    }
  }

  /** The data byte's annotation is among what is emitted from any record up to the data ack. */
  lemma {:induction false} ValueEmitted(k: nat)
    requires k <= 7
    ensures PMBus.Ann(19, 27, SMBusSym.Data, PMBus.ByteValue(VoutMode, Write, 0x17)) in PEmittedFrom(k)
    decreases 7 - k
  {
    if k < 7 {
      ValueEmitted(k + 1);
    } else {
      assert PEmitted(7)[0] == PMBus.Ann(19, 27, SMBusSym.Data, PMBus.ByteValue(VoutMode, Write, 0x17));
    }
  }

  /** The PMBus decoder on the framer's nine records. */
  lemma PMBusWriteVoutMode(steps: seq<PMBusLemmas.Step>)
    requires steps == Steps(WriteVoutModeFrames)
    ensures var t := PMBusLemmas.Run(PMBus.Idle, steps);
      && t.fault.None?
      && t.ctx.state == Some(SMBusSym.Stop) && t.ctx.command == Some(VoutMode)
      && PMBus.Ann(19, 27, SMBusSym.Data, PMBus.ByteValue(VoutMode, Write, 0x17)) in t.out
  {
    PMBusSuffix(0);
    assert steps[0..] == steps;
    ValueEmitted(0);
  }

  /** The data byte's annotation reads "VOUT_MODE Write: 17". */
  lemma VoutModeText()
    ensures PMBus.Render(PMBus.ByteValue(VoutMode, Write, 0x17)).0 == "VOUT_MODE Write: 17"
  {
    assert Hex2(0x17) == "17";
    assert PMBus.DirWord(Write) == " Write: ";
    assert PMBus.ValueText(VoutMode, Write, "17") == "VOUT_MODE" + " Write: " + "17";
  }

  /**
   * The stacked decoders on the Write Byte: the framer's records, decoded by
   * the PMBus decoder, end in STOP without a fault and annotate 0x17 as a
   * VOUT_MODE write over the data byte's samples.
   */
  lemma StackedWriteVoutMode()
    ensures var t := PMBusLemmas.Run(PMBus.Idle, Steps(SMBusLemmas.Run(SMBus.Idle, WriteVoutMode).frames));
      && t.fault.None?
      && t.ctx.state == Some(SMBusSym.Stop) && t.ctx.command == Some(VoutMode)
      && PMBus.Ann(19, 27, SMBusSym.Data, PMBus.ByteValue(VoutMode, Write, 0x17)) in t.out
      && PMBus.Render(PMBus.ByteValue(VoutMode, Write, 0x17)).0 == "VOUT_MODE Write: 17"
  {
    VoutModeText();
    FramerWriteVoutMode();
    PMBusWriteVoutMode(Steps(WriteVoutModeFrames));
  }
}
