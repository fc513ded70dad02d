/**
 * Properties of the SMBus framer: what each state accepts, when `update`
 * raises, and the shape of the frame stream over a whole run of `decode`
 * calls.
 */
module SMBusLemmas {
  import opened Wrappers
  import opened SMBusCommon
  import opened SMBus

  /** Idle (reset, or after STOP) only START is accepted, with one frame; anything else resets silently. */
  lemma IdleAcceptsOnlyStart(c: Context, sym: I2CSym, ss: int, es: int, data: Option<byte>)
    requires c.state.None? || c.state == Some(SMBusSym.Stop)
    ensures var r := Transition(c, sym, ss, es, data);
      && r.Next?
      && (sym == I2CSym.Start ==> r.ctx == c.(state := Some(SMBusSym.Start)) && r.frames == [Frame(SMBusSym.Start, ss, es, None)])
      && (sym != I2CSym.Start ==> r == Next(Idle, []))
  {
  }

  /** After `reset` the next frame, if any, is START. */
  lemma ResetThenOnlyStart(i: I2CInput)
    ensures var r := Consume(Idle, i);
      r.Next? && (r.frames != [] ==> i.sym == I2CSym.Start && r.frames == [Frame(SMBusSym.Start, i.ss, i.es, None)])
  {
  }

  /** After START, an address symbol latches address and direction and emits ADDRESS over bits 7..1, then DIRECTION over bit 0. */
  lemma AddressSplit(c: Context, sym: I2CSym, ss: int, es: int, data: Option<byte>)
    requires c.state == Some(SMBusSym.Start) && IsAddress(sym)
    ensures var r := Transition(c, sym, ss, es, data);
      && (!HasByteBits(c.bits) ==> r == Failed(BitsUnavailable))
      && (HasByteBits(c.bits) ==>
            var b := c.bits.value;
            && r.Next?
            && r.ctx.state == Some(SMBusSym.Direction)
            && r.ctx.address == data
            && r.ctx.bits == c.bits
            && (r.ctx.addressMode == Some(Read) <==> b[0].value == 1)
            && (r.ctx.addressMode == Some(Write) <==> b[0].value == 0)
            && r.frames == [Frame(SMBusSym.Address, b[7].ss, b[1].es, data),
                            Frame(SMBusSym.Direction, b[0].ss, b[0].es, Some(b[0].value))])
  {
  }

  /** After START, anything but an address resets. */
  lemma StartNeedsAddress(c: Context, sym: I2CSym, ss: int, es: int, data: Option<byte>)
    requires c.state == Some(SMBusSym.Start) && !IsAddress(sym)
    ensures Transition(c, sym, ss, es, data) == Next(Idle, [])
  {
  }

  /** Send Byte (section 6.5.2 of the SMBus specification): STOP after COMMAND_ACK is accepted exactly when the address was written. */
  lemma SendByteFraming(c: Context, ss: int, es: int, data: Option<byte>)
    requires c.state == Some(SMBusSym.CommandAck)
    ensures var r := Transition(c, I2CSym.Stop, ss, es, data);
      && (c.addressMode == Some(Write) ==> r == Next(c.(state := Some(SMBusSym.Stop)), [Frame(SMBusSym.Stop, ss, es, None)]))
      && (c.addressMode != Some(Write) ==> r == Next(Idle, []))
  {
  }

  /** Receive Byte (section 6.5.3 of the SMBus specification): STOP after COMMAND_NACK is accepted exactly when the address was read; all else resets. */
  lemma ReceiveByteFraming(c: Context, sym: I2CSym, ss: int, es: int, data: Option<byte>)
    requires c.state == Some(SMBusSym.CommandNack)
    ensures var r := Transition(c, sym, ss, es, data);
      && (sym == I2CSym.Stop && c.addressMode == Some(Read) ==>
            r == Next(c.(state := Some(SMBusSym.Stop)), [Frame(SMBusSym.Stop, ss, es, None)]))
      && (!(sym == I2CSym.Stop && c.addressMode == Some(Read)) ==> r == Next(Idle, []))
  {
  }

  /** After START_REPEAT an address is accepted only if it equals the latched one; a mismatch resets silently. */
  lemma RepeatedStartMatchesAddress(c: Context, sym: I2CSym, ss: int, es: int, data: Option<byte>)
    requires c.state == Some(SMBusSym.StartRepeat) && IsAddress(sym)
    ensures var r := Transition(c, sym, ss, es, data);
      && (c.address != data ==> r == Next(Idle, []))
      && (c.address == data && !HasByteBits(c.bits) ==> r == Failed(BitsUnavailable))
      && (c.address == data && HasByteBits(c.bits) ==>
            var b := c.bits.value;
            r == Next(c.(state := Some(SMBusSym.DirectionRepeat)),
                      [Frame(SMBusSym.AddressRepeat, b[7].ss, b[1].es, data),
                       Frame(SMBusSym.DirectionRepeat, b[0].ss, b[0].es, Some(b[0].value))]))
  {
  }

  /** DIRECTION_REPEAT then ACK goes straight to RESPONSE_ACK; anything else resets. */
  lemma DirectionRepeatAck(c: Context, sym: I2CSym, ss: int, es: int, data: Option<byte>)
    requires c.state == Some(SMBusSym.DirectionRepeat)
    ensures var r := Transition(c, sym, ss, es, data);
      && (sym == I2CSym.Ack ==> r == Next(c.(state := Some(SMBusSym.ResponseAck)), [Frame(SMBusSym.ResponseAck, ss, es, None)]))
      && (sym != I2CSym.Ack ==> r == Next(Idle, []))
  {
  }

  /** After ADDRESS_NACK (and, corrected, DATA_NACK) STOP emits a STOP frame and clears the context; anything else is an assertion failure. */
  lemma NackEndsTransaction(c: Context, sym: I2CSym, ss: int, es: int, data: Option<byte>)
    requires c.state == Some(SMBusSym.AddressNack) || c.state == Some(SMBusSym.DataNack)
    ensures var r := Transition(c, sym, ss, es, data);
      && (sym == I2CSym.Stop ==> r == Next(Idle, [Frame(SMBusSym.Stop, ss, es, None)]))
      && (sym != I2CSym.Stop ==> r == Failed(NotStopAfterNack(c.state.value)))
  {
  }

  /** A BITS symbol never reaches `update`: no frame, state, address and mode unchanged, bits kept only after a start. */
  lemma BitsOnlyAfterStart(c: Context, ss: int, es: int, data: I2CData)
    ensures var r := Consume(c, I2CInput(I2CSym.Bits, ss, es, data));
      && r.Next? && r.frames == []
      && r.ctx.state == c.state && r.ctx.address == c.address && r.ctx.addressMode == c.addressMode
      && (r.ctx.bits.Some? <==> data.BitSamples? && (c.state == Some(SMBusSym.Start) || c.state == Some(SMBusSym.StartRepeat)))
      && (r.ctx.bits.Some? ==> r.ctx.bits.value == data.bits)
  {
  }

  /** `update` never changes the context without emitting: a step with no frame is a full reset. */
  lemma SilentStepResets(c: Context, sym: I2CSym, ss: int, es: int, data: Option<byte>)
    ensures var r := Transition(c, sym, ss, es, data);
      r.Next? && r.frames == [] ==> r.ctx == Idle
  {
  }

  /** Exactly when `update` raises, and which exception. */
  lemma FaultCases(c: Context, sym: I2CSym, ss: int, es: int, data: Option<byte>)
    ensures var r := Transition(c, sym, ss, es, data);
      r.Failed? <==>
        || (c.state == Some(SMBusSym.Start) && IsAddress(sym) && !HasByteBits(c.bits))
        || (c.state == Some(SMBusSym.StartRepeat) && IsAddress(sym) && c.address == data && !HasByteBits(c.bits))
        || ((c.state == Some(SMBusSym.AddressNack) || c.state == Some(SMBusSym.DataNack)) && sym != I2CSym.Stop)
        || (c.state.Some? && c.state.value in {SMBusSym.Address, SMBusSym.AddressRepeat, SMBusSym.Pec, SMBusSym.PecAck, SMBusSym.PecNack})
  {
    if c.state.Some? && c.state != Some(SMBusSym.Stop) {
      var s := c.state.value;
      if s in {SMBusSym.Start, SMBusSym.Direction, SMBusSym.AddressAck, SMBusSym.AddressNack, SMBusSym.Command} {
        assert Transition(c, sym, ss, es, data) == Opening(c, sym, ss, es, data);
      } else if s in {SMBusSym.CommandAck, SMBusSym.CommandNack, SMBusSym.Data, SMBusSym.DataAck, SMBusSym.DataNack} {
        assert Transition(c, sym, ss, es, data) == Writing(c, sym, ss, es, data);
      } else if s in {SMBusSym.StartRepeat, SMBusSym.DirectionRepeat, SMBusSym.Response, SMBusSym.ResponseAck, SMBusSym.ResponseNack} {
        assert Transition(c, sym, ss, es, data) == Reading(c, sym, ss, es, data);
      } else {
        match s
        case Address =>
        case AddressRepeat =>
        case Pec =>
        case PecAck =>
        case PecNack =>
      }
    }
  }

  // ---------------------------------------------------------------------------
  // Runs of `decode`

  /** The outcome of a run of `decode` calls: the last context, all frames, and the exception that stopped it, if any. */
  datatype Trace = Trace(ctx: Context, frames: seq<Frame>, fault: Option<Fault>)

  function Run(c: Context, inputs: seq<I2CInput>): Trace
    decreases |inputs|, 1
  {
    if inputs == [] then Trace(c, [], None)
    else Continue(c, Consume(c, inputs[0]), inputs[1..])
  }

  /** The rest of a run once the first call of `decode` has had outcome `r`. */
  function Continue(c: Context, r: Outcome, rest: seq<I2CInput>): Trace
    decreases |rest| + 1, 0
  {
    match r
    case Failed(f) => Trace(c, [], Some(f))
    case Next(c', fs) =>
      var t := Run(c', rest);
      t.(frames := fs + t.frames)
  }

  /** The frame kinds that may follow each kind inside one transaction (section 6.5 of the SMBus specification). */
  predicate Edge(p: SMBusSym, k: SMBusSym)
  {
    match p
    case Start => k == SMBusSym.Address
    case Address => k == SMBusSym.Direction
    case Direction => k == SMBusSym.AddressAck || k == SMBusSym.AddressNack
    case AddressAck => k == SMBusSym.Stop || k == SMBusSym.Command
    case AddressNack => k == SMBusSym.Stop
    case Command => k == SMBusSym.CommandAck || k == SMBusSym.CommandNack
    case CommandAck => k == SMBusSym.Stop || k == SMBusSym.Data || k == SMBusSym.StartRepeat
    case CommandNack => k == SMBusSym.Stop
    case Data => k == SMBusSym.DataAck || k == SMBusSym.DataNack
    case DataAck => k == SMBusSym.Stop || k == SMBusSym.Data || k == SMBusSym.StartRepeat
    case DataNack => k == SMBusSym.Stop
    case StartRepeat => k == SMBusSym.AddressRepeat
    case AddressRepeat => k == SMBusSym.DirectionRepeat
    case DirectionRepeat => k == SMBusSym.ResponseAck
    case Response => k == SMBusSym.ResponseAck || k == SMBusSym.ResponseNack
    case ResponseAck => k == SMBusSym.Response || k == SMBusSym.Stop
    case ResponseNack => k == SMBusSym.Stop
    case _ => false
  }

  /** Every frame opens a new transaction with START, or follows the frame before it by an `Edge`. */
  predicate Chain(prev: Option<SMBusSym>, fs: seq<Frame>)
    decreases |fs|
  {
    fs == [] ||
    ((fs[0].kind == SMBusSym.Start || (prev.Some? && Edge(prev.value, fs[0].kind))) && Chain(Some(fs[0].kind), fs[1..]))
  }

  function LastKind(prev: Option<SMBusSym>, fs: seq<Frame>): Option<SMBusSym>
  {
    if fs == [] then prev else Some(fs[|fs| - 1].kind)
  }

  /** The framer is idle, or its state is the kind of the last frame it emitted. */
  predicate Agrees(c: Context, last: Option<SMBusSym>)
  {
    c.state.None? || c.state == last
  }

  lemma {:induction false} ChainAppend(prev: Option<SMBusSym>, a: seq<Frame>, b: seq<Frame>)
    requires Chain(prev, a) && Chain(LastKind(prev, a), b)
    ensures Chain(prev, a + b)
    decreases |a|
  {
    if a == [] {
      assert a + b == b;
    } else {
      assert (a + b)[0] == a[0];
      assert (a + b)[1..] == a[1..] + b;
      assert LastKind(Some(a[0].kind), a[1..]) == LastKind(prev, a);
      ChainAppend(Some(a[0].kind), a[1..], b);
    }
  }

  lemma OpeningChain(c: Context, last: Option<SMBusSym>, sym: I2CSym, ss: int, es: int, data: Option<byte>)
    requires Agrees(c, last) && c.state.Some? && c.state.value in {SMBusSym.Start, SMBusSym.Direction, SMBusSym.AddressAck, SMBusSym.AddressNack, SMBusSym.Command}
    ensures var r := Opening(c, sym, ss, es, data);
      r.Next? ==> Chain(last, r.frames) && Agrees(r.ctx, LastKind(last, r.frames))
  {
  }

  lemma WritingChain(c: Context, last: Option<SMBusSym>, sym: I2CSym, ss: int, es: int, data: Option<byte>)
    requires Agrees(c, last) && c.state.Some? && c.state.value in {SMBusSym.CommandAck, SMBusSym.CommandNack, SMBusSym.Data, SMBusSym.DataAck, SMBusSym.DataNack}
    ensures var r := Writing(c, sym, ss, es, data);
      r.Next? ==> Chain(last, r.frames) && Agrees(r.ctx, LastKind(last, r.frames))
  {
  }

  lemma ReadingChain(c: Context, last: Option<SMBusSym>, sym: I2CSym, ss: int, es: int, data: Option<byte>)
    requires Agrees(c, last) && c.state.Some? && c.state.value in {SMBusSym.StartRepeat, SMBusSym.DirectionRepeat, SMBusSym.Response, SMBusSym.ResponseAck, SMBusSym.ResponseNack}
    ensures var r := Reading(c, sym, ss, es, data);
      r.Next? ==> Chain(last, r.frames) && Agrees(r.ctx, LastKind(last, r.frames))
  {
  }

  /** One `decode` call keeps the frame grammar and leaves the state agreeing with the last frame. */
  lemma StepChain(c: Context, last: Option<SMBusSym>, i: I2CInput)
    requires Agrees(c, last)
    ensures var r := Consume(c, i);
      r.Next? ==> Chain(last, r.frames) && Agrees(r.ctx, LastKind(last, r.frames))
  {
    if i.sym != I2CSym.Bits && c.state.Some? && c.state != Some(SMBusSym.Stop) {
      var s := c.state.value;
      if s in {SMBusSym.Start, SMBusSym.Direction, SMBusSym.AddressAck, SMBusSym.AddressNack, SMBusSym.Command} {
        OpeningChain(c, last, i.sym, i.ss, i.es, ByteOf(i.data));
      } else if s in {SMBusSym.CommandAck, SMBusSym.CommandNack, SMBusSym.Data, SMBusSym.DataAck, SMBusSym.DataNack} {
        WritingChain(c, last, i.sym, i.ss, i.es, ByteOf(i.data));
      } else if s in {SMBusSym.StartRepeat, SMBusSym.DirectionRepeat, SMBusSym.Response, SMBusSym.ResponseAck, SMBusSym.ResponseNack} {
        ReadingChain(c, last, i.sym, i.ss, i.es, ByteOf(i.data));
      }
    }
  }

  /** A run over `a + b` is the run over `a`, then the run over `b` from where it stopped. */
  lemma {:induction false} RunAppend(c: Context, a: seq<I2CInput>, b: seq<I2CInput>)
    requires Run(c, a).fault.None?
    ensures Run(c, a + b) == Run(Run(c, a).ctx, b).(frames := Run(c, a).frames + Run(Run(c, a).ctx, b).frames)
    decreases |a|, 1
  {
    if a == [] {
      assert a + b == b;
    } else {
      assert (a + b)[0] == a[0];
      assert (a + b)[1..] == a[1..] + b;
      ContinueAppend(c, Consume(c, a[0]), a[1..], b);
    }
  }

  lemma {:induction false} ContinueAppend(c: Context, r: Outcome, rest: seq<I2CInput>, b: seq<I2CInput>)
    requires Continue(c, r, rest).fault.None?
    ensures var t := Continue(c, r, rest);
      Continue(c, r, rest + b) == Run(t.ctx, b).(frames := t.frames + Run(t.ctx, b).frames)
    decreases |rest| + 1, 0
  {
    match r
    case Next(c', fs) =>
      var x := Run(c', rest);
      RunAppend(c', rest, b);
      var y := Run(x.ctx, b);
      assert Run(c', rest + b) == y.(frames := x.frames + y.frames);
      assert fs + (x.frames + y.frames) == (fs + x.frames) + y.frames;
  }

  lemma LastKindAppend(prev: Option<SMBusSym>, a: seq<Frame>, b: seq<Frame>)
    ensures LastKind(prev, a + b) == LastKind(LastKind(prev, a), b)
  {
    if b != [] {
      assert (a + b)[|a + b| - 1] == b[|b| - 1];
    } else {
      assert a + b == a;
    }
  }

  /**
   * Over any run of `decode` calls the frames follow the transaction grammar,
   * and a run that raises nothing ends idle or in the kind of its last frame.
   */
  lemma {:induction false} RunChain(c: Context, last: Option<SMBusSym>, inputs: seq<I2CInput>)
    requires Agrees(c, last)
    ensures Chain(last, Run(c, inputs).frames)
    ensures var t := Run(c, inputs); t.fault.None? ==> Agrees(t.ctx, LastKind(last, t.frames))
    decreases |inputs|
  {
    if inputs != [] {
      var r := Consume(c, inputs[0]);
      if r.Next? {
        var t := Run(r.ctx, inputs[1..]);
        StepChain(c, last, inputs[0]);
        RunChain(r.ctx, LastKind(last, r.frames), inputs[1..]);
        ChainAppend(last, r.frames, t.frames);
        LastKindAppend(last, r.frames, t.frames);
      }
    }
  }

  /** From reset, the first frame of any run is START. */
  lemma FirstFrameIsStart(inputs: seq<I2CInput>)
    ensures var fs := Run(Idle, inputs).frames; fs != [] ==> fs[0].kind == SMBusSym.Start
  {
    RunChain(Idle, None, inputs);
  }

  // ---------------------------------------------------------------------------
  // Payloads

  /** Payload shape of a frame: byte kinds carry a byte, direction kinds carry the direction bit, every other kind carries nothing. */
  predicate PayloadShape(f: Frame)
  {
    && (f.kind in {SMBusSym.Address, SMBusSym.AddressRepeat, SMBusSym.Command, SMBusSym.Data, SMBusSym.Response} ==> f.payload.Some?)
    && (f.kind in {SMBusSym.Direction, SMBusSym.DirectionRepeat} ==> f.payload.Some? && f.payload.value < 2)
    && (f.kind !in {SMBusSym.Address, SMBusSym.AddressRepeat, SMBusSym.Command, SMBusSym.Data, SMBusSym.Response, SMBusSym.Direction, SMBusSym.DirectionRepeat} ==> f.payload.None?)
  }

  predicate AllShaped(fs: seq<Frame>)
  {
    forall k :: 0 <= k < |fs| ==> PayloadShape(fs[k])
  }

  lemma AllShapedAppend(a: seq<Frame>, b: seq<Frame>)
    requires AllShaped(a) && AllShaped(b)
    ensures AllShaped(a + b)
  {
    forall k | 0 <= k < |a + b|
      ensures PayloadShape((a + b)[k])
    {
      if k < |a| {
        assert (a + b)[k] == a[k];
      } else {
        assert (a + b)[k] == b[k - |a|];
      }
    }
  }

  /** Given the I2C decoder's symbol shapes, every frame the framer emits has its payload shape. */
  lemma StepPayloads(c: Context, i: I2CInput)
    requires WellFormedInput(i)
    ensures var r := Consume(c, i); r.Next? ==> AllShaped(r.frames)
  {
  }

  lemma {:induction false} RunPayloads(c: Context, inputs: seq<I2CInput>)
    requires forall k :: 0 <= k < |inputs| ==> WellFormedInput(inputs[k])
    ensures AllShaped(Run(c, inputs).frames)
    decreases |inputs|
  {
    if inputs != [] {
      var r := Consume(c, inputs[0]);
      if r.Next? {
        StepPayloads(c, inputs[0]);
        RunPayloads(r.ctx, inputs[1..]);
        AllShapedAppend(r.frames, Run(r.ctx, inputs[1..]).frames);
      }
    }
  }
}
