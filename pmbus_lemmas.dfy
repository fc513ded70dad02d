/**
 * Properties of the PMBus decoder: address and command latching, the byte
 * count guards in front of every assembled value, the little-endian word,
 * block read labelling and response buffering.
 */
module PMBusLemmas {
  import opened Wrappers
  import opened SMBusCommon
  import opened PMBusCommands
  import opened PMBus

  /** The word of two bytes gives the bytes back, and every word is the word of its two bytes. */
  lemma WordRoundTrip(lo: byte, hi: byte, w: word)
    ensures WordOf(lo, hi) % 0x100 == lo && WordOf(lo, hi) / 0x100 == hi
    ensures WordOf(w % 0x100, w / 0x100) == w
  {
  }

  /** Leaving idle (None or STOP) clears the whole context; only START is accepted. */
  lemma IdleClearsContext(c: Context, k: SMBusSym, ss: int, es: int, p: Option<byte>)
    requires Inv(c) && (c.state.None? || c.state == Some(SMBusSym.Stop))
    ensures var r := Transition(c, k, ss, es, p);
      && (k == SMBusSym.Start ==> r == Next(Idle.(state := Some(SMBusSym.Start)), Marks(SMBusSym.Start, ss, es, None, None)))
      && (k != SMBusSym.Start ==> r == Next(Idle, []))
  {
  }

  /** After START, ADDRESS latches the address and is emitted with it; anything else resets. */
  lemma AddressLatched(c: Context, k: SMBusSym, ss: int, es: int, p: Option<byte>)
    requires Inv(c) && c.state == Some(SMBusSym.Start)
    ensures var r := Transition(c, k, ss, es, p);
      && (k == SMBusSym.Address ==>
            r == Next(c.(state := Some(SMBusSym.Address), address := p),
                      [Ann(ss, es, SMBusSym.Address, SymLabel(SMBusSym.Address, p)), Py(ss, es, SMBusSym.Address, p)]))
      && (k != SMBusSym.Address ==> r == Next(Idle, []))
  {
  }

  /** DIRECTION sets the access from the bit: 0 is WRITE, 1 is READ, anything else raises. */
  lemma DirectionSetsAccess(c: Context, ss: int, es: int, p: Option<byte>)
    requires Inv(c) && c.state == Some(SMBusSym.Address)
    ensures var r := Transition(c, SMBusSym.Direction, ss, es, p);
      && (p == Some(0) ==> r.Next? && r.ctx.access == Some(Write))
      && (p == Some(1) ==> r.Next? && r.ctx.access == Some(Read))
      && (p != Some(0) && p != Some(1) ==> r == Failed(BadDirection(p)))
      && (r.Next? ==> r.ctx.state == Some(SMBusSym.Direction) && r.out == [Ann(ss, es, SMBusSym.Direction, AccessLabel(r.ctx.access.value)), Py(ss, es, SMBusSym.Direction, p)])
  {
  }

  /** COMMAND after ADDRESS_ACK resolves the opcode through the table, or raises for an unknown one. */
  lemma CommandResolves(c: Context, ss: int, es: int, p: Option<byte>)
    requires Inv(c) && c.state == Some(SMBusSym.AddressAck)
    ensures var r := Transition(c, SMBusSym.Command, ss, es, p);
      && (p.None? || Lookup(p.value).None? <==> r == Failed(UnknownCommand(p)))
      && (r.Next? ==>
            && r.ctx.state == Some(SMBusSym.Command)
            && r.ctx.command.Some? && p.Some? && Code(r.ctx.command.value) == p.value
            && r.out == [Ann(ss, es, SMBusSym.Command, CommandLabel(r.ctx.command.value)), Py(ss, es, SMBusSym.Command, p)])
  {
  }

  /** The first DATA after COMMAND_ACK starts the buffer and emits nothing. */
  lemma FirstDataBuffered(c: Context, ss: int, es: int, p: Option<byte>)
    requires Inv(c) && c.state == Some(SMBusSym.CommandAck)
    ensures Transition(c, SMBusSym.Data, ss, es, p) == Next(c.(state := Some(SMBusSym.Data), data := [Sample(ss, es, p)]), [])
  {
  }

  /** Byte write: the value is annotated over the buffered byte's range only when exactly one byte is buffered. */
  lemma ByteWrite(c: Context, ss: int, es: int, p: Option<byte>)
    requires Inv(c) && c.state == Some(SMBusSym.Data) && c.access == Some(Write)
    requires c.command.Some? && Proto(c.command.value) == Byte
    ensures var r := Transition(c, SMBusSym.DataAck, ss, es, p);
      && (|c.data| != 1 ==> r == Next(c, []))
      && (|c.data| == 1 && c.data[0].value.None? ==> r == Failed(MissingPayload))
      && (|c.data| == 1 && c.data[0].value.Some? ==>
            r == Next(c.(state := Some(SMBusSym.DataAck)),
                      [Ann(c.data[0].ss, c.data[0].es, SMBusSym.Data, ByteValue(c.command.value, Write, c.data[0].value.value))]
                      + Marks(SMBusSym.DataAck, ss, es, None, None)))
  {
  }

  /** Word write: with two bytes buffered, `(b1 << 8) | b0` is annotated over both ranges. */
  lemma WordWrite(c: Context, ss: int, es: int, p: Option<byte>)
    requires Inv(c) && c.state == Some(SMBusSym.Data) && c.access == Some(Write)
    requires c.command.Some? && Proto(c.command.value) == Word
    ensures var r := Transition(c, SMBusSym.DataAck, ss, es, p);
      && (|c.data| < 2 ==> r == Next(c.(state := Some(SMBusSym.DataAck)), Marks(SMBusSym.DataAck, ss, es, None, None)))
      && (|c.data| > 2 ==> r == Next(c, []))
      && (|c.data| == 2 && (c.data[0].value.None? || c.data[1].value.None?) ==> r == Failed(MissingPayload))
      && (|c.data| == 2 && c.data[0].value.Some? && c.data[1].value.Some? ==>
            && r.Next? && r.ctx == c.(state := Some(SMBusSym.DataAck))
            && r.out[0].Ann? && r.out[0].ss == c.data[0].ss && r.out[0].es == c.data[1].es
            && r.out[0].note.WordValue?
            && r.out[0].note.w % 0x100 == c.data[0].value.value
            && r.out[0].note.w / 0x100 == c.data[1].value.value
            && r.out[1..] == Marks(SMBusSym.DataAck, ss, es, None, None))
  {
  }

  /** A write ack under READ access, or for a protocol other than BYTE and WORD, resets. */
  lemma UnsupportedWriteResets(c: Context, ss: int, es: int, p: Option<byte>)
    requires Inv(c) && c.state == Some(SMBusSym.Data)
    requires c.access != Some(Write) || (c.command.Some? && Proto(c.command.value) != Byte && Proto(c.command.value) != Word)
    ensures Transition(c, SMBusSym.DataAck, ss, es, p) == Next(Idle, [])
  {
  }

  /** Every RESPONSE after RESPONSE_ACK is appended to the response buffer, silently. */
  lemma ResponseBuffered(c: Context, ss: int, es: int, p: Option<byte>)
    requires Inv(c) && c.state == Some(SMBusSym.ResponseAck)
    ensures Transition(c, SMBusSym.Response, ss, es, p)
            == Next(c.(state := Some(SMBusSym.Response), response := c.response + [Sample(ss, es, p)]), [])
  {
  }

  /** ADDRESS_REPEAT is accepted only with the latched address. */
  lemma RepeatAddressMatches(c: Context, ss: int, es: int, p: Option<byte>)
    requires Inv(c) && c.state == Some(SMBusSym.StartRepeat)
    ensures var r := Transition(c, SMBusSym.AddressRepeat, ss, es, p);
      && (c.address == p ==> r == Next(c.(state := Some(SMBusSym.AddressRepeat)), Marks(SMBusSym.AddressRepeat, ss, es, p, p)))
      && (c.address != p ==> r == Next(Idle, []))
  {
  }

  /** Block read: the first response byte is the length, over its own range; later ones are labelled as the latest byte. */
  lemma BlockReadAck(c: Context, ss: int, es: int, p: Option<byte>)
    requires Inv(c) && c.state == Some(SMBusSym.Response) && c.access == Some(Read)
    requires c.command.Some? && Proto(c.command.value) == Block
    ensures var r := Transition(c, SMBusSym.ResponseAck, ss, es, p);
      var last := c.response[|c.response| - 1];
      && (last.value.None? ==> r == Failed(MissingPayload))
      && (last.value.Some? && |c.response| == 1 ==>
            r == Next(c.(state := Some(SMBusSym.ResponseAck)),
                      [Ann(last.ss, last.es, SMBusSym.Response, BlockLength(last.value.value))] + Marks(SMBusSym.ResponseAck, ss, es, None, None)))
      && (last.value.Some? && |c.response| > 1 ==>
            r == Next(c.(state := Some(SMBusSym.ResponseAck)),
                      [Ann(last.ss, last.es, SMBusSym.Response, BlockByte(last.value.value))] + Marks(SMBusSym.ResponseAck, ss, es, None, None)))
  {
  }

  /** RESPONSE_ACK moves on for every read; only a block read adds a label. */
  lemma ResponseAckAlwaysAccepted(c: Context, ss: int, es: int, p: Option<byte>)
    requires Inv(c) && c.state == Some(SMBusSym.Response)
    requires !(c.access == Some(Read) && c.command.Some? && Proto(c.command.value) == Block)
    ensures Transition(c, SMBusSym.ResponseAck, ss, es, p)
            == Next(c.(state := Some(SMBusSym.ResponseAck)), Marks(SMBusSym.ResponseAck, ss, es, None, None))
  {
  }

  /** Block read end: RESPONSE_NACK labels the latest byte, and its Python record has no payload. */
  lemma BlockReadNack(c: Context, ss: int, es: int, p: Option<byte>)
    requires Inv(c) && c.state == Some(SMBusSym.Response) && c.access == Some(Read)
    requires c.command.Some? && Proto(c.command.value) == Block
    ensures var r := Transition(c, SMBusSym.ResponseNack, ss, es, p);
      var last := c.response[|c.response| - 1];
      && (last.value.None? ==> r == Failed(MissingPayload))
      && (last.value.Some? ==>
            r == Next(c.(state := Some(SMBusSym.ResponseNack)),
                      [Ann(last.ss, last.es, SMBusSym.Response, BlockByte(last.value.value)),
                       Ann(ss, es, SMBusSym.ResponseNack, SymLabel(SMBusSym.ResponseNack, None)),
                       Py(ss, es, SMBusSym.ResponseNack, None)]))
  {
  }

  /** Word read: with exactly two response bytes, `(r1 << 8) | r0` is annotated; otherwise nothing happens. */
  lemma WordRead(c: Context, ss: int, es: int, p: Option<byte>)
    requires Inv(c) && c.state == Some(SMBusSym.Response) && c.access == Some(Read)
    requires c.command.Some? && Proto(c.command.value) == Word
    ensures var r := Transition(c, SMBusSym.ResponseNack, ss, es, p);
      && (|c.response| != 2 ==> r == Next(c, []))
      && (|c.response| == 2 && (c.response[0].value.None? || c.response[1].value.None?) ==> r == Failed(MissingPayload))
      && (|c.response| == 2 && c.response[0].value.Some? && c.response[1].value.Some? ==>
            var lo, hi := c.response[0].value.value, c.response[1].value.value;
            r == Next(c.(state := Some(SMBusSym.ResponseNack)),
                      [Ann(c.response[0].ss, c.response[1].es, SMBusSym.Response, WordValue(c.command.value, Read, WordOf(lo, hi)))]
                      + Marks(SMBusSym.ResponseNack, ss, es, None, None)))
  {
  }

  /** Byte read: the value is annotated over the response byte's range exactly when one byte was received; otherwise nothing happens. */
  lemma ByteRead(c: Context, ss: int, es: int, p: Option<byte>)
    requires Inv(c) && c.state == Some(SMBusSym.Response) && c.access == Some(Read)
    requires c.command.Some? && Proto(c.command.value) == Byte
    ensures var r := Transition(c, SMBusSym.ResponseNack, ss, es, p);
      && (r.Next? && r.ctx.state == Some(SMBusSym.ResponseNack) <==> |c.response| == 1 && c.response[0].value.Some?)
      && (|c.response| == 1 && c.response[0].value.Some? ==>
            r == Next(c.(state := Some(SMBusSym.ResponseNack)),
                      [Ann(c.response[0].ss, c.response[0].es, SMBusSym.Response, ByteValue(c.command.value, Read, c.response[0].value.value))]
                      + Marks(SMBusSym.ResponseNack, ss, es, None, None)))
      && (|c.response| != 1 ==> r == Next(c, []))
      && (|c.response| == 1 && c.response[0].value.None? ==> r == Failed(MissingPayload))
  {
  }

  /** After DATA_NACK only STOP is valid; it is emitted without a reset (the next START clears the context). */
  lemma DataNackNeedsStop(c: Context, k: SMBusSym, ss: int, es: int, p: Option<byte>)
    requires Inv(c) && c.state == Some(SMBusSym.DataNack)
    ensures var r := Transition(c, k, ss, es, p);
      && (k == SMBusSym.Stop ==> r == Next(c.(state := Some(SMBusSym.Stop)), Marks(SMBusSym.Stop, ss, es, None, None)))
      && (k != SMBusSym.Stop ==> r == Failed(NotStopAfterNack))
  {
  }

  /** A silent step of `update`: a reset, no change at all, or one byte appended to a buffer. */
  predicate Silent(c: Context, k: SMBusSym, ss: int, es: int, p: Option<byte>, r: Outcome)
  {
    r.Next? && r.out == [] ==>
      || r.ctx == Idle
      || r.ctx == c
      || (k == SMBusSym.Data && r.ctx == c.(state := Some(SMBusSym.Data), data := c.data + [Sample(ss, es, p)]))
      || (k == SMBusSym.Response && r.ctx == c.(state := Some(SMBusSym.Response), response := c.response + [Sample(ss, es, p)]))
  }

  lemma SilentOpening(c: Context, k: SMBusSym, ss: int, es: int, p: Option<byte>)
    requires Inv(c) && c.state.Some? && c.state.value in {SMBusSym.Start, SMBusSym.Address, SMBusSym.Direction, SMBusSym.AddressAck, SMBusSym.Command}
    ensures Silent(c, k, ss, es, p, Opening(c, k, ss, es, p))
  {
  }

  lemma SilentWriting(c: Context, k: SMBusSym, ss: int, es: int, p: Option<byte>)
    requires Inv(c) && c.state.Some? && c.state.value in {SMBusSym.CommandAck, SMBusSym.CommandNack, SMBusSym.Data, SMBusSym.DataAck, SMBusSym.DataNack}
    ensures Silent(c, k, ss, es, p, Writing(c, k, ss, es, p))
  {
  }

  lemma SilentReading(c: Context, k: SMBusSym, ss: int, es: int, p: Option<byte>)
    requires Inv(c) && c.state.Some? && c.state.value in {SMBusSym.StartRepeat, SMBusSym.AddressRepeat, SMBusSym.DirectionRepeat, SMBusSym.Response, SMBusSym.ResponseAck, SMBusSym.ResponseNack}
    ensures Silent(c, k, ss, es, p, Reading(c, k, ss, es, p))
  {
  }

  /** Any symbol not valid in the current state resets: a step that emits nothing is a reset, a no-op, or a buffered byte. */
  lemma SilentSteps(c: Context, k: SMBusSym, ss: int, es: int, p: Option<byte>)
    requires Inv(c)
    ensures Silent(c, k, ss, es, p, Transition(c, k, ss, es, p))
  {
    if c.state.None? || c.state == Some(SMBusSym.Stop) {
    } else if c.state.value in {SMBusSym.Start, SMBusSym.Address, SMBusSym.Direction, SMBusSym.AddressAck, SMBusSym.Command} {
      SilentOpening(c, k, ss, es, p);
    } else if c.state.value in {SMBusSym.CommandAck, SMBusSym.CommandNack, SMBusSym.Data, SMBusSym.DataAck, SMBusSym.DataNack} {
      SilentWriting(c, k, ss, es, p);
    } else if c.state.value in {SMBusSym.StartRepeat, SMBusSym.AddressRepeat, SMBusSym.DirectionRepeat, SMBusSym.Response,
                                SMBusSym.ResponseAck, SMBusSym.ResponseNack} {
      SilentReading(c, k, ss, es, p);
    }
  }

  // ---------------------------------------------------------------------------
  // Runs of `update`

  /** One `[kind, payload]` record over `ss..es`, as the SMBus framer hands it on. */
  datatype Step = Step(kind: SMBusSym, ss: int, es: int, payload: Option<byte>)

  datatype Trace = Trace(ctx: Context, out: seq<Output>, fault: Option<Fault>)

  /** A run of `update` calls; it stops at the first exception. */
  function Run(c: Context, steps: seq<Step>): (t: Trace)
    requires Inv(c)
    ensures Inv(t.ctx)
    decreases |steps|
  {
    if steps == [] then Trace(c, [], None)
    else
      match Transition(c, steps[0].kind, steps[0].ss, steps[0].es, steps[0].payload)
      case Failed(f) => Trace(c, [], Some(f))
      case Next(c', o) =>
        var t := Run(c', steps[1..]);
        t.(out := o + t.out)
  }

  lemma {:induction false} RunAppend(c: Context, a: seq<Step>, b: seq<Step>)
    requires Inv(c)
    requires Run(c, a).fault.None?
    ensures Run(c, a + b) == Run(Run(c, a).ctx, b).(out := Run(c, a).out + Run(Run(c, a).ctx, b).out)
    decreases |a|
  {
    if a == [] {
      assert a + b == b;
    } else {
      assert (a + b)[0] == a[0];
      assert (a + b)[1..] == a[1..] + b;
      var r := Transition(c, a[0].kind, a[0].ss, a[0].es, a[0].payload);
      assert r.Next?;
      var x, y := Run(r.ctx, a[1..]), Run(r.ctx, a[1..] + b);
      assert Run(c, a) == x.(out := r.out + x.out);
      assert Run(c, a + b) == y.(out := r.out + y.out);
      RunAppend(r.ctx, a[1..], b);
      assert r.out + (x.out + Run(x.ctx, b).out) == (r.out + x.out) + Run(x.ctx, b).out;
    }
  }

  /**
   * Word write, intended: two data bytes, each acknowledged, give one WORD
   * value `(hi << 8) | lo` over the two bytes' ranges.
   */
  lemma WordWriteAssembles(c: Context, lo: byte, hi: byte, s1: int, e1: int, s2: int, e2: int, s3: int, e3: int, s4: int, e4: int)
    requires Inv(c) && c.state == Some(SMBusSym.CommandAck) && c.access == Some(Write)
    requires c.command.Some? && Proto(c.command.value) == Word
    ensures var t := Run(c, [Step(SMBusSym.Data, s1, e1, Some(lo)), Step(SMBusSym.DataAck, s2, e2, None),
                             Step(SMBusSym.Data, s3, e3, Some(hi)), Step(SMBusSym.DataAck, s4, e4, None)]);
      && t.fault.None?
      && t.ctx.state == Some(SMBusSym.DataAck)
      && t.out == Marks(SMBusSym.DataAck, s2, e2, None, None)
                  + [Ann(s1, e3, SMBusSym.Data, WordValue(c.command.value, Write, WordOf(lo, hi)))]
                  + Marks(SMBusSym.DataAck, s4, e4, None, None)
  {
    var d1 := Sample(s1, e1, Some(lo));
    var d2 := Sample(s3, e3, Some(hi));
    var c1 := c.(state := Some(SMBusSym.Data), data := [d1]);
    var c2 := c1.(state := Some(SMBusSym.DataAck));
    var c3 := c2.(state := Some(SMBusSym.Data), data := [d1, d2]);
    var c4 := c3.(state := Some(SMBusSym.DataAck));
    var steps := [Step(SMBusSym.Data, s1, e1, Some(lo)), Step(SMBusSym.DataAck, s2, e2, None),
                  Step(SMBusSym.Data, s3, e3, Some(hi)), Step(SMBusSym.DataAck, s4, e4, None)];
    assert Transition(c, SMBusSym.Data, s1, e1, Some(lo)) == Next(c1, []);
    assert Transition(c1, SMBusSym.DataAck, s2, e2, None) == Next(c2, Marks(SMBusSym.DataAck, s2, e2, None, None));
    assert Transition(c2, SMBusSym.Data, s3, e3, Some(hi)) == Next(c3, []);
    var w := [Ann(s1, e3, SMBusSym.Data, WordValue(c.command.value, Write, WordOf(lo, hi)))] + Marks(SMBusSym.DataAck, s4, e4, None, None);
    assert Transition(c3, SMBusSym.DataAck, s4, e4, None) == Next(c4, w);
    assert steps[1..][1..][1..][1..] == [];
    assert Run(c4, []) == Trace(c4, [], None);
    assert Run(c3, steps[3..]) == Trace(c4, w, None);
    assert Run(c2, steps[2..]) == Trace(c4, w, None);
    assert Run(c1, steps[1..]) == Trace(c4, Marks(SMBusSym.DataAck, s2, e2, None, None) + w, None);
  }

  /**
   * Word write, as written: the ack after the first byte is ignored (the
   * state stays DATA), so the second byte resets the context and no value is
   * ever annotated.
   */
  lemma WordWriteAsWrittenLosesValue(c: Context, lo: byte, hi: byte, s1: int, e1: int, s2: int, e2: int, s3: int, e3: int)
    requires Inv(c) && c.state == Some(SMBusSym.CommandAck) && c.access == Some(Write)
    requires c.command.Some? && Proto(c.command.value) == Word
    ensures var c1 := c.(state := Some(SMBusSym.Data), data := [Sample(s1, e1, Some(lo))]);
      && Transition(c, SMBusSym.Data, s1, e1, Some(lo)) == Next(c1, [])
      && WriteAckAsWritten(c1, s2, e2) == Next(c1, [])
      && Transition(c1, SMBusSym.Data, s3, e3, Some(hi)) == Next(Idle, [])
  {
  }
}
