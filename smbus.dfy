/**
 * The SMBus transaction framer (decoders/smbus/pd.py). It consumes the
 * symbols of the I2C decoder below it and emits framed SMBus symbols
 * following the transaction shapes of section 6.5 of the System Management
 * Bus specification. A symbol that is not valid in the current state clears
 * the context.
 *
 * `Transition` and `Consume` are the specification of one `update` and one
 * `decode` call; the class `Decoder` performs them step by step on its
 * fields and is proved to agree with them.
 */
module SMBus {
  import opened Wrappers
  import opened SMBusCommon

  /** The I2C decoder's symbols. */
  datatype I2CSym =
    | Start | StartRepeat | Stop | Ack | Nack | Bits
    | AddressRead | AddressWrite | DataRead | DataWrite

  /** One bit of a byte as the I2C decoder reports it: its value and its sample range. */
  datatype BitSample = BitSample(value: Bit, ss: int, es: int)

  /** The data half of an I2C symbol: nothing, a byte, or the bit samples of a byte (index 0 = last bit on the wire). */
  datatype I2CData = NoData | DataByte(value: byte) | BitSamples(bits: seq<BitSample>)

  /** An I2C symbol with its sample range, as handed to `decode`. */
  datatype I2CInput = I2CInput(sym: I2CSym, ss: int, es: int, data: I2CData)

  /** What the I2C decoder delivers: a bit list with BITS, a byte with an address or data symbol, nothing otherwise. */
  predicate WellFormedInput(i: I2CInput)
  {
    && (i.sym == I2CSym.Bits <==> i.data.BitSamples?)
    && (i.sym in {I2CSym.AddressRead, I2CSym.AddressWrite, I2CSym.DataRead, I2CSym.DataWrite} <==> i.data.DataByte?)
  }

  /** The framer's transaction context. */
  datatype Context = Context(
    state: Option<SMBusSym>,
    bits: Option<seq<BitSample>>,
    address: Option<byte>,
    addressMode: Option<SMBusAccess>)

  /** The context after `reset`: everything cleared. */
  const Idle := Context(None, None, None, None)

  /** One record of the framer's Python output stream: `[kind, payload]` over `ss..es`. */
  datatype Frame = Frame(kind: SMBusSym, ss: int, es: int, payload: Option<byte>)

  /** The exceptions `update` can raise. */
  datatype Fault =
    | BitsUnavailable              // `self.bits` is None or shorter than a byte
    | NotStopAfterNack(state: SMBusSym)  // the assertion after ADDRESS_NACK or DATA_NACK
    | UnexpectedState(state: SMBusSym)   // the final `assert False`

  datatype Outcome = Next(ctx: Context, frames: seq<Frame>) | Failed(fault: Fault)

  predicate HasByteBits(bits: Option<seq<BitSample>>)
  {
    bits.Some? && |bits.value| >= 8
  }

  predicate IsAddress(sym: I2CSym)
  {
    sym == I2CSym.AddressRead || sym == I2CSym.AddressWrite
  }

  predicate IsData(sym: I2CSym)
  {
    sym == I2CSym.DataRead || sym == I2CSym.DataWrite
  }

  /** Move to state `k` and emit one frame of kind `k`. */
  function Accept(c: Context, k: SMBusSym, ss: int, es: int, payload: Option<byte>): Outcome
  {
    Next(c.(state := Some(k)), [Frame(k, ss, es, payload)])
  }

  /** A symbol not valid in the current state: clear the context, emit nothing. */
  const Resync := Next(Idle, [])

  /** The address byte and its direction bit, reported as two frames spanning bits 7..1 and bit 0. */
  function AddressFrames(first: SMBusSym, second: SMBusSym, b: seq<BitSample>, data: Option<byte>): seq<Frame>
    requires |b| >= 8
  {
    [Frame(first, b[7].ss, b[1].es, data), Frame(second, b[0].ss, b[0].es, Some(b[0].value))]
  }

  /** A Python enum member: `is` between members of two different enums is never true. */
  datatype EnumMember = I2CMember(i2c: I2CSym) | SMBusMember(smbus: SMBusSym)

  /** `update` from START through COMMAND: the address byte and the command byte. */
  function Opening(c: Context, sym: I2CSym, ss: int, es: int, data: Option<byte>): Outcome
    requires c.state.Some? && c.state.value in {SMBusSym.Start, SMBusSym.Direction, SMBusSym.AddressAck, SMBusSym.AddressNack, SMBusSym.Command}
  {
    match c.state.value
    case Start =>
      if IsAddress(sym) then
        if !HasByteBits(c.bits) then Failed(BitsUnavailable)
        else
          var b := c.bits.value;
          var mode := if b[0].value != 0 then Read else Write;
          Next(c.(addressMode := Some(mode), address := data, state := Some(SMBusSym.Direction)),
               AddressFrames(SMBusSym.Address, SMBusSym.Direction, b, data))
      else Resync
    case Direction =>
      if sym == I2CSym.Ack then Accept(c, SMBusSym.AddressAck, ss, es, None)
      else if sym == I2CSym.Nack then Accept(c, SMBusSym.AddressNack, ss, es, None)
      else Resync
    case AddressAck =>
      // 6.5.1 Quick Command, or the command byte of every other command
      if sym == I2CSym.Stop then Accept(c, SMBusSym.Stop, ss, es, None)
      else if sym == I2CSym.DataWrite then Accept(c, SMBusSym.Command, ss, es, data)
      else Resync
    case AddressNack =>
      if sym == I2CSym.Stop then Next(Idle, [Frame(SMBusSym.Stop, ss, es, None)])
      else Failed(NotStopAfterNack(SMBusSym.AddressNack))
    case Command =>
      if sym == I2CSym.Ack then Accept(c, SMBusSym.CommandAck, ss, es, None)
      else if sym == I2CSym.Nack then Accept(c, SMBusSym.CommandNack, ss, es, None)
      else Resync
  }

  /** `update` in the write phase: COMMAND_ACK through DATA_NACK. */
  function Writing(c: Context, sym: I2CSym, ss: int, es: int, data: Option<byte>): Outcome
    requires c.state.Some? && c.state.value in {SMBusSym.CommandAck, SMBusSym.CommandNack, SMBusSym.Data, SMBusSym.DataAck, SMBusSym.DataNack}
  {
    match c.state.value
    case CommandAck =>
      // 6.5.2 Send Byte; data of 6.5.4 Write Byte/Word, 6.5.6 Process Call, 6.5.7 Block Write/Read
      if sym == I2CSym.Stop then
        if c.addressMode == Some(Write) then Accept(c, SMBusSym.Stop, ss, es, None) else Resync
      else if IsData(sym) then Accept(c, SMBusSym.Data, ss, es, data)
      else if sym == I2CSym.StartRepeat then Accept(c, SMBusSym.StartRepeat, ss, es, None)
      else Resync
    case CommandNack =>
      // 6.5.3 Receive Byte
      if sym == I2CSym.Stop && c.addressMode == Some(Read) then Accept(c, SMBusSym.Stop, ss, es, None)
      else Resync
    case Data =>
      if sym == I2CSym.Ack then Accept(c, SMBusSym.DataAck, ss, es, None)
      else if sym == I2CSym.Nack then Accept(c, SMBusSym.DataNack, ss, es, None)
      else Resync
    case DataAck =>
      if sym == I2CSym.Stop then
        if c.addressMode == Some(Write) then Accept(c, SMBusSym.Stop, ss, es, None) else Resync
      else if IsData(sym) then Accept(c, SMBusSym.Data, ss, es, data)
      else if sym == I2CSym.StartRepeat then Accept(c, SMBusSym.StartRepeat, ss, es, data)
      else Resync
    case DataNack =>
      // the assertion as evidently intended: the I2C symbol is STOP
      if I2CMember(sym) == I2CMember(I2CSym.Stop) then Next(Idle, [Frame(SMBusSym.Stop, ss, es, None)])
      else Failed(NotStopAfterNack(SMBusSym.DataNack))
  }

  /** `update` in the read phase: START_REPEAT through RESPONSE_NACK. */
  function Reading(c: Context, sym: I2CSym, ss: int, es: int, data: Option<byte>): Outcome
    requires c.state.Some? && c.state.value in {SMBusSym.StartRepeat, SMBusSym.DirectionRepeat, SMBusSym.Response, SMBusSym.ResponseAck, SMBusSym.ResponseNack}
  {
    match c.state.value
    case StartRepeat =>
      if IsAddress(sym) then
        if c.address == data then
          if !HasByteBits(c.bits) then Failed(BitsUnavailable)
          else Next(c.(state := Some(SMBusSym.DirectionRepeat)),
                    AddressFrames(SMBusSym.AddressRepeat, SMBusSym.DirectionRepeat, c.bits.value, data))
        else Resync
      else Resync
    case DirectionRepeat =>
      if sym == I2CSym.Ack then Accept(c, SMBusSym.ResponseAck, ss, es, None) else Resync
    case Response =>
      if sym == I2CSym.Ack then Accept(c, SMBusSym.ResponseAck, ss, es, None)
      else if sym == I2CSym.Nack then Accept(c, SMBusSym.ResponseNack, ss, es, None)
      else Resync
    case ResponseAck =>
      if IsData(sym) then Accept(c, SMBusSym.Response, ss, es, data)
      else if sym == I2CSym.Stop then Accept(c, SMBusSym.Stop, ss, es, None)
      else Resync
    case ResponseNack =>
      if sym == I2CSym.Stop then Accept(c, SMBusSym.Stop, ss, es, None) else Resync
  }

  /** One call of `update(ss, es, sym, data)`. */
  function Transition(c: Context, sym: I2CSym, ss: int, es: int, data: Option<byte>): Outcome
  {
    if c.state.None? || c.state == Some(SMBusSym.Stop) then
      if sym == I2CSym.Start then Accept(c, SMBusSym.Start, ss, es, None) else Resync
    else
      var s := c.state.value;
      if s in {SMBusSym.Start, SMBusSym.Direction, SMBusSym.AddressAck, SMBusSym.AddressNack, SMBusSym.Command} then
        Opening(c, sym, ss, es, data)
      else if s in {SMBusSym.CommandAck, SMBusSym.CommandNack, SMBusSym.Data, SMBusSym.DataAck, SMBusSym.DataNack} then
        Writing(c, sym, ss, es, data)
      else if s in {SMBusSym.StartRepeat, SMBusSym.DirectionRepeat, SMBusSym.Response, SMBusSym.ResponseAck, SMBusSym.ResponseNack} then
        Reading(c, sym, ss, es, data)
      else Failed(UnexpectedState(s))
  }

  /**
   * The DATA_NACK arm as written (decoders/smbus/pd.py:235-240): its assertion
   * asks whether the I2C symbol is `SMBusSym.STOP`, a member of another enum.
   */
  function DataNackAsWritten(sym: I2CSym, ss: int, es: int): Outcome
  {
    if I2CMember(sym) == SMBusMember(SMBusSym.Stop) then Next(Idle, [Frame(SMBusSym.Stop, ss, es, None)])
    else Failed(NotStopAfterNack(SMBusSym.DataNack))
  }

  /** As written, even the STOP that should end the transaction after DATA_NACK fails the assertion. */
  lemma DataNackAsWrittenRejectsStop(sym: I2CSym, ss: int, es: int)
    ensures DataNackAsWritten(sym, ss, es) == Failed(NotStopAfterNack(SMBusSym.DataNack))
  {
  }

  /** `record(bits)`: the bit list is kept only while a (repeated) start waits for its address byte. */
  function Captured(c: Context, bits: Option<seq<BitSample>>): (r: Context)
    ensures r.state == c.state && r.address == c.address && r.addressMode == c.addressMode
    ensures r.bits.Some? <==> bits.Some? && (c.state == Some(SMBusSym.Start) || c.state == Some(SMBusSym.StartRepeat))
    ensures r.bits.Some? ==> r.bits == bits
  {
    if c.state == Some(SMBusSym.Start) || c.state == Some(SMBusSym.StartRepeat) then c.(bits := bits)
    else c.(bits := None)
  }

  /** The bit list carried by a BITS symbol; anything else records nothing usable. */
  function BitsOf(d: I2CData): Option<seq<BitSample>>
  {
    if d.BitSamples? then Some(d.bits) else None
  }

  /** The byte carried by an address or data symbol. */
  function ByteOf(d: I2CData): Option<byte>
  {
    if d.DataByte? then Some(d.value) else None
  }

  /** One call of `decode`: BITS are recorded, every other symbol goes to `update`. */
  function Consume(c: Context, i: I2CInput): Outcome
  {
    if i.sym == I2CSym.Bits then Next(Captured(c, BitsOf(i.data)), [])
    else Transition(c, i.sym, i.ss, i.es, ByteOf(i.data))
  }

  /** The annotation `puta` pairs with each frame: a direction as Read/Write, otherwise `pretty` and `short`. */
  function FrameLabel(f: Frame): (r: (string, string))
    ensures f.kind == SMBusSym.Direction || f.kind == SMBusSym.DirectionRepeat ==>
              (r.0 == "Read" <==> f.payload == Some(1)) && (r.0 == "Write" <==> f.payload != Some(1)) && r.1 == r.0[..1]
    ensures f.kind != SMBusSym.Direction && f.kind != SMBusSym.DirectionRepeat ==>
              && |r.0| >= |Name(f.kind)| && r.0[..|Name(f.kind)|] == PrettyName(f.kind)
              && (f.payload.None? ==> |r.0| == |Name(f.kind)|)
              && (f.payload.Some? ==> r.0[|Name(f.kind)|..] == ": " + Hex2(f.payload.value))
              && r.1 == ShortTable(f.kind)
  {
    ShortMatchesTable(f.kind);
    if f.kind == SMBusSym.Direction || f.kind == SMBusSym.DirectionRepeat then
      var d := if f.payload == Some(1) then "Read" else "Write";
      (d, d[..1])
    else (Pretty(f.kind, f.payload), Short(f.kind))
  }

  // ---------------------------------------------------------------------------
  // The decoder object

  class Decoder {
    var state: Option<SMBusSym>
    var bits: Option<seq<BitSample>>
    var address: Option<byte>
    var addressMode: Option<SMBusAccess>
    /** The Python output stream so far. */
    var out: seq<Frame>

    function Ctx(): Context
      reads this
    {
      Context(state, bits, address, addressMode)
    }

    constructor ()
      ensures Ctx() == Idle && out == []
    {
      state, bits, address, addressMode := None, None, None, None;
      out := [];
    }

    method Reset()
      modifies this
      ensures Ctx() == Idle && out == old(out)
    {
      state := None;
      bits := None;
      address := None;
      addressMode := None;
    }

    /** `putp` (with its paired `puta`): append one frame of the current kind. */
    method Put(ss: int, es: int, payload: Option<byte>)
      requires state.Some?
      modifies this`out
      ensures out == old(out) + [Frame(state.value, ss, es, payload)]
    {
      out := out + [Frame(state.value, ss, es, payload)];
    }

    /** `update` from START through COMMAND. */
    method UpdateOpening(ss: int, es: int, sym: I2CSym, data: Option<byte>) returns (fault: Option<Fault>)
      requires state.Some? && state.value in {SMBusSym.Start, SMBusSym.Direction, SMBusSym.AddressAck, SMBusSym.AddressNack, SMBusSym.Command}
      modifies this
      ensures match Opening(old(Ctx()), sym, ss, es, data)
              case Next(c, fs) => fault.None? && Ctx() == c && out == old(out) + fs
              case Failed(f) => fault == Some(f) && Ctx() == old(Ctx()) && out == old(out)
    {
      fault := None;
      if state == Some(SMBusSym.Start) {
        if sym == I2CSym.AddressRead || sym == I2CSym.AddressWrite {
          if bits.None? || |bits.value| < 8 {
            return Some(BitsUnavailable);
          }
          var b := bits.value;
          addressMode := if b[0].value != 0 then Some(Read) else Some(Write);
          address := data;
          state := Some(SMBusSym.Address);
          Put(b[7].ss, b[1].es, data);
          state := Some(SMBusSym.Direction);
          Put(b[0].ss, b[0].es, Some(b[0].value));
        } else {
          Reset();
        }
      } else if state == Some(SMBusSym.Direction) {
        if sym == I2CSym.Ack {
          state := Some(SMBusSym.AddressAck);
          Put(ss, es, None);
        } else if sym == I2CSym.Nack {
          state := Some(SMBusSym.AddressNack);
          Put(ss, es, None);
        } else {
          Reset();
        }
      } else if state == Some(SMBusSym.AddressAck) {
        if sym == I2CSym.Stop {
          state := Some(SMBusSym.Stop);
          Put(ss, es, None);
        } else if sym == I2CSym.DataWrite {
          state := Some(SMBusSym.Command);
          Put(ss, es, data);
        } else {
          Reset();
        }
      } else if state == Some(SMBusSym.AddressNack) {
        if sym != I2CSym.Stop {
          return Some(NotStopAfterNack(SMBusSym.AddressNack));
        }
        state := Some(SMBusSym.Stop);
        Put(ss, es, None);
        Reset();
      } else if state == Some(SMBusSym.Command) {
        if sym == I2CSym.Ack {
          state := Some(SMBusSym.CommandAck);
          Put(ss, es, None);
        } else if sym == I2CSym.Nack {
          state := Some(SMBusSym.CommandNack);
          Put(ss, es, None);
        } else {
          Reset();
        }
      }
    }

    /** `update` in the write phase. */
    method UpdateWriting(ss: int, es: int, sym: I2CSym, data: Option<byte>) returns (fault: Option<Fault>)
      requires state.Some? && state.value in {SMBusSym.CommandAck, SMBusSym.CommandNack, SMBusSym.Data, SMBusSym.DataAck, SMBusSym.DataNack}
      modifies this
      ensures match Writing(old(Ctx()), sym, ss, es, data)
              case Next(c, fs) => fault.None? && Ctx() == c && out == old(out) + fs
              case Failed(f) => fault == Some(f) && Ctx() == old(Ctx()) && out == old(out)
    {
      fault := None;
      if state == Some(SMBusSym.CommandAck) {
        if sym == I2CSym.Stop {
          if addressMode == Some(Write) {
            state := Some(SMBusSym.Stop);
            Put(ss, es, None);
          } else {
            Reset();
          }
        } else if sym == I2CSym.DataWrite || sym == I2CSym.DataRead {
          state := Some(SMBusSym.Data);
          Put(ss, es, data);
        } else if sym == I2CSym.StartRepeat {
          state := Some(SMBusSym.StartRepeat);
          Put(ss, es, None);
        } else {
          Reset();
        }
      } else if state == Some(SMBusSym.CommandNack) {
        if sym == I2CSym.Stop {
          if addressMode == Some(Read) {
            state := Some(SMBusSym.Stop);
            Put(ss, es, None);
          } else {
            Reset();
          }
        } else {
          Reset();
        }
      } else if state == Some(SMBusSym.Data) {
        if sym == I2CSym.Ack {
          state := Some(SMBusSym.DataAck);
          Put(ss, es, None);
        } else if sym == I2CSym.Nack {
          state := Some(SMBusSym.DataNack);
          Put(ss, es, None);
        } else {
          Reset();
        }
      } else if state == Some(SMBusSym.DataAck) {
        if sym == I2CSym.Stop {
          if addressMode == Some(Write) {
            state := Some(SMBusSym.Stop);
            Put(ss, es, None);
          } else {
            Reset();
          }
        } else if sym == I2CSym.DataWrite || sym == I2CSym.DataRead {
          state := Some(SMBusSym.Data);
          Put(ss, es, data);
        } else if sym == I2CSym.StartRepeat {
          state := Some(SMBusSym.StartRepeat);
          Put(ss, es, data);
        } else {
          Reset();
        }
      } else if state == Some(SMBusSym.DataNack) {
        if sym != I2CSym.Stop {
          return Some(NotStopAfterNack(SMBusSym.DataNack));
        }
        state := Some(SMBusSym.Stop);
        Put(ss, es, None);
        Reset();
      }
    }

    /** `update` in the read phase. */
    method UpdateReading(ss: int, es: int, sym: I2CSym, data: Option<byte>) returns (fault: Option<Fault>)
      requires state.Some? && state.value in {SMBusSym.StartRepeat, SMBusSym.DirectionRepeat, SMBusSym.Response, SMBusSym.ResponseAck, SMBusSym.ResponseNack}
      modifies this
      ensures match Reading(old(Ctx()), sym, ss, es, data)
              case Next(c, fs) => fault.None? && Ctx() == c && out == old(out) + fs
              case Failed(f) => fault == Some(f) && Ctx() == old(Ctx()) && out == old(out)
    {
      fault := None;
      if state == Some(SMBusSym.StartRepeat) {
        if sym == I2CSym.AddressWrite || sym == I2CSym.AddressRead {
          if address == data {
            if bits.None? || |bits.value| < 8 {
              return Some(BitsUnavailable);
            }
            var b := bits.value;
            state := Some(SMBusSym.AddressRepeat);
            Put(b[7].ss, b[1].es, data);
            state := Some(SMBusSym.DirectionRepeat);
            Put(b[0].ss, b[0].es, Some(b[0].value));
          } else {
            Reset();
          }
        } else {
          Reset();
        }
      } else if state == Some(SMBusSym.DirectionRepeat) {
        if sym == I2CSym.Ack {
          state := Some(SMBusSym.ResponseAck);
          Put(ss, es, None);
        } else {
          Reset();
        }
      } else if state == Some(SMBusSym.Response) {
        if sym == I2CSym.Ack {
          state := Some(SMBusSym.ResponseAck);
          Put(ss, es, None);
        } else if sym == I2CSym.Nack {
          state := Some(SMBusSym.ResponseNack);
          Put(ss, es, None);
        } else {
          Reset();
        }
      } else if state == Some(SMBusSym.ResponseAck) {
        if sym == I2CSym.DataRead || sym == I2CSym.DataWrite {
          state := Some(SMBusSym.Response);
          Put(ss, es, data);
        } else if sym == I2CSym.Stop {
          state := Some(SMBusSym.Stop);
          Put(ss, es, None);
        } else {
          Reset();
        }
      } else if state == Some(SMBusSym.ResponseNack) {
        if sym == I2CSym.Stop {
          state := Some(SMBusSym.Stop);
          Put(ss, es, None);
        } else {
          Reset();
        }
      }
    }

    /** `update(ss, es, sym, data)`; a raised exception is returned as `fault` and leaves the decoder as it was. */
    method Update(ss: int, es: int, sym: I2CSym, data: Option<byte>) returns (fault: Option<Fault>)
      modifies this
      ensures match Transition(old(Ctx()), sym, ss, es, data)
              case Next(c, fs) => fault.None? && Ctx() == c && out == old(out) + fs
              case Failed(f) => fault == Some(f) && Ctx() == old(Ctx()) && out == old(out)
    {
      fault := None;
      if state.None? || state == Some(SMBusSym.Stop) {
        if sym == I2CSym.Start {
          state := Some(SMBusSym.Start);
          Put(ss, es, None);
        } else {
          Reset();
        }
      } else if state.value in {SMBusSym.Start, SMBusSym.Direction, SMBusSym.AddressAck, SMBusSym.AddressNack, SMBusSym.Command} {
        assert Transition(Ctx(), sym, ss, es, data) == Opening(Ctx(), sym, ss, es, data);
        fault := UpdateOpening(ss, es, sym, data);
      } else if state.value in {SMBusSym.CommandAck, SMBusSym.CommandNack, SMBusSym.Data, SMBusSym.DataAck, SMBusSym.DataNack} {
        assert Transition(Ctx(), sym, ss, es, data) == Writing(Ctx(), sym, ss, es, data);
        fault := UpdateWriting(ss, es, sym, data);
      } else if state.value in {SMBusSym.StartRepeat, SMBusSym.DirectionRepeat, SMBusSym.Response, SMBusSym.ResponseAck, SMBusSym.ResponseNack} {
        assert Transition(Ctx(), sym, ss, es, data) == Reading(Ctx(), sym, ss, es, data);
        fault := UpdateReading(ss, es, sym, data);
      } else {
        fault := Some(UnexpectedState(state.value));
      }
    }

    /** `record(bits)`. */
    method Record(newBits: Option<seq<BitSample>>)
      modifies this`bits
      ensures Ctx() == Captured(old(Ctx()), newBits)
    {
      if state == Some(SMBusSym.Start) || state == Some(SMBusSym.StartRepeat) {
        bits := newBits;
      } else {
        bits := None;
      }
    }

    /** `decode(ss, es, (sym, data))`. */
    method Decode(ss: int, es: int, sym: I2CSym, data: I2CData) returns (fault: Option<Fault>)
      modifies this
      ensures match Consume(old(Ctx()), I2CInput(sym, ss, es, data))
              case Next(c, fs) => fault.None? && Ctx() == c && out == old(out) + fs
              case Failed(f) => fault == Some(f) && Ctx() == old(Ctx()) && out == old(out)
    {
      if sym == I2CSym.Bits {
        Record(BitsOf(data));
        fault := None;
      } else {
        fault := Update(ss, es, sym, ByteOf(data));
      }
    }
  }
}
