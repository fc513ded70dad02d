/**
 * The PMBus command layer (decoders/pmbus/pd.py, class Decoder). It consumes
 * the SMBus framer's Python stream of `[kind, payload]` records, follows the
 * transaction, resolves the command byte through the command table, buffers
 * data and response bytes and annotates the values it assembles: a byte, a
 * little-endian word, or the length and bytes of a block read.
 *
 * `Transition` and `Decode` specify one `update` and one `decode` call; the
 * class `Decoder` performs them on its fields and is proved to agree.
 */
module PMBus {
  import opened Wrappers
  import opened SMBusCommon
  import opened PMBusCommands

  type word = w: int | 0 <= w < 0x1_0000

  /** `(hi << 8) | lo`: the little-endian word of two bytes. */
  function WordOf(lo: byte, hi: byte): (w: word)
    ensures w % 0x100 == lo && w / 0x100 == hi
  {
    // the shift leaves the low eight bits clear, so the or is an addition
    hi * 0x100 + lo
  }

  /** A buffered byte: `(ss, es, data)`. */
  datatype Sample = Sample(ss: int, es: int, value: Option<byte>)

  /** What an annotation says; `Render` turns it into the long and short texts. */
  datatype Label =
    | SymLabel(kind: SMBusSym, data: Option<byte>)           // puta: pretty and short of the kind
    | AccessLabel(access: SMBusAccess)                        // puta on DIRECTION / DIRECTION_REPEAT
    | CommandLabel(cmd: PMBusCommand)                         // "<name> Command"
    | ByteValue(cmd: PMBusCommand, dir: SMBusAccess, b: byte) // "<name> Write: XX" / "<name> Read: XX"
    | WordValue(cmd: PMBusCommand, dir: SMBusAccess, w: word) // "<name> Write: XXXX" / "<name> Read: XXXX"
    | BlockLength(len: byte)                                  // "Block Read Length: XX"
    | BlockByte(b: byte)                                      // "XX"

  /** The text between the command's name and the value: " Write: " or " Read: ". */
  function DirWord(d: SMBusAccess): string
  {
    if d == Write then " Write: " else " Read: "
  }

  /** `f'{self.command.name} Write: {val}'` and its Read form, with the value's digits `h`. */
  function ValueText(c: PMBusCommand, d: SMBusAccess, h: string): (t: string)
    ensures var n, w := CommandName(c), DirWord(d);
      && |t| == |n| + |w| + |h|
      && t[..|n|] == n && t[|n|..|n| + |w|] == w && t[|n| + |w|..] == h
  {
    var n, w := CommandName(c), DirWord(d);
    assert (n + w + h)[..|n|] == n;
    assert (n + w + h)[|n|..|n| + |w|] == w;
    assert (n + w + h)[|n| + |w|..] == h;
    n + w + h
  }

  /** `f'{self.command.name} Command'`. */
  function CommandText(c: PMBusCommand): (t: string)
    ensures var n := CommandName(c); |t| == |n| + 8 && t[..|n|] == n && t[|n|..] == " Command"
  {
    var n := CommandName(c);
    assert (n + " Command")[..|n|] == n;
    n + " Command"
  }

  /** A BYTE value's text: the command, the direction, then two hex digits that read back as the byte. */
  function ByteText(c: PMBusCommand, d: SMBusAccess, b: byte): (t: string)
    ensures var n, w := CommandName(c), DirWord(d);
      && |t| == |n| + |w| + 2 && t[..|n|] == n && t[|n|..|n| + |w|] == w
      && HexValue(t[|t| - 2..]) == b
  {
    var t := ValueText(c, d, Hex2(b));
    Hex2RoundTrip(b);
    assert t[|t| - 2..] == Hex2(b);
    t
  }

  /** A WORD value's text: the command, the direction, then four hex digits that read back as the word. */
  function WordText(c: PMBusCommand, d: SMBusAccess, v: word): (t: string)
    ensures var n, w := CommandName(c), DirWord(d);
      && |t| == |n| + |w| + 4 && t[..|n|] == n && t[|n|..|n| + |w|] == w
      && HexValue(t[|t| - 4..]) == v
  {
    var t := ValueText(c, d, Hex4(v));
    Hex4RoundTrip(v);
    assert t[|t| - 4..] == Hex4(v);
    t
  }

  /** The annotation texts `[long, short]`; every value label ends in the value's hex digits. */
  function Render(l: Label): (r: (string, string))
    ensures l.AccessLabel? ==> |r.0| >= 1 && (r.0 == "Read" <==> l.access == Read) && (r.0 == "Write" <==> l.access == Write) && r.1 == r.0[..1]
    ensures l.CommandLabel? ==> var n := CommandName(l.cmd);
              |r.0| == |n| + 8 && r.0[..|n|] == n && r.0[|n|..] == " Command" && r.1 == "C"
    ensures l.ByteValue? ==> var n, d := CommandName(l.cmd), DirWord(l.dir);
              && |r.0| == |n| + |d| + 2 && r.0[..|n|] == n && r.0[|n|..|n| + |d|] == d
              && HexValue(r.0[|r.0| - 2..]) == l.b && r.1 == "B"
    ensures l.WordValue? ==> var n, d := CommandName(l.cmd), DirWord(l.dir);
              && |r.0| == |n| + |d| + 4 && r.0[..|n|] == n && r.0[|n|..|n| + |d|] == d
              && HexValue(r.0[|r.0| - 4..]) == l.w && r.1 == "W"
    ensures l.BlockLength? ==> |r.0| >= 2 && HexValue(r.0[|r.0| - 2..]) == l.len && r.1 == "L"
    ensures l.BlockByte? ==> HexValue(r.0) == l.b && r.1 == "R"
  {
    match l
    case SymLabel(k, d) => (Pretty(k, d), Short(k))
    case AccessLabel(a) =>
      var t := if a == Read then "Read" else "Write";
      assert a == Read ==> |t| == 4;
      (t, t[..1])
    case CommandLabel(c) => (CommandText(c), "C")
    case ByteValue(c, d, b) => (ByteText(c, d, b), "B")
    case WordValue(c, d, w) => (WordText(c, d, w), "W")
    case BlockLength(n) =>
      var t := "Block Read Length: " + Hex2(n);
      Hex2RoundTrip(n);
      assert t[|t| - 2..] == Hex2(n);
      (t, "L")
    case BlockByte(b) =>
      Hex2RoundTrip(b);
      (Hex2(b), "R")
  }

  /** `access.name.capitalize()` is the text the direction label shows. */
  lemma AccessLabelIsCapitalizedName(a: SMBusAccess)
    ensures Render(AccessLabel(a)).0 == Capitalize(AccessName(a))
  {
    var n := AccessName(a);
    var t := Capitalize(n);
    if a == Read {
      assert t[0] == 'R' && t[1] == 'e' && t[2] == 'a' && t[3] == 'd';
    } else {
      assert t[0] == 'W' && t[1] == 'r' && t[2] == 'i' && t[3] == 't' && t[4] == 'e';
    }
  }

  /** One record of the decoder's output, in emission order: an annotation, or a `[kind, payload]` Python record. */
  datatype Output =
    | Ann(ss: int, es: int, kind: SMBusSym, note: Label)
    | Py(ss: int, es: int, kind: SMBusSym, payload: Option<byte>)

  /** The decoder's context. */
  datatype Context = Context(
    state: Option<SMBusSym>,
    address: Option<byte>,
    access: Option<SMBusAccess>,
    command: Option<PMBusCommand>,
    data: seq<Sample>,
    response: seq<Sample>)

  const Idle := Context(None, None, None, None, [], [])

  /** The states from which the command is known. */
  predicate Commanded(k: SMBusSym)
  {
    k in {SMBusSym.Command, SMBusSym.CommandAck, SMBusSym.CommandNack, SMBusSym.Data, SMBusSym.DataAck,
          SMBusSym.DataNack, SMBusSym.StartRepeat, SMBusSym.AddressRepeat, SMBusSym.DirectionRepeat,
          SMBusSym.Response, SMBusSym.ResponseAck, SMBusSym.ResponseNack}
  }

  /** The states before the data phase. */
  predicate Unbuffered(s: Option<SMBusSym>)
  {
    s.Some? && s.value in {SMBusSym.Start, SMBusSym.Address, SMBusSym.Direction, SMBusSym.AddressAck,
                           SMBusSym.Command, SMBusSym.CommandAck}
  }

  /** What the transitions keep true: nothing is buffered before the data phase, a response is buffered in RESPONSE, the command is known once resolved. */
  predicate Inv(c: Context)
  {
    && (Unbuffered(c.state) ==> c.data == [])
    && (c.state == Some(SMBusSym.Response) ==> c.response != [])
    && (c.state.Some? && Commanded(c.state.value) ==> c.command.Some?)
  }

  /** The exceptions `update` and `decode` can raise. */
  datatype Fault =
    | BadDirection(payload: Option<byte>)    // SMBusAccess(data): ValueError
    | UnknownCommand(payload: Option<byte>)  // PMBusCommand(data): ValueError
    | MissingPayload                          // a None byte formatted or shifted: TypeError
    | NotStopAfterNack                        // the assertion after DATA_NACK
    | BadSymbol(id: int)                      // SMBusSym(id): ValueError

  datatype Outcome = Next(ctx: Context, out: seq<Output>) | Failed(fault: Fault)

  /** `puta(ss, es, ann)` then `putp(ss, es, py)` for a kind labelled by its pretty and short forms. */
  function Marks(k: SMBusSym, ss: int, es: int, ann: Option<byte>, py: Option<byte>): seq<Output>
  {
    [Ann(ss, es, k, SymLabel(k, ann)), Py(ss, es, k, py)]
  }

  function Accept(c: Context, k: SMBusSym, ss: int, es: int, ann: Option<byte>, py: Option<byte>): Outcome
  {
    Next(c.(state := Some(k)), Marks(k, ss, es, ann, py))
  }

  const Resync := Next(Idle, [])

  /** `SMBusAccess(data)` on a direction record. */
  function TakeDirection(c: Context, k: SMBusSym, ss: int, es: int, p: Option<byte>): Outcome
  {
    var a := if p.Some? then AccessOf(p.value) else None;
    if a.None? then Failed(BadDirection(p))
    else Next(c.(state := Some(k), access := a), [Ann(ss, es, k, AccessLabel(a.value)), Py(ss, es, k, p)])
  }

  /** DATA_ACK after a buffered write byte (decoders/pmbus/pd.py:218-251), with the Word case corrected. */
  function WriteAck(c: Context, ss: int, es: int): Outcome
    requires c.command.Some?
  {
    var cmd, d := c.command.value, c.data;
    if c.access != Some(Write) then Resync
    else if Proto(cmd) == Byte then
      if |d| != 1 then Next(c, [])
      else if d[0].value.None? then Failed(MissingPayload)
      else Next(c.(state := Some(SMBusSym.DataAck)),
                [Ann(d[0].ss, d[0].es, SMBusSym.Data, ByteValue(cmd, Write, d[0].value.value))]
                + Marks(SMBusSym.DataAck, ss, es, None, None))
    else if Proto(cmd) == Word then
      if |d| < 2 then Accept(c, SMBusSym.DataAck, ss, es, None, None)
      else if |d| > 2 then Next(c, [])
      else if d[0].value.None? || d[1].value.None? then Failed(MissingPayload)
      else Next(c.(state := Some(SMBusSym.DataAck)),
                [Ann(d[0].ss, d[1].es, SMBusSym.Data, WordValue(cmd, Write, WordOf(d[0].value.value, d[1].value.value)))]
                + Marks(SMBusSym.DataAck, ss, es, None, None))
    else Resync
  }

  /**
   * The same handler as written: the Word case acts only on exactly two
   * buffered bytes, so the ack after the first byte is ignored.
   */
  function WriteAckAsWritten(c: Context, ss: int, es: int): Outcome
    requires c.command.Some?
  {
    var cmd, d := c.command.value, c.data;
    if c.access != Some(Write) then Resync
    else if Proto(cmd) == Byte then
      if |d| != 1 then Next(c, [])
      else if d[0].value.None? then Failed(MissingPayload)
      else Next(c.(state := Some(SMBusSym.DataAck)),
                [Ann(d[0].ss, d[0].es, SMBusSym.Data, ByteValue(cmd, Write, d[0].value.value))]
                + Marks(SMBusSym.DataAck, ss, es, None, None))
    else if Proto(cmd) == Word then
      if |d| != 2 then Next(c, [])
      else if d[0].value.None? || d[1].value.None? then Failed(MissingPayload)
      else Next(c.(state := Some(SMBusSym.DataAck)),
                [Ann(d[0].ss, d[1].es, SMBusSym.Data, WordValue(cmd, Write, WordOf(d[0].value.value, d[1].value.value)))]
                + Marks(SMBusSym.DataAck, ss, es, None, None))
    else Resync
  }

  /** RESPONSE_NACK closing a read (decoders/pmbus/pd.py:318-362). */
  function ReadNack(c: Context, ss: int, es: int): Outcome
    requires c.command.Some? && c.response != []
  {
    var cmd, r := c.command.value, c.response;
    if c.access != Some(Read) then Resync
    else if Proto(cmd) == Byte then
      if |r| != 1 then Next(c, [])
      else if r[0].value.None? then Failed(MissingPayload)
      else Next(c.(state := Some(SMBusSym.ResponseNack)),
                [Ann(r[0].ss, r[0].es, SMBusSym.Response, ByteValue(cmd, Read, r[0].value.value))]
                + Marks(SMBusSym.ResponseNack, ss, es, None, None))
    else if Proto(cmd) == Word then
      if |r| != 2 then Next(c, [])
      else if r[0].value.None? || r[1].value.None? then Failed(MissingPayload)
      else Next(c.(state := Some(SMBusSym.ResponseNack)),
                [Ann(r[0].ss, r[1].es, SMBusSym.Response, WordValue(cmd, Read, WordOf(r[0].value.value, r[1].value.value)))]
                + Marks(SMBusSym.ResponseNack, ss, es, None, None))
    else if Proto(cmd) == Block then
      var last := r[|r| - 1];
      if last.value.None? then Failed(MissingPayload)
      else Next(c.(state := Some(SMBusSym.ResponseNack)),
                [Ann(last.ss, last.es, SMBusSym.Response, BlockByte(last.value.value))]
                + Marks(SMBusSym.ResponseNack, ss, es, None, None))
    else Resync
  }

  /** RESPONSE_ACK after a response byte (decoders/pmbus/pd.py:364-385): a block read labels the byte, every read moves on. */
  function ReadAck(c: Context, ss: int, es: int): Outcome
    requires c.command.Some? && c.response != []
  {
    var r := c.response;
    var next := c.(state := Some(SMBusSym.ResponseAck));
    if c.access == Some(Read) && Proto(c.command.value) == Block then
      var s := if |r| == 1 then r[0] else r[|r| - 1];
      if s.value.None? then Failed(MissingPayload)
      else
        var l := if |r| == 1 then BlockLength(s.value.value) else BlockByte(s.value.value);
        Next(next, [Ann(s.ss, s.es, SMBusSym.Response, l)] + Marks(SMBusSym.ResponseAck, ss, es, None, None))
    else Next(next, Marks(SMBusSym.ResponseAck, ss, es, None, None))
  }

  /** `update` in the address and command phase: START through COMMAND. */
  function Opening(c: Context, k: SMBusSym, ss: int, es: int, p: Option<byte>): (r: Outcome)
    requires Inv(c) && c.state.Some? && c.state.value in {SMBusSym.Start, SMBusSym.Address, SMBusSym.Direction, SMBusSym.AddressAck, SMBusSym.Command}
    ensures r.Next? ==> Inv(r.ctx)
  {
    match c.state.value
    case Start =>
      if k == SMBusSym.Address then Accept(c.(address := p), k, ss, es, p, p) else Resync
    case Address =>
      if k == SMBusSym.Direction then TakeDirection(c, k, ss, es, p) else Resync
    case Direction =>
      if k == SMBusSym.AddressAck || k == SMBusSym.AddressNack then Accept(c, k, ss, es, None, None) else Resync
    case AddressAck =>
      if k == SMBusSym.Stop then Accept(c, k, ss, es, None, None)
      else if k == SMBusSym.Command then
        var cmd := if p.Some? then Lookup(p.value) else None;
        if cmd.None? then Failed(UnknownCommand(p))
        else Next(c.(state := Some(k), command := cmd), [Ann(ss, es, k, CommandLabel(cmd.value)), Py(ss, es, k, p)])
      else Resync
    case Command =>
      if k == SMBusSym.CommandAck || k == SMBusSym.CommandNack then Accept(c, k, ss, es, None, None) else Resync
  }

  /** `update` in the write phase: COMMAND_ACK through DATA_NACK. */
  function Writing(c: Context, k: SMBusSym, ss: int, es: int, p: Option<byte>): (r: Outcome)
    requires Inv(c) && c.state.Some? && c.state.value in {SMBusSym.CommandAck, SMBusSym.CommandNack, SMBusSym.Data, SMBusSym.DataAck, SMBusSym.DataNack}
    ensures r.Next? ==> Inv(r.ctx)
  {
    match c.state.value
    case CommandAck =>
      if k == SMBusSym.Stop then
        if c.access == Some(Write) then Accept(c, k, ss, es, None, None) else Resync
      else if k == SMBusSym.Data then
        assert |c.data| == 0;
        Next(c.(data := c.data + [Sample(ss, es, p)], state := Some(k)), [])
      else if k == SMBusSym.StartRepeat then Accept(c, k, ss, es, None, None)
      else Resync
    case CommandNack =>
      if k == SMBusSym.Stop && c.access == Some(Read) then Accept(c, k, ss, es, None, None) else Resync
    case Data =>
      if k == SMBusSym.DataAck then WriteAck(c, ss, es)
      else if k == SMBusSym.DataNack then Accept(c, k, ss, es, None, None)
      else Resync
    case DataAck =>
      if k == SMBusSym.Stop || k == SMBusSym.StartRepeat then Accept(c, k, ss, es, None, None)
      else if k == SMBusSym.Data then Next(c.(data := c.data + [Sample(ss, es, p)], state := Some(k)), [])
      else Resync
    case DataNack =>
      if k == SMBusSym.Stop then Accept(c, k, ss, es, None, None) else Failed(NotStopAfterNack)
  }

  /** `update` in the read phase: START_REPEAT through RESPONSE_NACK. */
  function Reading(c: Context, k: SMBusSym, ss: int, es: int, p: Option<byte>): (r: Outcome)
    requires Inv(c) && c.state.Some? && c.state.value in {SMBusSym.StartRepeat, SMBusSym.AddressRepeat, SMBusSym.DirectionRepeat, SMBusSym.Response, SMBusSym.ResponseAck, SMBusSym.ResponseNack}
    ensures r.Next? ==> Inv(r.ctx)
  {
    match c.state.value
    case StartRepeat =>
      if k == SMBusSym.AddressRepeat && c.address == p then Accept(c, k, ss, es, p, p) else Resync
    case AddressRepeat =>
      if k == SMBusSym.DirectionRepeat then TakeDirection(c, k, ss, es, p) else Resync
    case DirectionRepeat =>
      if k == SMBusSym.ResponseAck then Accept(c, k, ss, es, None, None) else Resync
    case Response =>
      if k == SMBusSym.ResponseNack then ReadNack(c, ss, es)
      else if k == SMBusSym.ResponseAck then ReadAck(c, ss, es)
      else Resync
    case ResponseAck =>
      if k == SMBusSym.Stop then Accept(c, k, ss, es, None, None)
      else if k == SMBusSym.Response then Next(c.(response := c.response + [Sample(ss, es, p)], state := Some(k)), [])
      else Resync
    case ResponseNack =>
      if k == SMBusSym.Stop then Accept(c, k, ss, es, None, None) else Resync
  }

  /** One call of `update(ss, es, k, p)`; it keeps `Inv`. Idle, the context is cleared before START is looked for. */
  function Transition(c: Context, k: SMBusSym, ss: int, es: int, p: Option<byte>): (r: Outcome)
    requires Inv(c)
    ensures r.Next? ==> Inv(r.ctx)
  {
    if c.state.None? || c.state == Some(SMBusSym.Stop) then
      if k == SMBusSym.Start then Accept(Idle, k, ss, es, None, None) else Resync
    else
      var s := c.state.value;
      if s in {SMBusSym.Start, SMBusSym.Address, SMBusSym.Direction, SMBusSym.AddressAck, SMBusSym.Command} then
        Opening(c, k, ss, es, p)
      else if s in {SMBusSym.CommandAck, SMBusSym.CommandNack, SMBusSym.Data, SMBusSym.DataAck, SMBusSym.DataNack} then
        Writing(c, k, ss, es, p)
      else if s in {SMBusSym.StartRepeat, SMBusSym.AddressRepeat, SMBusSym.DirectionRepeat, SMBusSym.Response,
                    SMBusSym.ResponseAck, SMBusSym.ResponseNack} then
        Reading(c, k, ss, es, p)
      else Resync
  }

  /** One call of `decode(ss, es, [id, p])`: the symbol id is looked up first. */
  function Decode(c: Context, id: int, ss: int, es: int, p: Option<byte>): (r: Outcome)
    requires Inv(c)
    ensures SymOf(id).None? <==> r == Failed(BadSymbol(id))
    ensures r.Next? ==> Inv(r.ctx)
  {
    match SymOf(id)
    case None => Failed(BadSymbol(id))
    case Some(k) => Transition(c, k, ss, es, p)
  }

  // ---------------------------------------------------------------------------
  // The decoder object

  class Decoder {
    var state: Option<SMBusSym>
    var address: Option<byte>
    var access: Option<SMBusAccess>
    var command: Option<PMBusCommand>
    var data: seq<Sample>
    var response: seq<Sample>
    /** Everything put so far, both streams, in order. */
    var out: seq<Output>

    function Ctx(): Context
      reads this
    {
      Context(state, address, access, command, data, response)
    }

    predicate Valid()
      reads this
    {
      Inv(Ctx())
    }

    constructor ()
      ensures Ctx() == Idle && out == [] && Valid()
    {
      state, address, access, command := None, None, None, None;
      data, response := [], [];
      out := [];
    }

    method Reset()
      modifies this
      ensures Ctx() == Idle && out == old(out)
    {
      state := None;
      address := None;
      access := None;
      command := None;
      data := [];
      response := [];
    }

    method Put(o: Output)
      modifies this`out
      ensures out == old(out) + [o]
    {
      out := out + [o];
    }

    /** `puta(ss, es, d)` then `putp(ss, es, p)` in the current state. */
    method Mark(ss: int, es: int, d: Option<byte>, p: Option<byte>)
      requires state.Some?
      modifies this`out
      ensures out == old(out) + Marks(state.value, ss, es, d, p)
    {
      out := out + Marks(state.value, ss, es, d, p);
    }

    /** A direction record: `SMBusAccess(data)`, labelled by the access' name. */
    method SetDirection(ss: int, es: int, k: SMBusSym, p: Option<byte>) returns (fault: Option<Fault>)
      modifies this
      ensures match TakeDirection(old(Ctx()), k, ss, es, p)
              case Next(c, o) => fault.None? && Ctx() == c && out == old(out) + o
              case Failed(f) => fault == Some(f) && Ctx() == old(Ctx()) && out == old(out)
    {
      var a := if p.Some? then AccessOf(p.value) else None;
      if a.None? {
        return Some(BadDirection(p));
      }
      state := Some(k);
      access := a;
      Put(Ann(ss, es, k, AccessLabel(a.value)));
      Put(Py(ss, es, k, p));
      fault := None;
    }

    /** DATA_ACK in state DATA. */
    method AckData(ss: int, es: int) returns (fault: Option<Fault>)
      requires command.Some?
      modifies this
      ensures match WriteAck(old(Ctx()), ss, es)
              case Next(c, o) => fault.None? && Ctx() == c && out == old(out) + o
              case Failed(f) => fault == Some(f) && Ctx() == old(Ctx()) && out == old(out)
    {
      fault := None;
      var cmd := command.value;
      if access != Some(Write) {
        Reset();
      } else if Proto(cmd) == Byte {
        if |data| == 1 {
          var v := data[0];
          if v.value.None? {
            return Some(MissingPayload);
          }
          Put(Ann(v.ss, v.es, SMBusSym.Data, ByteValue(cmd, Write, v.value.value)));
          state := Some(SMBusSym.DataAck);
          Mark(ss, es, None, None);
        }
      } else if Proto(cmd) == Word {
        if |data| < 2 {
          state := Some(SMBusSym.DataAck);
          Mark(ss, es, None, None);
        } else if |data| == 2 {
          var lo, hi := data[0], data[1];
          if lo.value.None? || hi.value.None? {
            return Some(MissingPayload);
          }
          Put(Ann(lo.ss, hi.es, SMBusSym.Data, WordValue(cmd, Write, WordOf(lo.value.value, hi.value.value))));
          state := Some(SMBusSym.DataAck);
          Mark(ss, es, None, None);
        }
      } else {
        Reset();
      }
    }

    /** RESPONSE_NACK in state RESPONSE. */
    method NackResponse(ss: int, es: int) returns (fault: Option<Fault>)
      requires command.Some? && response != []
      modifies this
      ensures match ReadNack(old(Ctx()), ss, es)
              case Next(c, o) => fault.None? && Ctx() == c && out == old(out) + o
              case Failed(f) => fault == Some(f) && Ctx() == old(Ctx()) && out == old(out)
    {
      fault := None;
      var cmd := command.value;
      if access != Some(Read) {
        Reset();
      } else if Proto(cmd) == Byte {
        if |response| == 1 {
          var v := response[0];
          if v.value.None? {
            return Some(MissingPayload);
          }
          Put(Ann(v.ss, v.es, SMBusSym.Response, ByteValue(cmd, Read, v.value.value)));
          state := Some(SMBusSym.ResponseNack);
          Mark(ss, es, None, None);
        }
      } else if Proto(cmd) == Word {
        if |response| == 2 {
          var lo, hi := response[0], response[1];
          if lo.value.None? || hi.value.None? {
            return Some(MissingPayload);
          }
          Put(Ann(lo.ss, hi.es, SMBusSym.Response, WordValue(cmd, Read, WordOf(lo.value.value, hi.value.value))));
          state := Some(SMBusSym.ResponseNack);
          Mark(ss, es, None, None);
        }
      } else if Proto(cmd) == Block {
        var v := response[|response| - 1];
        if v.value.None? {
          return Some(MissingPayload);
        }
        Put(Ann(v.ss, v.es, SMBusSym.Response, BlockByte(v.value.value)));
        state := Some(SMBusSym.ResponseNack);
        Mark(ss, es, None, None);
      } else {
        Reset();
      }
    }

    /** RESPONSE_ACK in state RESPONSE. */
    method AckResponse(ss: int, es: int) returns (fault: Option<Fault>)
      requires command.Some? && response != []
      modifies this
      ensures match ReadAck(old(Ctx()), ss, es)
              case Next(c, o) => fault.None? && Ctx() == c && out == old(out) + o
              case Failed(f) => fault == Some(f) && Ctx() == old(Ctx()) && out == old(out)
    {
      fault := None;
      if access == Some(Read) && Proto(command.value) == Block {
        if |response| == 1 {
          var v := response[0];
          if v.value.None? {
            return Some(MissingPayload);
          }
          Put(Ann(v.ss, v.es, SMBusSym.Response, BlockLength(v.value.value)));
        } else {
          var v := response[|response| - 1];
          if v.value.None? {
            return Some(MissingPayload);
          }
          Put(Ann(v.ss, v.es, SMBusSym.Response, BlockByte(v.value.value)));
        }
      }
      state := Some(SMBusSym.ResponseAck);
      Mark(ss, es, None, None);
    }

    /** `update` from START through COMMAND. */
    method UpdateOpening(ss: int, es: int, k: SMBusSym, p: Option<byte>) returns (fault: Option<Fault>)
      requires Valid() && state.Some? && state.value in {SMBusSym.Start, SMBusSym.Address, SMBusSym.Direction, SMBusSym.AddressAck, SMBusSym.Command}
      modifies this
      ensures match Opening(old(Ctx()), k, ss, es, p)
              case Next(c, o) => fault.None? && Ctx() == c && out == old(out) + o
              case Failed(f) => fault == Some(f) && Ctx() == old(Ctx()) && out == old(out)
    {
      fault := None;
      if state == Some(SMBusSym.Start) {
        if k == SMBusSym.Address {
          state := Some(k);
          address := p;
          Mark(ss, es, p, p);
        } else {
          Reset();
        }
      } else if state == Some(SMBusSym.Address) {
        if k == SMBusSym.Direction {
          fault := SetDirection(ss, es, k, p);
        } else {
          Reset();
        }
      } else if state == Some(SMBusSym.Direction) {
        if k == SMBusSym.AddressAck || k == SMBusSym.AddressNack {
          state := Some(k);
          Mark(ss, es, None, None);
        } else {
          Reset();
        }
      } else if state == Some(SMBusSym.AddressAck) {
        if k == SMBusSym.Stop {
          state := Some(k);
          Mark(ss, es, None, None);
        } else if k == SMBusSym.Command {
          var cmd := if p.Some? then Lookup(p.value) else None;
          if cmd.None? {
            return Some(UnknownCommand(p));
          }
          state := Some(k);
          command := cmd;
          Put(Ann(ss, es, k, CommandLabel(cmd.value)));
          Put(Py(ss, es, k, p));
        } else {
          Reset();
        }
      } else {
        if k == SMBusSym.CommandAck || k == SMBusSym.CommandNack {
          state := Some(k);
          Mark(ss, es, None, None);
        } else {
          Reset();
        }
      }
    }

    /** `update` from COMMAND_ACK through DATA_NACK. */
    method UpdateWriting(ss: int, es: int, k: SMBusSym, p: Option<byte>) returns (fault: Option<Fault>)
      requires Valid() && state.Some? && state.value in {SMBusSym.CommandAck, SMBusSym.CommandNack, SMBusSym.Data, SMBusSym.DataAck, SMBusSym.DataNack}
      modifies this
      ensures match Writing(old(Ctx()), k, ss, es, p)
              case Next(c, o) => fault.None? && Ctx() == c && out == old(out) + o
              case Failed(f) => fault == Some(f) && Ctx() == old(Ctx()) && out == old(out)
    {
      fault := None;
      if state == Some(SMBusSym.CommandAck) {
        if k == SMBusSym.Stop {
          if access == Some(Write) {
            state := Some(k);
            Mark(ss, es, None, None);
          } else {
            Reset();
          }
        } else if k == SMBusSym.Data {
          assert |data| == 0;
          data := data + [Sample(ss, es, p)];
          state := Some(k);
        } else if k == SMBusSym.StartRepeat {
          state := Some(k);
          Mark(ss, es, None, None);
        } else {
          Reset();
        }
      } else if state == Some(SMBusSym.CommandNack) {
        if k == SMBusSym.Stop && access == Some(Read) {
          state := Some(k);
          Mark(ss, es, None, None);
        } else {
          Reset();
        }
      } else if state == Some(SMBusSym.Data) {
        if k == SMBusSym.DataAck {
          fault := AckData(ss, es);
        } else if k == SMBusSym.DataNack {
          state := Some(k);
          Mark(ss, es, None, None);
        } else {
          Reset();
        }
      } else if state == Some(SMBusSym.DataAck) {
        if k == SMBusSym.Stop || k == SMBusSym.StartRepeat {
          state := Some(k);
          Mark(ss, es, None, None);
        } else if k == SMBusSym.Data {
          data := data + [Sample(ss, es, p)];
          state := Some(k);
        } else {
          Reset();
        }
      } else {
        if k != SMBusSym.Stop {
          return Some(NotStopAfterNack);
        }
        state := Some(k);
        Mark(ss, es, None, None);
      }
    }

    /** `update` from START_REPEAT through RESPONSE_NACK. */
    method UpdateReading(ss: int, es: int, k: SMBusSym, p: Option<byte>) returns (fault: Option<Fault>)
      requires Valid() && state.Some? && state.value in {SMBusSym.StartRepeat, SMBusSym.AddressRepeat, SMBusSym.DirectionRepeat, SMBusSym.Response, SMBusSym.ResponseAck, SMBusSym.ResponseNack}
      modifies this
      ensures match Reading(old(Ctx()), k, ss, es, p)
              case Next(c, o) => fault.None? && Ctx() == c && out == old(out) + o
              case Failed(f) => fault == Some(f) && Ctx() == old(Ctx()) && out == old(out)
    {
      fault := None;
      if state == Some(SMBusSym.StartRepeat) {
        if k == SMBusSym.AddressRepeat && address == p {
          state := Some(k);
          Mark(ss, es, p, p);
        } else {
          Reset();
        }
      } else if state == Some(SMBusSym.AddressRepeat) {
        if k == SMBusSym.DirectionRepeat {
          fault := SetDirection(ss, es, k, p);
        } else {
          Reset();
        }
      } else if state == Some(SMBusSym.DirectionRepeat) {
        if k == SMBusSym.ResponseAck {
          state := Some(k);
          Mark(ss, es, None, None);
        } else {
          Reset();
        }
      } else if state == Some(SMBusSym.Response) {
        if k == SMBusSym.ResponseNack {
          fault := NackResponse(ss, es);
        } else if k == SMBusSym.ResponseAck {
          fault := AckResponse(ss, es);
        } else {
          Reset();
        }
      } else if state == Some(SMBusSym.ResponseAck) {
        if k == SMBusSym.Stop {
          state := Some(k);
          Mark(ss, es, None, None);
        } else if k == SMBusSym.Response {
          response := response + [Sample(ss, es, p)];
          state := Some(k);
        } else {
          Reset();
        }
      } else {
        if k == SMBusSym.Stop {
          state := Some(k);
          Mark(ss, es, None, None);
        } else {
          Reset();
        }
      }
    }

    /** `update(ss, es, k, p)`; a raised exception is returned as `fault` and leaves the decoder as it was. */
    method Update(ss: int, es: int, k: SMBusSym, p: Option<byte>) returns (fault: Option<Fault>)
      requires Valid()
      modifies this
      ensures Valid()
      ensures match Transition(old(Ctx()), k, ss, es, p)
              case Next(c, o) => fault.None? && Ctx() == c && out == old(out) + o
              case Failed(f) => fault == Some(f) && Ctx() == old(Ctx()) && out == old(out)
    {
      if state.None? || state == Some(SMBusSym.Stop) {
        fault := None;
        Reset();
        if k == SMBusSym.Start {
          state := Some(k);
          Mark(ss, es, None, None);
        } else {
          Reset();
        }
      } else if state.value in {SMBusSym.Start, SMBusSym.Address, SMBusSym.Direction, SMBusSym.AddressAck, SMBusSym.Command} {
        assert Transition(Ctx(), k, ss, es, p) == Opening(Ctx(), k, ss, es, p);
        fault := UpdateOpening(ss, es, k, p);
      } else if state.value in {SMBusSym.CommandAck, SMBusSym.CommandNack, SMBusSym.Data, SMBusSym.DataAck, SMBusSym.DataNack} {
        assert Transition(Ctx(), k, ss, es, p) == Writing(Ctx(), k, ss, es, p);
        fault := UpdateWriting(ss, es, k, p);
      } else if state.value in {SMBusSym.StartRepeat, SMBusSym.AddressRepeat, SMBusSym.DirectionRepeat, SMBusSym.Response,
                                SMBusSym.ResponseAck, SMBusSym.ResponseNack} {
        assert Transition(Ctx(), k, ss, es, p) == Reading(Ctx(), k, ss, es, p);
        fault := UpdateReading(ss, es, k, p);
      } else {
        fault := None;
        Reset();
      }
    }

    /** `decode(ss, es, [id, p])`. */
    method DecodeRecord(ss: int, es: int, id: int, p: Option<byte>) returns (fault: Option<Fault>)
      requires Valid()
      modifies this
      ensures Valid()
      ensures match Decode(old(Ctx()), id, ss, es, p)
              case Next(c, o) => fault.None? && Ctx() == c && out == old(out) + o
              case Failed(f) => fault == Some(f) && Ctx() == old(Ctx()) && out == old(out)
    {
      var k := SymOf(id);
      if k.None? {
        return Some(BadSymbol(id));
      }
      fault := Update(ss, es, k.value, p);
    }
  }
}
