/**
 * The symbol, protocol and access enumerations shared by the SMBus framer and
 * the PMBus command layer, with the label rules of `SMBusSym`
 * (decoders/common/smbus/mod.py).
 */
module SMBusCommon {
  import opened Wrappers

  type byte = b: int | 0 <= b < 0x100
  type Bit = b: byte | b < 2

  /** The 21 kinds of framed SMBus symbol, in ordinal order. */
  datatype SMBusSym =
    | Start | Address | Direction | AddressAck | AddressNack
    | Command | CommandAck | CommandNack
    | Data | DataAck | DataNack
    | StartRepeat | AddressRepeat | DirectionRepeat
    | Response | ResponseAck | ResponseNack
    | Stop | Pec | PecAck | PecNack

  const SymCount := 21

  /** The integer value of each `SMBusSym` member. */
  function Ordinal(s: SMBusSym): (n: nat)
    ensures n < SymCount
  {
    match s
    case Start => 0
    case Address => 1
    case Direction => 2
    case AddressAck => 3
    case AddressNack => 4
    case Command => 5
    case CommandAck => 6
    case CommandNack => 7
    case Data => 8
    case DataAck => 9
    case DataNack => 10
    case StartRepeat => 11
    case AddressRepeat => 12
    case DirectionRepeat => 13
    case Response => 14
    case ResponseAck => 15
    case ResponseNack => 16
    case Stop => 17
    case Pec => 18
    case PecAck => 19
    case PecNack => 20
  }

  /** `SMBusSym(n)`: the member with value `n`, or None where Python raises ValueError. */
  function SymOf(n: int): (r: Option<SMBusSym>)
    ensures r.Some? <==> 0 <= n < SymCount
    ensures r.Some? ==> Ordinal(r.value) == n
  {
    if n == 0 then Some(Start)
    else if n == 1 then Some(Address)
    else if n == 2 then Some(Direction)
    else if n == 3 then Some(AddressAck)
    else if n == 4 then Some(AddressNack)
    else if n == 5 then Some(Command)
    else if n == 6 then Some(CommandAck)
    else if n == 7 then Some(CommandNack)
    else if n == 8 then Some(Data)
    else if n == 9 then Some(DataAck)
    else if n == 10 then Some(DataNack)
    else if n == 11 then Some(StartRepeat)
    else if n == 12 then Some(AddressRepeat)
    else if n == 13 then Some(DirectionRepeat)
    else if n == 14 then Some(Response)
    else if n == 15 then Some(ResponseAck)
    else if n == 16 then Some(ResponseNack)
    else if n == 17 then Some(Stop)
    else if n == 18 then Some(Pec)
    else if n == 19 then Some(PecAck)
    else if n == 20 then Some(PecNack)
    else None
  }

  /** Looking a member up by its own value gives it back. */
  lemma SymOfOrdinal(s: SMBusSym)
    ensures SymOf(Ordinal(s)) == Some(s)
  {
    match s
    case Start =>
    case Address =>
    case Direction =>
    case AddressAck =>
    case AddressNack =>
    case Command =>
    case CommandAck =>
    case CommandNack =>
    case Data =>
    case DataAck =>
    case DataNack =>
    case StartRepeat =>
    case AddressRepeat =>
    case DirectionRepeat =>
    case Response =>
    case ResponseAck =>
    case ResponseNack =>
    case Stop =>
    case Pec =>
    case PecAck =>
    case PecNack =>
  }

  /** The ordinals 0..20 are contiguous and unique: no two kinds share a value. */
  lemma OrdinalInjective(a: SMBusSym, b: SMBusSym)
    ensures Ordinal(a) == Ordinal(b) <==> a == b
  {
    SymOfOrdinal(a);
    SymOfOrdinal(b);
  }

  /** The member's Python name. */
  function Name(s: SMBusSym): string
  {
    match s
    case Start => "START"
    case Address => "ADDRESS"
    case Direction => "DIRECTION"
    case AddressAck => "ADDRESS_ACK"
    case AddressNack => "ADDRESS_NACK"
    case Command => "COMMAND"
    case CommandAck => "COMMAND_ACK"
    case CommandNack => "COMMAND_NACK"
    case Data => "DATA"
    case DataAck => "DATA_ACK"
    case DataNack => "DATA_NACK"
    case StartRepeat => "START_REPEAT"
    case AddressRepeat => "ADDRESS_REPEAT"
    case DirectionRepeat => "DIRECTION_REPEAT"
    case Response => "RESPONSE"
    case ResponseAck => "RESPONSE_ACK"
    case ResponseNack => "RESPONSE_NACK"
    case Stop => "STOP"
    case Pec => "PEC"
    case PecAck => "PEC_ACK"
    case PecNack => "PEC_NACK"
  }

  lemma NameShape(s: SMBusSym)
    ensures |Name(s)| > 0 && 'A' <= Name(s)[0] <= 'Z'
  {
  }

  // ---------------------------------------------------------------------------
  // Text helpers: Python's `in` on strings, `str.capitalize`, `str.replace` and
  // the `02X` format.

  /** `sub in s` for Python strings: `sub` occurs somewhere in `s`. */
  predicate Contains(s: string, sub: string)
    decreases |s|
  {
    |sub| <= |s| && (s[..|sub|] == sub || Contains(s[1..], sub))
  }

  /** `sub` occurs in `s` starting at index `i`. */
  predicate OccursAt(s: string, sub: string, i: int)
  {
    0 <= i && i + |sub| <= |s| && s[i..i + |sub|] == sub
  }

  /** `Contains` agrees with the direct definition: some position of `s` starts a copy of `sub`. */
  lemma {:induction false} ContainsAt(s: string, sub: string)
    ensures Contains(s, sub) <==> exists i :: OccursAt(s, sub, i)
    decreases |s|
  {
    if |sub| <= |s| && s[..|sub|] == sub {
      assert OccursAt(s, sub, 0);
    }
    if |s| > 0 {
      ContainsAt(s[1..], sub);
      if Contains(s[1..], sub) {
        var i :| OccursAt(s[1..], sub, i);
        assert s[i + 1..i + 1 + |sub|] == s[1..][i..i + |sub|];
        assert OccursAt(s, sub, i + 1);
      }
      if exists i :: OccursAt(s, sub, i) {
        var i :| OccursAt(s, sub, i);
        if i > 0 {
          assert s[1..][i - 1..i - 1 + |sub|] == s[i..i + |sub|];
          assert OccursAt(s[1..], sub, i - 1);
        }
      }
    } else {
      if exists i :: OccursAt(s, sub, i) {
        var i :| OccursAt(s, sub, i);
        assert |sub| == 0 && s[..|sub|] == sub;
      }
    }
  }

  function UpperChar(c: char): char
  {
    if 'a' <= c <= 'z' then (c as int - 'a' as int + 'A' as int) as char else c
  }

  function LowerChar(c: char): char
  {
    if 'A' <= c <= 'Z' then (c as int - 'A' as int + 'a' as int) as char else c
  }

  function LowerAll(s: string): (r: string)
    ensures |r| == |s|
    ensures forall i :: 0 <= i < |s| ==> r[i] == LowerChar(s[i])
  {
    seq(|s|, i requires 0 <= i < |s| => LowerChar(s[i]))
  }

  /** Python's `str.capitalize`: the first character upper case, the rest lower case. */
  function Capitalize(s: string): (r: string)
    ensures |r| == |s|
    ensures |s| > 0 ==> r[0] == UpperChar(s[0])
    ensures forall i :: 0 < i < |s| ==> r[i] == LowerChar(s[i])
  {
    if s == [] then [] else [UpperChar(s[0])] + LowerAll(s[1..])
  }

  /** `s.replace("_", " ")`. */
  function SpaceUnderscores(s: string): (r: string)
    ensures |r| == |s|
    ensures forall i :: 0 <= i < |s| ==> r[i] == (if s[i] == '_' then ' ' else s[i])
  {
    seq(|s|, i requires 0 <= i < |s| => if s[i] == '_' then ' ' else s[i])
  }

  const HexDigits := "0123456789ABCDEF"

  function HexDigit(n: nat): (c: char)
    requires n < 16
    ensures c in HexDigits
  {
    HexDigits[n]
  }

  /** The value of an upper-case hexadecimal digit. */
  function DigitValue(c: char): (n: nat)
    ensures n < 16
  {
    if '0' <= c <= '9' then c as int - '0' as int
    else if 'A' <= c <= 'F' then c as int - 'A' as int + 10
    else 0
  }

  /** The value of a string of upper-case hexadecimal digits, most significant first. */
  function HexValue(s: string): nat
  {
    if s == [] then 0 else HexValue(s[..|s| - 1]) * 16 + DigitValue(s[|s| - 1])
  }

  /** `f"{b:02X}"`: two upper-case hexadecimal digits. */
  function Hex2(b: byte): (r: string)
    ensures |r| == 2 && r[0] in HexDigits && r[1] in HexDigits
  {
    [HexDigit(b / 16), HexDigit(b % 16)]
  }

  /** `f"{w:04X}"` for a 16-bit value: four upper-case hexadecimal digits. */
  function Hex4(w: nat): (r: string)
    requires w < 0x1_0000
    ensures |r| == 4 && forall i :: 0 <= i < 4 ==> r[i] in HexDigits
  {
    Hex2(w / 0x100) + Hex2(w % 0x100)
  }

  lemma DigitValueOfHexDigit(n: nat)
    requires n < 16
    ensures DigitValue(HexDigit(n)) == n
  {
  }

  /** Reading back the two digits gives the byte: the rendering loses nothing. */
  lemma Hex2RoundTrip(b: byte)
    ensures HexValue(Hex2(b)) == b
  {
    var r := Hex2(b);
    DigitValueOfHexDigit(b / 16);
    DigitValueOfHexDigit(b % 16);
    assert r[..1][..0] == [];
    assert HexValue(r[..1]) == DigitValue(r[0]);
  }

  lemma {:induction false} HexValueAppend(s: string, t: string)
    ensures HexValue(s + t) == HexValue(s) * Pow16(|t|) + HexValue(t)
    decreases |t|
  {
    if t == [] {
      assert s + t == s;
    } else {
      var t' := t[..|t| - 1];
      assert (s + t)[..|s + t| - 1] == s + t';
      HexValueAppend(s, t');
    }
  }

  function Pow16(n: nat): (p: nat)
    ensures p > 0
  {
    if n == 0 then 1 else 16 * Pow16(n - 1)
  }

  /** Reading back the four digits gives the word. */
  lemma Hex4RoundTrip(w: nat)
    requires w < 0x1_0000
    ensures HexValue(Hex4(w)) == w
  {
    var hi, lo := w / 0x100, w % 0x100;
    assert Pow16(2) == 0x100;
    HexValueAppend(Hex2(hi), Hex2(lo));
    assert HexValue(Hex4(w)) == HexValue(Hex2(hi)) * 0x100 + HexValue(Hex2(lo));
    Hex2RoundTrip(hi);
    Hex2RoundTrip(lo);
  }

  // ---------------------------------------------------------------------------
  // SMBusSym.pretty and SMBusSym.short

  lemma Hex2NoUnderscore(data: Option<byte>)
    ensures data.Some? ==> forall i :: 0 <= i < |": " + Hex2(data.value)| ==> (": " + Hex2(data.value))[i] != '_'
  {
  }

  /** `self.name.capitalize().replace("_", " ")`. */
  function PrettyName(s: SMBusSym): string
  {
    SpaceUnderscores(Capitalize(Name(s)))
  }

  lemma ReadableShape(n: string)
    requires |n| > 0 && 'A' <= n[0] <= 'Z'
    ensures |SpaceUnderscores(Capitalize(n))| == |n|
    ensures SpaceUnderscores(Capitalize(n))[0] == n[0]
    ensures forall i :: 0 <= i < |n| ==> SpaceUnderscores(Capitalize(n))[i] != '_'
  {
    var c := Capitalize(n);
    forall i | 0 <= i < |n| ensures SpaceUnderscores(c)[i] != '_' {
      if i > 0 { assert c[i] == LowerChar(n[i]); }
    }
  }

  /** `SMBusSym.pretty(data)`: the readable name, followed by ": " and the byte in hex when there is one. */
  function Pretty(s: SMBusSym, data: Option<byte>): (r: string)
    ensures data.None? ==> |r| == |Name(s)|
    ensures data.Some? ==> |r| == |Name(s)| + 4 && r[|Name(s)|..] == ": " + Hex2(data.value)
    ensures r[..|Name(s)|] == PrettyName(s)
    ensures r[0] == Name(s)[0]
    ensures forall i :: 0 <= i < |r| ==> r[i] != '_'
  {
    NameShape(s);
    ReadableShape(Name(s));
    Hex2NoUnderscore(data);
    if data.None? then PrettyName(s) else PrettyName(s) + ": " + Hex2(data.value)
  }

  /** `SMBusSym.short()`: the one- or two-letter abbreviation. */
  function Short(s: SMBusSym): (r: string)
    ensures 1 <= |r| <= 2
  {
    if s == Stop then "P"
    else if s == Start then "S"
    else if Contains(Name(s), "_ACK") then "A"
    else if Contains(Name(s), "_NACK") then "N"
    else if Contains(Name(s), "_REPEAT") then [Name(s)[0]] + "r"
    else [Name(s)[0]]
  }

  /** An underscore-free prefix cannot hold an occurrence of a name part that begins with '_'. */
  lemma {:induction false} ContainsInSuffix(b: string, t: string, sub: string)
    requires '_' !in b && |sub| > 0 && sub[0] == '_'
    ensures Contains(b + t, sub) <==> Contains(t, sub)
    decreases |b|
  {
    if b != [] {
      assert (b + t)[1..] == b[1..] + t;
      assert (b + t)[0] == b[0] != '_';
      ContainsInSuffix(b[1..], t, sub);
    } else {
      assert b + t == t;
    }
  }

  /** Which of the three name parts that `short()` looks for occur in each possible name ending. */
  lemma SuffixParts()
    ensures !Contains("", "_ACK") && !Contains("", "_NACK") && !Contains("", "_REPEAT")
    ensures Contains("_ACK", "_ACK") && !Contains("_ACK", "_NACK") && !Contains("_ACK", "_REPEAT")
    ensures !Contains("_NACK", "_ACK") && Contains("_NACK", "_NACK") && !Contains("_NACK", "_REPEAT")
    ensures !Contains("_REPEAT", "_ACK") && !Contains("_REPEAT", "_NACK") && Contains("_REPEAT", "_REPEAT")
  {
    assert "_NACK"[..4][1] != "_ACK"[1];
    assert "_NACK"[1..] == "NACK" && "NACK"[..4][0] != "_ACK"[0];
    assert "_REPEAT"[..4][1] != "_ACK"[1];
    assert "_REPEAT"[1..] == "REPEAT" && "REPEAT"[..4][0] != "_ACK"[0];
    assert "REPEAT"[1..] == "EPEAT" && "EPEAT"[..4][0] != "_ACK"[0];
    assert "EPEAT"[1..] == "PEAT" && "PEAT"[..4][0] != "_ACK"[0];
    assert "_REPEAT"[..5][1] != "_NACK"[1];
    assert "REPEAT"[..5][0] != "_NACK"[0];
    assert "EPEAT"[..5][0] != "_NACK"[0];
  }

  /** `short()` of a kind whose name is an underscore-free part followed by one of the endings. */
  lemma ShortOfParts(s: SMBusSym, b: string, t: string)
    requires s != Start && s != Stop
    requires Name(s) == b + t && '_' !in b && |b| > 0
    requires t == "" || t == "_ACK" || t == "_NACK" || t == "_REPEAT"
    ensures Short(s) == if t == "_ACK" then "A" else if t == "_NACK" then "N"
                        else if t == "_REPEAT" then [b[0]] + "r" else [b[0]]
  {
    SuffixParts();
    ContainsInSuffix(b, t, "_ACK");
    ContainsInSuffix(b, t, "_NACK");
    ContainsInSuffix(b, t, "_REPEAT");
    assert Name(s)[0] == b[0];
  }

  /**
   * The abbreviation of every kind, written out as a table. STOP and START
   * are special-cased; an `_ACK` name gives 'A' and an `_NACK` name 'N' (so
   * ADDRESS_NACK is 'N': it holds no "_ACK"); a `_REPEAT` name gives its
   * initial and 'r'; every other name gives its initial, so PEC shares 'P'
   * with STOP.
   */
  function ShortTable(s: SMBusSym): string
  {
    match s
    case Start => "S"
    case Stop => "P"
    case AddressAck => "A"
    case CommandAck => "A"
    case DataAck => "A"
    case ResponseAck => "A"
    case PecAck => "A"
    case AddressNack => "N"
    case CommandNack => "N"
    case DataNack => "N"
    case ResponseNack => "N"
    case PecNack => "N"
    case StartRepeat => "Sr"
    case AddressRepeat => "Ar"
    case DirectionRepeat => "Dr"
    case Address => "A"
    case Direction => "D"
    case Command => "C"
    case Data => "D"
    case Response => "R"
    case Pec => "P"
  }

  /** `short()` on the `_ACK` kinds. */
  lemma ShortAcks(s: SMBusSym)
    requires s in {AddressAck, CommandAck, DataAck, ResponseAck, PecAck}
    ensures Short(s) == ShortTable(s)
  {
    match s
    case AddressAck => ShortOfParts(s, "ADDRESS", "_ACK");
    case CommandAck => ShortOfParts(s, "COMMAND", "_ACK");
    case DataAck => ShortOfParts(s, "DATA", "_ACK");
    case ResponseAck => ShortOfParts(s, "RESPONSE", "_ACK");
    case PecAck => ShortOfParts(s, "PEC", "_ACK");
  }

  /** `short()` on the `_NACK` kinds. */
  lemma ShortNacks(s: SMBusSym)
    requires s in {AddressNack, CommandNack, DataNack, ResponseNack, PecNack}
    ensures Short(s) == ShortTable(s)
  {
    match s
    case AddressNack => ShortOfParts(s, "ADDRESS", "_NACK");
    case CommandNack => ShortOfParts(s, "COMMAND", "_NACK");
    case DataNack => ShortOfParts(s, "DATA", "_NACK");
    case ResponseNack => ShortOfParts(s, "RESPONSE", "_NACK");
    case PecNack => ShortOfParts(s, "PEC", "_NACK");
  }

  /** `short()` on the `_REPEAT` kinds. */
  lemma ShortRepeats(s: SMBusSym)
    requires s in {StartRepeat, AddressRepeat, DirectionRepeat}
    ensures Short(s) == ShortTable(s)
  {
    match s
    case StartRepeat => ShortOfParts(s, "START", "_REPEAT");
    case AddressRepeat => ShortOfParts(s, "ADDRESS", "_REPEAT");
    case DirectionRepeat => ShortOfParts(s, "DIRECTION", "_REPEAT");
  }

  /** `short()` on the kinds whose name has no suffix. */
  lemma ShortPlain(s: SMBusSym)
    requires s in {Address, Direction, Command, Data, Response, Pec}
    ensures Short(s) == ShortTable(s)
  {
    match s
    case Address => ShortOfParts(s, "ADDRESS", "");
    case Direction => ShortOfParts(s, "DIRECTION", "");
    case Command => ShortOfParts(s, "COMMAND", "");
    case Data => ShortOfParts(s, "DATA", "");
    case Response => ShortOfParts(s, "RESPONSE", "");
    case Pec => ShortOfParts(s, "PEC", "");
  }

  /** `short()`'s rules give exactly the table. */
  lemma ShortMatchesTable(s: SMBusSym)
    ensures Short(s) == ShortTable(s)
  {
    if s in {AddressAck, CommandAck, DataAck, ResponseAck, PecAck} {
      ShortAcks(s);
    } else if s in {AddressNack, CommandNack, DataNack, ResponseNack, PecNack} {
      ShortNacks(s);
    } else if s in {StartRepeat, AddressRepeat, DirectionRepeat} {
      ShortRepeats(s);
    } else if s in {Address, Direction, Command, Data, Response, Pec} {
      ShortPlain(s);
    }
  }

  lemma CapitalizeStartRepeat(n: string)
    requires n == "START_REPEAT"
    ensures Capitalize(n) == "Start_repeat"
  {
    var c := Capitalize(n);
    assert c[0] == UpperChar(n[0]) == 'S';
    assert c[1] == LowerChar(n[1]) == 't';
    assert c[2] == LowerChar(n[2]) == 'a';
    assert c[3] == LowerChar(n[3]) == 'r';
    assert c[4] == LowerChar(n[4]) == 't';
    assert c[5] == LowerChar(n[5]) == '_';
    assert c[6] == LowerChar(n[6]) == 'r';
    assert c[7] == LowerChar(n[7]) == 'e';
    assert c[8] == LowerChar(n[8]) == 'p';
    assert c[9] == LowerChar(n[9]) == 'e';
    assert c[10] == LowerChar(n[10]) == 'a';
    assert c[11] == LowerChar(n[11]) == 't';
  }

  lemma SpaceStartRepeat(c: string)
    requires c == "Start_repeat"
    ensures SpaceUnderscores(c) == "Start repeat"
  {
    var r := SpaceUnderscores(c);
    assert r[5] == ' ';
    assert forall i | 0 <= i < 12 && i != 5 :: r[i] == c[i];
  }

  /** The readable name is capitalised, lower case after the first letter, with underscores as spaces. */
  lemma PrettyNameExample(s: SMBusSym)
    ensures s == StartRepeat ==> PrettyName(s) == "Start repeat"
  {
    if s == StartRepeat {
      CapitalizeStartRepeat(Name(s));
      SpaceStartRepeat(Capitalize(Name(s)));
    }
  }

  /** With a byte, the readable name is followed by ": " and two upper-case hex digits. */
  lemma PrettyExample(s: SMBusSym, data: Option<byte>)
    ensures s == StartRepeat && data == Some(0xAB) ==> Pretty(s, data) == "Start repeat: AB"
  {
    if s == StartRepeat && data == Some(0xAB) {
      PrettyNameExample(s);
      assert Hex2(0xAB) == "AB";
      assert Pretty(s, data) == "Start repeat" + ": " + "AB";
    }
  }

  // ---------------------------------------------------------------------------
  // SMBusProto and SMBusAccess

  /** The shape of a command's data phase. */
  datatype SMBusProto =
    | Quick | CommandOnly | Byte | Word | ProcessCall | Block
    | BlockProcessCall | HostNotify | Bits32 | Bits64 | MfrDefined

  const ProtoCount := 11

  function ProtoOrdinal(p: SMBusProto): (n: nat)
    ensures n < ProtoCount
  {
    match p
    case Quick => 0
    case CommandOnly => 1
    case Byte => 2
    case Word => 3
    case ProcessCall => 4
    case Block => 5
    case BlockProcessCall => 6
    case HostNotify => 7
    case Bits32 => 8
    case Bits64 => 9
    case MfrDefined => 10
  }

  function ProtoOf(n: int): (r: Option<SMBusProto>)
    ensures r.Some? <==> 0 <= n < ProtoCount
    ensures r.Some? ==> ProtoOrdinal(r.value) == n
  {
    if n == 0 then Some(Quick)
    else if n == 1 then Some(CommandOnly)
    else if n == 2 then Some(Byte)
    else if n == 3 then Some(Word)
    else if n == 4 then Some(ProcessCall)
    else if n == 5 then Some(Block)
    else if n == 6 then Some(BlockProcessCall)
    else if n == 7 then Some(HostNotify)
    else if n == 8 then Some(Bits32)
    else if n == 9 then Some(Bits64)
    else if n == 10 then Some(MfrDefined)
    else None
  }

  lemma ProtoOfOrdinal(p: SMBusProto)
    ensures ProtoOf(ProtoOrdinal(p)) == Some(p)
  {
    match p
    case Quick =>
    case CommandOnly =>
    case Byte =>
    case Word =>
    case ProcessCall =>
    case Block =>
    case BlockProcessCall =>
    case HostNotify =>
    case Bits32 =>
    case Bits64 =>
    case MfrDefined =>
  }

  /** The 11 protocol values are distinct. */
  lemma ProtoOrdinalInjective(a: SMBusProto, b: SMBusProto)
    ensures ProtoOrdinal(a) == ProtoOrdinal(b) <==> a == b
  {
    ProtoOfOrdinal(a);
    ProtoOfOrdinal(b);
  }

  /** Transfer direction: WRITE = 0, READ = 1. */
  datatype SMBusAccess = Write | Read

  function AccessValue(a: SMBusAccess): (v: Bit)
    ensures v == 1 <==> a == Read
  {
    match a
    case Write => 0
    case Read => 1
  }

  /** `SMBusAccess(v)`: None where Python raises ValueError. */
  function AccessOf(v: int): (r: Option<SMBusAccess>)
    ensures r.Some? <==> v == 0 || v == 1
    ensures r.Some? ==> AccessValue(r.value) == v
  {
    if v == 0 then Some(Write) else if v == 1 then Some(Read) else None
  }

  function AccessName(a: SMBusAccess): string
  {
    if a == Write then "WRITE" else "READ"
  }
}
