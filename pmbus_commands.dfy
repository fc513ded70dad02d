/**
 * The PMBus command table (decoders/pmbus/pd.py, class PMBusCommand): each
 * supported PMBus Part II command code with its name and the SMBus protocol
 * of its data phase.
 */
module PMBusCommands {
  import opened Wrappers
  import opened SMBusCommon

  datatype PMBusCommand =
    | Page | WriteProtect | Capability | ClearFaults | VoutMode
    | FanConfig12 | FanCommand1
    | VoutOvFaultLimit | VoutOvWarnLimit | VoutUvWarnLimit | VoutUvFaultLimit
    | OtFaultLimit | OtWarnLimit | UtWarnLimit | UtFaultLimit
    | StatusWord | StatusVout | StatusIout | StatusTemperature | StatusCml
    | StatusOther | StatusMfrSpecific | StatusFans12
    | ReadVout | ReadTemperature1 | ReadFanSpeed1 | ReadFanSpeed2
    | MfrRevision | MfrSpecific09 | MfrSpecific33 | PmbusCommandExt

  /** The command code. */
  function Code(c: PMBusCommand): byte
  {
    match c
    case Page => 0x00
    case WriteProtect => 0x10
    case Capability => 0x19
    case ClearFaults => 0x03
    case VoutMode => 0x20
    case FanConfig12 => 0x3a
    case FanCommand1 => 0x3b
    case VoutOvFaultLimit => 0x40
    case VoutOvWarnLimit => 0x42
    case VoutUvWarnLimit => 0x43
    case VoutUvFaultLimit => 0x44
    case OtFaultLimit => 0x4f
    case OtWarnLimit => 0x51
    case UtWarnLimit => 0x52
    case UtFaultLimit => 0x53
    case StatusWord => 0x79
    case StatusVout => 0x7a
    case StatusIout => 0x7b
    case StatusTemperature => 0x7d
    case StatusCml => 0x7e
    case StatusOther => 0x7f
    case StatusMfrSpecific => 0x80
    case StatusFans12 => 0x81
    case ReadVout => 0x8b
    case ReadTemperature1 => 0x8d
    case ReadFanSpeed1 => 0x90
    case ReadFanSpeed2 => 0x91
    case MfrRevision => 0x9b
    case MfrSpecific09 => 0xd9
    case MfrSpecific33 => 0xf1
    case PmbusCommandExt => 0xff
  }

  /** The SMBus protocol of the command's data phase. */
  function Proto(c: PMBusCommand): SMBusProto
  {
    match c
    case Page => Byte
    case WriteProtect => Byte
    case Capability => Byte
    case ClearFaults => CommandOnly
    case VoutMode => Byte
    case FanConfig12 => Byte
    case FanCommand1 => Word
    case VoutOvFaultLimit => Word
    case VoutOvWarnLimit => Word
    case VoutUvWarnLimit => Word
    case VoutUvFaultLimit => Word
    case OtFaultLimit => Word
    case OtWarnLimit => Word
    case UtWarnLimit => Word
    case UtFaultLimit => Word
    case StatusWord => Word
    case StatusVout => Byte
    case StatusIout => Byte
    case StatusTemperature => Byte
    case StatusCml => Byte
    case StatusOther => Byte
    case StatusMfrSpecific => Byte
    case StatusFans12 => Byte
    case ReadVout => Word
    case ReadTemperature1 => Word
    case ReadFanSpeed1 => Word
    case ReadFanSpeed2 => Word
    case MfrRevision => Block
    case MfrSpecific09 => MfrDefined
    case MfrSpecific33 => MfrDefined
    case PmbusCommandExt => MfrDefined
  }

  /** The enum member's name, as the annotations show it. */
  function CommandName(c: PMBusCommand): string
  {
    match c
    case Page => "PAGE"
    case WriteProtect => "WRITE_PROTECT"
    case Capability => "CAPABILITY"
    case ClearFaults => "CLEAR_FAULTS"
    case VoutMode => "VOUT_MODE"
    case FanConfig12 => "FAN_CONFIG_1_2"
    case FanCommand1 => "FAN_COMMAND_1"
    case VoutOvFaultLimit => "VOUT_OV_FAULT_LIMIT"
    case VoutOvWarnLimit => "VOUT_OV_WARN_LIMIT"
    case VoutUvWarnLimit => "VOUT_UV_WARN_LIMIT"
    case VoutUvFaultLimit => "VOUT_UV_FAULT_LIMIT"
    case OtFaultLimit => "OT_FAULT_LIMIT"
    case OtWarnLimit => "OT_WARN_LIMIT"
    case UtWarnLimit => "UT_WARN_LIMIT"
    case UtFaultLimit => "UT_FAULT_LIMIT"
    case StatusWord => "STATUS_WORD"
    case StatusVout => "STATUS_VOUT"
    case StatusIout => "STATUS_IOUT"
    case StatusTemperature => "STATUS_TEMPERATURE"
    case StatusCml => "STATUS_CML"
    case StatusOther => "STATUS_OTHER"
    case StatusMfrSpecific => "STATUS_MFR_SPECIFIC"
    case StatusFans12 => "STATUS_FANS_1_2"
    case ReadVout => "READ_VOUT"
    case ReadTemperature1 => "READ_TEMPERATURE_1"
    case ReadFanSpeed1 => "READ_FAN_SPEED_1"
    case ReadFanSpeed2 => "READ_FAN_SPEED_2"
    case MfrRevision => "MFR_REVISION"
    case MfrSpecific09 => "MFR_SPECIFIC_09"
    case MfrSpecific33 => "MFR_SPECIFIC_33"
    case PmbusCommandExt => "PMBUS_COMMAND_EXT"
  }

  /** `PMBusCommand(op)`: the command with code `op`, or None where Python raises ValueError. */
  function Lookup(op: int): (r: Option<PMBusCommand>)
    ensures r.Some? ==> Code(r.value) == op
  {
    if op < 0x7a then LookupBelow(op) else LookupFrom(op)
  }

  /** The lookup among the codes below 0x7a. */
  function LookupBelow(op: int): (r: Option<PMBusCommand>)
    ensures r.Some? ==> Code(r.value) == op
  {
    if op == 0x00 then Some(Page)
    else if op == 0x10 then Some(WriteProtect)
    else if op == 0x19 then Some(Capability)
    else if op == 0x03 then Some(ClearFaults)
    else if op == 0x20 then Some(VoutMode)
    else if op == 0x3a then Some(FanConfig12)
    else if op == 0x3b then Some(FanCommand1)
    else if op == 0x40 then Some(VoutOvFaultLimit)
    else if op == 0x42 then Some(VoutOvWarnLimit)
    else if op == 0x43 then Some(VoutUvWarnLimit)
    else if op == 0x44 then Some(VoutUvFaultLimit)
    else if op == 0x4f then Some(OtFaultLimit)
    else if op == 0x51 then Some(OtWarnLimit)
    else if op == 0x52 then Some(UtWarnLimit)
    else if op == 0x53 then Some(UtFaultLimit)
    else if op == 0x79 then Some(StatusWord)
    else None
  }

  /** The lookup among the codes from 0x7a on. */
  function LookupFrom(op: int): (r: Option<PMBusCommand>)
    ensures r.Some? ==> Code(r.value) == op
  {
    if op == 0x7a then Some(StatusVout)
    else if op == 0x7b then Some(StatusIout)
    else if op == 0x7d then Some(StatusTemperature)
    else if op == 0x7e then Some(StatusCml)
    else if op == 0x7f then Some(StatusOther)
    else if op == 0x80 then Some(StatusMfrSpecific)
    else if op == 0x81 then Some(StatusFans12)
    else if op == 0x8b then Some(ReadVout)
    else if op == 0x8d then Some(ReadTemperature1)
    else if op == 0x90 then Some(ReadFanSpeed1)
    else if op == 0x91 then Some(ReadFanSpeed2)
    else if op == 0x9b then Some(MfrRevision)
    else if op == 0xd9 then Some(MfrSpecific09)
    else if op == 0xf1 then Some(MfrSpecific33)
    else if op == 0xff then Some(PmbusCommandExt)
    else None
  }

  /** Looking up a command's own code finds that command. */
  lemma LookupCode(c: PMBusCommand)
    ensures Lookup(Code(c)) == Some(c)
  {
    match c
    case Page =>
    case WriteProtect =>
    case Capability =>
    case ClearFaults =>
    case VoutMode =>
    case FanConfig12 =>
    case FanCommand1 =>
    case VoutOvFaultLimit =>
    case VoutOvWarnLimit =>
    case VoutUvWarnLimit =>
    case VoutUvFaultLimit =>
    case OtFaultLimit =>
    case OtWarnLimit =>
    case UtWarnLimit =>
    case UtFaultLimit =>
    case StatusWord =>
    case StatusVout =>
    case StatusIout =>
    case StatusTemperature =>
    case StatusCml =>
    case StatusOther =>
    case StatusMfrSpecific =>
    case StatusFans12 =>
    case ReadVout =>
    case ReadTemperature1 =>
    case ReadFanSpeed1 =>
    case ReadFanSpeed2 =>
    case MfrRevision =>
    case MfrSpecific09 =>
    case MfrSpecific33 =>
    case PmbusCommandExt =>
  }

  /** The codes are distinct, so the table is a function from code to command. */
  lemma CodeInjective(a: PMBusCommand, b: PMBusCommand)
    ensures Code(a) == Code(b) <==> a == b
  {
    LookupCode(a);
    LookupCode(b);
  }

  /** `Lookup` fails exactly on codes no command has. */
  lemma LookupComplete(op: int)
    ensures Lookup(op).None? <==> forall c: PMBusCommand :: Code(c) != op
  {
    if Lookup(op).None? {
      forall c: PMBusCommand
        ensures Code(c) != op
      {
        LookupCode(c);
      }
    }
  }

  /** Four rows of the table, read back through `Lookup`. */
  lemma TableExamples()
    ensures Lookup(0x20) == Some(VoutMode) && Proto(VoutMode) == Byte && CommandName(VoutMode) == "VOUT_MODE"
    ensures Lookup(0x79) == Some(StatusWord) && Proto(StatusWord) == Word
    ensures Lookup(0x9b) == Some(MfrRevision) && Proto(MfrRevision) == Block
    ensures Lookup(0x03) == Some(ClearFaults) && Proto(ClearFaults) == CommandOnly
    ensures Lookup(0x01).None?
  {
  }
}
