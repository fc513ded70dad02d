# SMBus and PMBus protocol decoders

A model of two stacked sigrok protocol decoders and the enumerations they share.

- **The SMBus framer** (`decoders/smbus/pd.py`) sits on top of the I2C decoder. It reads I2C symbols (START, the address byte, data bytes, ACK/NACK, STOP and the per-bit sample list). It follows the SMBus transaction grammar and emits one `[kind, payload]` record per SMBus symbol (START, ADDRESS, DIRECTION, COMMAND, DATA, START_REPEAT, RESPONSE, their ACK/NACK, STOP). Each record has an annotation beside it.
- **The PMBus decoder** (`decoders/pmbus/pd.py`) works on those records. It latches the address, the direction and the command, resolves the command code through the PMBus command table, and buffers data and response bytes. It annotates the BYTE, WORD and BLOCK values it assembles.
- **The shared enumerations** (`decoders/common/smbus/mod.py`):
  - `SMBusSym`, with its `pretty` and `short` renderings;
  - `SMBusProto`;
  - `SMBusAccess`.

Both decoders are modelled twice:

- once as a pure transition function on a context datatype (`SMBus.Transition`, `PMBus.Transition`);
- once as a `Decoder` class whose fields are the Python object's fields, and whose `Update` method is proved to change those fields and the output stream exactly as the transition function says.

The pure functions map onto the Python methods as follows. For the framer:
- `SMBus.Transition` models `update` (`decoders/smbus/pd.py:81-305`). It dispatches on the state to `SMBus.Opening` (START to COMMAND), `SMBus.Writing` (COMMAND_ACK to DATA_NACK) and `SMBus.Reading` (START_REPEAT to RESPONSE_NACK).
- `SMBus.Captured` models `record`.
- `SMBus.Consume` models `decode`.

For the PMBus decoder:
- `PMBus.Transition` models `update` (`decoders/pmbus/pd.py:112-413`). It dispatches to the same three phases, `PMBus.Opening`, `PMBus.Writing` and `PMBus.Reading`.
- Those phases use `PMBus.TakeDirection` for the DIRECTION and DIRECTION_REPEAT arms, `PMBus.WriteAck` for DATA_ACK, `PMBus.ReadNack` for RESPONSE_NACK and `PMBus.ReadAck` for RESPONSE_ACK.
- `PMBus.Decode` models `decode`.

The table below lists these functions through the `Decoder` methods and the lemmas that state their properties.

Two arms of these transition functions are the corrected forms of the two defects under "## Findings": DATA_NACK in the framer, and the DATA_ACK of a WORD write in the PMBus decoder. The arms as written are modelled beside them, as `SMBus.DataNackAsWritten` and `PMBus.WriteAckAsWritten`.

A Python exception (an assertion, a `ValueError` from an enum lookup, an `IndexError` on the bit list) becomes a `Failed(fault)` outcome. The class returns the fault and leaves its fields untouched.

Files:

| file | module | models |
|---|---|---|
| `wrappers.dfy` | `Wrappers` | `Option` |
| `common.dfy` | `SMBusCommon` | `decoders/common/smbus/mod.py` |
| `smbus.dfy`, `smbus_lemmas.dfy` | `SMBus`, `SMBusLemmas` | `decoders/smbus/pd.py` |
| `pmbus_commands.dfy` | `PMBusCommands` | class `PMBusCommand` in `decoders/pmbus/pd.py` |
| `pmbus.dfy`, `pmbus_lemmas.dfy` | `PMBus`, `PMBusLemmas` | class `Decoder` in `decoders/pmbus/pd.py` |
| `cascade.dfy` | `Cascade` | the framer's records fed into the PMBus decoder, and one Write Byte followed end to end |

## Model

| member | source | states |
|---|---|---|
| SMBusCommon.Ordinal | decoders/common/smbus/mod.py:3-24 | every symbol kind has a value below 21 |
| SMBusCommon.SymOf | decoders/common/smbus/mod.py:3-24 | `SMBusSym(n)` succeeds exactly for 0 <= n < 21, and the member found has value n |
| SMBusCommon.SymOfOrdinal | decoders/common/smbus/mod.py:3-24 | looking a member up by its own value gives it back |
| SMBusCommon.OrdinalInjective | decoders/common/smbus/mod.py:3-24 | two kinds have the same value if and only if they are the same kind |
| SMBusCommon.NameShape | decoders/common/smbus/mod.py:3-24 | every member name is non-empty and starts with an upper-case letter |
| SMBusCommon.Hex2RoundTrip | decoders/common/smbus/mod.py:26-28 | the two `02X` hex digits of a byte read back as that byte |
| SMBusCommon.Hex4RoundTrip | decoders/pmbus/pd.py:238 | the four `04X` hex digits of a 16-bit word read back as that word |
| SMBusCommon.Pretty | decoders/common/smbus/mod.py:26-28 | `pretty(data)` is the capitalised name with underscores as spaces; with a byte it is followed by exactly ": " and its two hex digits; no underscore remains |
| SMBusCommon.PrettyNameExample | decoders/common/smbus/mod.py:26-28 | START_REPEAT reads "Start repeat" |
| SMBusCommon.PrettyExample | decoders/common/smbus/mod.py:26-28 | START_REPEAT with 0xAB reads "Start repeat: AB" |
| SMBusCommon.Short | decoders/common/smbus/mod.py:30-36 | `short()` is one or two characters |
| SMBusCommon.ShortAcks | decoders/common/smbus/mod.py:30-36 | every `_ACK` kind abbreviates to "A" |
| SMBusCommon.ShortNacks | decoders/common/smbus/mod.py:30-36 | every `_NACK` kind abbreviates to "N", because "_NACK" does not contain "_ACK" |
| SMBusCommon.ShortRepeats | decoders/common/smbus/mod.py:30-36 | every `_REPEAT` kind abbreviates to its initial followed by "r" |
| SMBusCommon.ShortPlain | decoders/common/smbus/mod.py:30-36 | STOP is "P", START is "S", and every other kind is its initial |
| SMBusCommon.ShortMatchesTable | decoders/common/smbus/mod.py:30-36 | the rules of `short()` give exactly the written-out table of 21 abbreviations |
| SMBusCommon.ProtoOf | decoders/common/smbus/mod.py:39-50 | `SMBusProto(n)` succeeds exactly for 0 <= n < 11, and the member found has value n |
| SMBusCommon.ProtoOfOrdinal | decoders/common/smbus/mod.py:39-50 | looking a protocol up by its own value gives it back |
| SMBusCommon.ProtoOrdinalInjective | decoders/common/smbus/mod.py:39-50 | the 11 protocol values are distinct |
| SMBusCommon.AccessValue | decoders/common/smbus/mod.py:53-55 | READ is 1 and WRITE is not |
| SMBusCommon.AccessOf | decoders/common/smbus/mod.py:53-55 | `SMBusAccess(v)` succeeds exactly for 0 and 1, and the member found has value v |
| SMBus.Captured | decoders/smbus/pd.py:307-311 | `record(bits)` keeps the bit list exactly when the state is START or START_REPEAT; state, address and mode are unchanged |
| SMBus.FrameLabel | decoders/smbus/pd.py:69-76 | a direction record is labelled "Read" exactly when its bit is 1, otherwise "Write", abbreviated to its initial; any other record's long text is its readable name, followed by ": " and the two hex digits of its payload when it has one, and its short text is its entry in the abbreviation table |
| SMBus.DataNackAsWrittenRejectsStop | decoders/smbus/pd.py:235-240 | as written, the DATA_NACK arm raises its assertion even on STOP |
| SMBus.Decoder.constructor | decoders/smbus/pd.py:59-63 | a new framer has an empty context and no output |
| SMBus.Decoder.Reset | decoders/smbus/pd.py:59-63 | `reset` clears state, bits, address and mode and keeps the output |
| SMBus.Decoder.Put | decoders/smbus/pd.py:69-79 | `putp` appends one record of the current kind and changes nothing else |
| SMBus.Decoder.UpdateOpening | decoders/smbus/pd.py:90-155 | from START to COMMAND the fields and output change exactly as `SMBus.Opening` says; a raise leaves them unchanged |
| SMBus.Decoder.UpdateWriting | decoders/smbus/pd.py:157-240 | from COMMAND_ACK to DATA_NACK the fields and output change exactly as `SMBus.Writing` says (DATA_NACK corrected) |
| SMBus.Decoder.UpdateReading | decoders/smbus/pd.py:242-302 | from START_REPEAT to RESPONSE_NACK the fields and output change exactly as `SMBus.Reading` says |
| SMBus.Decoder.Update | decoders/smbus/pd.py:81-305 | `update` changes the fields and output exactly as `SMBus.Transition` says (DATA_NACK corrected), and returns its fault |
| SMBus.Decoder.Record | decoders/smbus/pd.py:307-311 | `record` sets the context to `SMBus.Captured` and emits nothing |
| SMBus.Decoder.Decode | decoders/smbus/pd.py:313-320 | `decode` records BITS and hands every other symbol to `update`, acting as `SMBus.Consume` says |
| SMBusLemmas.IdleAcceptsOnlyStart | decoders/smbus/pd.py:82-88 | when idle, only START is accepted, with one START record; anything else resets silently and never raises |
| SMBusLemmas.ResetThenOnlyStart | decoders/smbus/pd.py:59-63 | after `reset`, the next record, if any, is START |
| SMBusLemmas.AddressSplit | decoders/smbus/pd.py:90-104 | after START, an address byte gives ADDRESS over bits 7..1 then DIRECTION over bit 0 and latches the address; the mode is READ exactly when bit 0 is 1; it raises exactly when the eight bit samples are missing |
| SMBusLemmas.StartNeedsAddress | decoders/smbus/pd.py:90-104 | after START, anything but an address resets |
| SMBusLemmas.SendByteFraming | decoders/smbus/pd.py:157-184 | STOP after COMMAND_ACK is accepted exactly when the address was written |
| SMBusLemmas.ReceiveByteFraming | decoders/smbus/pd.py:186-196 | after COMMAND_NACK, STOP is accepted exactly when the address was read; everything else resets |
| SMBusLemmas.RepeatedStartMatchesAddress | decoders/smbus/pd.py:242-258 | after START_REPEAT, an address is accepted only when it equals the latched one, giving ADDRESS_REPEAT and DIRECTION_REPEAT; a mismatch resets |
| SMBusLemmas.DirectionRepeatAck | decoders/smbus/pd.py:260-266 | DIRECTION_REPEAT then ACK goes to RESPONSE_ACK; anything else resets |
| SMBusLemmas.NackEndsTransaction | decoders/smbus/pd.py:136-141 | after ADDRESS_NACK, and after DATA_NACK in its corrected form, STOP emits STOP and clears the context; any other symbol raises |
| SMBusLemmas.BitsOnlyAfterStart | decoders/smbus/pd.py:313-320 | a BITS symbol emits nothing, leaves state, address and mode alone, and is kept exactly after a (repeated) start |
| SMBusLemmas.SilentStepResets | decoders/smbus/pd.py:81-305 | a step of `update` that emits nothing is a full reset |
| SMBusLemmas.FaultCases | decoders/smbus/pd.py:81-305 | `update` raises if and only if: the bits are missing for an address; a NACK state is not followed by STOP; or the state is one `update` has no arm for (ADDRESS, ADDRESS_REPEAT, PEC and its ACK/NACK) |
| SMBusLemmas.RunAppend | decoders/smbus/pd.py:313-320 | a run of `decode` calls over `a + b` is the run over `a` followed by the run over `b` from where it stopped |
| SMBusLemmas.StepChain | decoders/smbus/pd.py:81-305 | one `decode` call emits records that follow the previous one by the transaction grammar, and its state is the kind of its last record |
| SMBusLemmas.RunChain | decoders/smbus/pd.py:313-320 | over any run of `decode` calls, every record either opens a transaction with START or follows the record before it by the SMBus transaction grammar; a run that raises nothing ends idle or in the kind of its last record |
| SMBusLemmas.FirstFrameIsStart | decoders/smbus/pd.py:82-88 | from reset, the first record of any run is START |
| SMBusLemmas.StepPayloads | decoders/smbus/pd.py:81-305 | given well-formed I2C symbols, every record of one call has the right payload shape: ADDRESS, ADDRESS_REPEAT, COMMAND, DATA and RESPONSE carry a byte; DIRECTION and DIRECTION_REPEAT carry a bit below 2; every other kind carries no payload |
| SMBusLemmas.RunPayloads | decoders/smbus/pd.py:313-320 | every record of a run over well-formed I2C symbols has the right payload shape: a byte for byte kinds, a bit for direction kinds, no payload for every other kind |
| PMBusCommands.Lookup | decoders/pmbus/pd.py:12-42 | `PMBusCommand(op)` finds only a command whose code is op |
| PMBusCommands.LookupCode | decoders/pmbus/pd.py:12-42 | looking up a command's own code finds that command |
| PMBusCommands.CodeInjective | decoders/pmbus/pd.py:12-42 | two commands share a code if and only if they are the same |
| PMBusCommands.LookupComplete | decoders/pmbus/pd.py:12-42 | the lookup fails exactly on codes no command has |
| PMBusCommands.TableExamples | decoders/pmbus/pd.py:12-42 | VOUT_MODE is 0x20/BYTE, STATUS_WORD 0x79/WORD, MFR_REVISION 0x9b/BLOCK, CLEAR_FAULTS 0x03/COMMAND; 0x01 is not a command |
| PMBus.WordOf | decoders/pmbus/pd.py:233-244 | `(hi << 8) \| lo` has lo as its low byte and hi as its high byte |
| PMBus.CommandText | decoders/pmbus/pd.py:166 | the command label is the command's name followed by " Command" |
| PMBus.ByteText | decoders/pmbus/pd.py:225 | a BYTE value label is the command's name, then " Write: " or " Read: ", then two hex digits that read back as the byte |
| PMBus.WordText | decoders/pmbus/pd.py:238 | a WORD value label is the command's name, then the direction text, then four hex digits that read back as the word |
| PMBus.Render | decoders/pmbus/pd.py:97-107 | a direction label is "Read" exactly for READ and "Write" exactly for WRITE; a command label is the command's name followed by " Command"; a BYTE or WORD label starts with the command's name and the direction text and ends in hex digits that read back as the value; block labels end in the byte's digits |
| PMBus.AccessLabelIsCapitalizedName | decoders/pmbus/pd.py:97-100 | the direction label is `access.name.capitalize()` |
| PMBus.Opening | decoders/pmbus/pd.py:123-181 | START through COMMAND keep the context invariant |
| PMBus.Writing | decoders/pmbus/pd.py:183-283 | COMMAND_ACK through DATA_NACK keep the context invariant (WORD write ack corrected) |
| PMBus.Reading | decoders/pmbus/pd.py:285-410 | START_REPEAT through RESPONSE_NACK keep the context invariant |
| PMBus.Transition | decoders/pmbus/pd.py:112-413 | `update` keeps the context invariant: nothing is buffered before the data phase, a response is buffered in RESPONSE, and the command is known once resolved (WORD write ack corrected) |
| PMBus.Decode | decoders/pmbus/pd.py:415-417 | `decode` raises on a symbol id exactly when `SMBusSym(id)` does, and otherwise keeps the invariant |
| PMBus.Decoder.constructor | decoders/pmbus/pd.py:85-91 | a new decoder has a cleared, valid context and no output |
| PMBus.Decoder.Reset | decoders/pmbus/pd.py:85-91 | `reset` clears state, address, access, command and both buffers, and keeps the output |
| PMBus.Decoder.Put | decoders/pmbus/pd.py:97-110 | one output is appended and nothing else changes |
| PMBus.Decoder.Mark | decoders/pmbus/pd.py:97-110 | `puta` then `putp` append the two records of the current kind |
| PMBus.Decoder.SetDirection | decoders/pmbus/pd.py:143-155 | a direction record sets the access as `SMBusAccess(data)` says, or raises and changes nothing |
| PMBus.Decoder.AckData | decoders/pmbus/pd.py:217-259 | DATA_ACK in DATA acts as `PMBus.WriteAck` says (WORD write ack corrected) |
| PMBus.Decoder.NackResponse | decoders/pmbus/pd.py:318-362 | RESPONSE_NACK in RESPONSE acts as `PMBus.ReadNack` says |
| PMBus.Decoder.AckResponse | decoders/pmbus/pd.py:364-385 | RESPONSE_ACK in RESPONSE acts as `PMBus.ReadAck` says |
| PMBus.Decoder.UpdateOpening | decoders/pmbus/pd.py:123-181 | START through COMMAND change the fields and output exactly as `PMBus.Opening` says |
| PMBus.Decoder.UpdateWriting | decoders/pmbus/pd.py:183-283 | COMMAND_ACK through DATA_NACK change them exactly as `PMBus.Writing` says (WORD write ack corrected) |
| PMBus.Decoder.UpdateReading | decoders/pmbus/pd.py:285-410 | START_REPEAT through RESPONSE_NACK change them exactly as `PMBus.Reading` says |
| PMBus.Decoder.Update | decoders/pmbus/pd.py:112-413 | `update` changes the fields and output exactly as `PMBus.Transition` says (WORD write ack corrected), keeps `Valid`, and returns the fault |
| PMBus.Decoder.DecodeRecord | decoders/pmbus/pd.py:415-417 | `decode` acts as `PMBus.Decode` says |
| PMBusLemmas.WordRoundTrip | decoders/pmbus/pd.py:233-244 | assembling a word from two bytes and splitting it are inverse |
| PMBusLemmas.IdleClearsContext | decoders/pmbus/pd.py:113-121 | when idle, START is accepted on a cleared context and anything else leaves it cleared |
| PMBusLemmas.AddressLatched | decoders/pmbus/pd.py:123-131 | after START, ADDRESS latches and shows the address; anything else resets |
| PMBusLemmas.DirectionSetsAccess | decoders/pmbus/pd.py:143-155 | DIRECTION sets WRITE for 0 and READ for 1, raises for anything else, and shows the access's name |
| PMBusLemmas.CommandResolves | decoders/pmbus/pd.py:157-172 | COMMAND after ADDRESS_ACK raises exactly for an unknown or missing code; otherwise it latches the command with that code and shows its name |
| PMBusLemmas.FirstDataBuffered | decoders/pmbus/pd.py:183-203 | the first DATA after COMMAND_ACK starts the buffer and emits nothing |
| PMBusLemmas.ByteWrite | decoders/pmbus/pd.py:220-231 | a BYTE write is annotated over the byte's range exactly when one byte is buffered |
| PMBusLemmas.WordWrite | decoders/pmbus/pd.py:233-244 | a WORD write with two buffered bytes annotates the word whose low byte is the first and high byte the second, over both ranges; with fewer it acknowledges and waits (corrected) |
| PMBusLemmas.UnsupportedWriteResets | decoders/pmbus/pd.py:246-251 | a data ack under READ, or for a protocol other than BYTE and WORD, resets |
| PMBusLemmas.DataNackNeedsStop | decoders/pmbus/pd.py:279-283 | after DATA_NACK only STOP is accepted; anything else raises |
| PMBusLemmas.RepeatAddressMatches | decoders/pmbus/pd.py:298-306 | ADDRESS_REPEAT is accepted exactly with the latched address |
| PMBusLemmas.ResponseBuffered | decoders/pmbus/pd.py:390-401 | every RESPONSE after RESPONSE_ACK is appended to the response buffer without output |
| PMBusLemmas.BlockReadAck | decoders/pmbus/pd.py:364-385 | on a block read the first response byte is labelled as the length and later ones as data bytes; a missing byte raises |
| PMBusLemmas.ResponseAckAlwaysAccepted | decoders/pmbus/pd.py:364-385 | RESPONSE_ACK outside a block read moves on with only its own records |
| PMBusLemmas.BlockReadNack | decoders/pmbus/pd.py:346-355 | a block read's RESPONSE_NACK labels the latest byte, and its Python record has no payload |
| PMBusLemmas.WordRead | decoders/pmbus/pd.py:333-344 | a WORD read is annotated exactly when two bytes were received, with the first as the low byte; a missing byte raises |
| PMBusLemmas.ByteRead | decoders/pmbus/pd.py:319-331 | a BYTE read is annotated with the received byte over its range, and moves to RESPONSE_NACK, exactly when one byte was received; otherwise nothing happens, and a missing byte raises |
| PMBusLemmas.SilentSteps | decoders/pmbus/pd.py:112-413 | a step that emits nothing is a reset, no change at all, or one byte added to a buffer |
| PMBusLemmas.Run | decoders/pmbus/pd.py:112-413 | a run of `update` calls over framer records keeps the invariant |
| PMBusLemmas.RunAppend | decoders/pmbus/pd.py:112-413 | a run over `a + b` is the run over `a` followed by the run over `b` from where it stopped |
| PMBusLemmas.WordWriteAssembles | decoders/pmbus/pd.py:217-259 | corrected: two data bytes, each acknowledged, give one WORD value over both bytes |
| PMBusLemmas.WordWriteAsWrittenLosesValue | decoders/pmbus/pd.py:217-259 | as written: the first ack keeps state DATA, so the second byte resets and no word is ever shown |
| Cascade.DecodeFramerRecord | decoders/pmbus/pd.py:415-417 | the framer writes `kind.value` and the PMBus decoder reads it back with `SMBusSym(id)` without loss |
| Cascade.Steps | decoders/smbus/pd.py:78-79 | the framer's records, one for one, as PMBus decoder inputs |
| Cascade.FramerWriteVoutMode | decoders/smbus/pd.py:81-305 | the I2C symbols of a Write Byte of 0x17 to VOUT_MODE at address 0x40 give nine records, START through STOP |
| Cascade.PMBusSuffix | decoders/pmbus/pd.py:112-413 | the PMBus decoder on those records emits the expected outputs from each record on and ends at STOP |
| Cascade.VoutModeText | decoders/pmbus/pd.py:225 | the VOUT_MODE Write label of 0x17 reads "VOUT_MODE Write: 17" |
| Cascade.StackedWriteVoutMode | decoders/pmbus/pd.py:217-231 | the two decoders stacked turn that Write Byte into a VOUT_MODE Write value annotation of 0x17 over the data byte's samples, rendered "VOUT_MODE Write: 17", with no exception |

## Left out

- SMBus.Transition, SMBus.Writing, SMBus.Decoder.UpdateWriting and SMBus.Decoder.Update: these carry the corrected DATA_NACK arm (STOP ends the transaction). The arm as written, which raises on every symbol, is `SMBus.DataNackAsWritten`.
- PMBus.Transition, PMBus.Writing, PMBus.WriteAck, PMBus.Decoder.AckData, PMBus.Decoder.UpdateWriting and PMBus.Decoder.Update: these carry the corrected WORD write ack, where an ack before the second byte moves to DATA_ACK. The ack as written, which stays in DATA, is `PMBus.WriteAckAsWritten`.
- Registration with sigrok (`id`, `inputs`, `outputs`, `annotations`, `start`, `register`) and the `put` plumbing: these are framework calls. Output is modelled as the sequence of records each decoder would put.
- Sample numbers are plain integers, opaque to the model.
- Python's exceptions become a `Failed` outcome that leaves the context unchanged. The field writes that Python makes before raising are not modelled, because an exception ends the decoding session.
- The I2C decoder's symbol names are parsed into `I2CSym` with `I2CSym[cmd.replace(" ", "_")]`. The model takes the symbol already parsed, so the name parsing is left out; so is the `KeyError` on an unknown name.
- The I2C bit list of `[bit, ss, es]` triples is modelled as a sequence of `BitSample` records.
- The PEC states. Neither decoder has an arm for them. The framer's final `else: assert False` is the `UnexpectedState` fault of `SMBus.Transition`; the PMBus decoder's final `else` resets.
- The "Unsupported proto" diagnostic print in `decoders/pmbus/pd.py:246-248` leaves no output, so the model keeps only the reset.
- The PMBus `puta` arm for state COMMAND (`decoders/pmbus/pd.py:101-103`) is never reached, because every COMMAND annotation is put directly. The model does not carry it.
- `putp(ss, es)` at `decoders/pmbus/pd.py:355` and `:385` has no data argument, so in Python it raises TypeError. The model gives those records no payload, as the lines around them clearly intend.
- f-string formatting is modelled only for the parts that carry meaning: names, the ": " separator, and upper-case hex digits.
- At ADDRESS_ACK the framer accepts only DATA_WRITE as the command byte. A Receive Byte in read mode therefore never reaches COMMAND_NACK. The model keeps that arm as the source writes it (`SMBusLemmas.ReceiveByteFraming` states it), without claiming it can be reached.

## Findings

| source | as written | input that shows it | evidently intended | confidence | as-written member | corrected member |
|---|---|---|---|---|---|---|
| decoders/smbus/pd.py:236 | `assert state is SMBusSym.STOP` compares an `I2CSym` with an `SMBusSym` member, so it always fails | DATA_WRITE, NACK, STOP from state COMMAND_ACK: the STOP raises AssertionError | `state is I2CSym.STOP`, so STOP ends the transaction as after ADDRESS_NACK | not executed | SMBus.DataNackAsWrittenRejectsStop | SMBusLemmas.NackEndsTransaction |
| decoders/pmbus/pd.py:233-244 | the DATA_ACK after the first byte of a WORD write does nothing and keeps state DATA; the second DATA then hits the reset arm | COMMAND_ACK, DATA 0x34, DATA_ACK, DATA 0x12, DATA_ACK with a WORD command: no word is annotated | acknowledge the first byte (state DATA_ACK) and assemble `(hi << 8) \| lo` on the second ack | not executed | PMBusLemmas.WordWriteAsWrittenLosesValue | PMBusLemmas.WordWriteAssembles |
