# Silvair UART modem common library, in Dafny

This project models the host side of the serial protocol that a Silvair UART modem speaks,
as implemented in `silvair_uart_common_libs`, and proves properties of that model.

Three parts are modelled:

- **Messages.** These cover `messages.py`, `message_types.py` and `message_factory.py`.
  - The model has every message class, with its `get_length`, `serialize`, `deserialize` and `__eq__`.
  - It has the IntEnums and `ModelDesc`.
  - It has the opcode table `UART_CLASSES` and the two entry points `serialize_message` and
    `deserialize_message`.
  - A message is a Dafny datatype with one constructor per class.
  - Writing is a function on an output accumulator, `Out`. Reading is a function on a read
    cursor, `Cursor`. Each has the `io.BytesIO` semantics the classes rely on.
  - The stream-based methods (`MessageStreams`, `BytesIO`) are the imperative versions of these
    functions. Each is proved to produce what its function says.
- **Frames.** These cover `UartAdapter`'s static helpers in `uart_common_classes.py`.
  - The CRC, written bit by bit, is CRC-16 with polynomial 0x8005, initial value 0xFFFF, no
    reflection and no final xor.
  - `eat_bytes_until_preamble` keeps its `while` loop.
  - `extract_frames` keeps its recursion.
  - A frame on the wire is the preamble `AA 55`, then LEN, opcode and payload, then the CRC of
    LEN, opcode and payload as 2 little-endian bytes.
- **The adapter.** A class holds the observer list, the buffer of bytes not yet made into
  frames, the outgoing queue and a log of the notifications made.
  - Its methods are `register_observer`, `unregister_observer`, `_insert_parsed_frame`,
    `write_uart_frame` and one pass of the `run` loop.
  - The serial port and the threads are parameters of this model or are left out: a pass of
    `run` is given the chunk of bytes it read.

The main results:

- `RoundTrip`: every well-formed message survives `serialize`/`deserialize`.
- `FactoryRoundTrip`: the same holds through the factory.
- `ExtractWireFrames`: frames sent back to back are extracted in order.
- `Reassembly`: a frame split across two reads is extracted once it is complete.
- `MessageOverTheWire`: a message framed, extracted and deserialized is the message sent.

## Behaviour as written

The model follows the code, including where it does something a reader might not expect:

- Observers are notified with the raw frame (LEN, opcode, payload), not with a deserialized
  message, as `_insert_parsed_frame` does at uart_common_classes.py:192.
- The CRC covers the LEN byte as well as the opcode and payload, because `write_uart_frame`
  and `extract_frames` checksum the whole frame after the preamble. The checksum of `01 01 22`
  is 0x88DB, sent as `DB 88` (`Crc.ReferenceFrameChecksum`).
- After a CRC mismatch, `extract_frames` drops the bad frame and returns no frames, even if
  good frames follow in the remainder (`UartFrames.CrcMismatch`).
- When the buffer holds no preamble at all, `eat_bytes_until_preamble` returns the whole
  buffer. A frame that lacks the preamble is therefore still parsed when its first two bytes
  happen to be followed by a valid frame body (`UartFrames.NoPreambleStillParsed`).
- `ModelDesc.get_length` counts the configuration whatever the identifier. `serialize` writes
  the configuration only for the sensor setup server (`MessageTypes.GetLengthCountsUnwrittenConfig`).
- The list classes' `deserialize` appends to the list the object already holds
  (`MessageProperties.ModelIdListAppends`).

## Model

| member | source | states |
|---|---|---|
| Messages.GetLength | silvair_uart_common_libs/messages.py:175-2330 | each class's `get_length`; `SerializeHeader` and `RoundTrip` prove it is the number of field bytes `serialize` writes |
| Messages.SerializeFields | silvair_uart_common_libs/messages.py:175-2330 | each class's field writing; `FieldsErrorIff` and `FieldsKeepError` prove when it raises, `FieldsRoundTripAll` that it reads back |
| Messages.Serialize | silvair_uart_common_libs/messages.py:156-163 | `serialize`: LEN, opcode, then the fields, or AssertionError for the generic class; `SerializeSucceedsIff` and `RoundTrip` prove its properties |
| Messages.ReadModelIds | silvair_uart_common_libs/messages.py:350-365 | the `while length >= 2` identifier loop; `ReadModelIdsBack`, `ReadModelIdsOdd` and `ModelIdListAppends` prove its properties |
| Messages.ReadModelDescs | silvair_uart_common_libs/messages.py:422-438 | the description loop; `ReadModelDescsBack` and `ReadModelDescsAll` prove its properties |
| Messages.DeserializeFields | silvair_uart_common_libs/messages.py:175-2330 | each class's field reading; the `MessageErrors` lemmas state its outcome for every LEN and stream, `FieldsRoundTripAll` its round trip |
| Messages.Deserialize | silvair_uart_common_libs/messages.py:141-173 | `deserialize`: the common part, then the fields; `DeserializeHeader`, `WrongOpcode` and `RoundTrip` prove its properties |
| MessageTypes.ModelDesc.GetLength | silvair_uart_common_libs/message_types.py:143-150 | `get_length`; `ModelDescRoundTrip` and `GetLengthCountsUnwrittenConfig` relate it to the bytes written |
| MessageTypes.DeserializeModelDesc | silvair_uart_common_libs/message_types.py:165-177 | `ModelDesc.deserialize`; `ModelDescRoundTrip` and `DeserializeModelDescConsumes` prove its properties |
| Crc.UpdateByte | silvair_uart_common_libs/uart_common_classes.py:294 | one byte through the CRC-16 register, polynomial 0x8005, most significant bit first; `ReferenceFrameChecksum` pins it to the source's test vector |
| Crc.Update | silvair_uart_common_libs/uart_common_classes.py:294-297 | the register after a byte string; `UpdateAppend` proves it continues across concatenation |
| UartCommands.UartCommand.Value | silvair_uart_common_libs/messages.py:32-78 | every opcode fits the single opcode byte |
| MessageTypes.ModelIDFromValue | silvair_uart_common_libs/message_types.py:32-49 | `ModelID(v)` gives the member whose value is v, and fails (ValueError) exactly when no member has value v |
| MessageTypes.FactoryResetSourceFromValue | silvair_uart_common_libs/message_types.py:51-58 | the member with value v, none exactly when no member has it |
| MessageTypes.ModemStateFromValue | silvair_uart_common_libs/message_types.py:60-69 | the member with value v, none exactly when no member has it |
| ErrorCodes.ErrorFromValue | silvair_uart_common_libs/message_types.py:71-84 | the member with value v, none exactly when no member has it |
| MessageTypes.DFUStatusFromValue | silvair_uart_common_libs/message_types.py:86-100 | the member with value v, none exactly when no member has it |
| MessageTypes.AttentionEventFromValue | silvair_uart_common_libs/message_types.py:102-108 | the member with value v, none exactly when no member has it |
| MessageTypes.DfuStatusFromValue | silvair_uart_common_libs/message_types.py:110-116 | the member with value v, none exactly when no member has it |
| MessageTypes.ModelIDValueRoundTrip | silvair_uart_common_libs/message_types.py:32-49 | converting a member's value gives the member back |
| MessageTypes.SerializeModelDesc | silvair_uart_common_libs/message_types.py:152-163 | a description writes its identifier as 2 little-endian bytes, then its configuration only for the sensor setup server; an earlier exception is kept |
| MessageTypes.ReadModelID | silvair_uart_common_libs/message_types.py:165-170 | reading an identifier succeeds exactly when the little-endian value of the next 2 bytes (0 for absent bytes) is a member, gives that member and advances by the bytes available; otherwise ValueError |
| MessageTypes.WriteModelDesc | silvair_uart_common_libs/message_types.py:152-163 | the stream ends holding what `SerializeModelDesc` writes |
| MessageTypes.ReadModelDesc | silvair_uart_common_libs/message_types.py:165-177 | the stream method reads what `DeserializeModelDesc` reads and leaves the stream where it stops |
| MessageTypes.ModelDescRoundTrip | silvair_uart_common_libs/message_types.py:143-177 | a well-formed description takes `get_length()` bytes and reads back as itself, stopping right after them |
| MessageTypes.GetLengthCountsUnwrittenConfig | silvair_uart_common_libs/message_types.py:143-163 | a description serializes to exactly `get_length()` bytes if and only if it is the sensor setup server's or has no configuration; any other identifier writes the configuration's length fewer |
| MessageTypes.DeserializeModelDescConsumes | silvair_uart_common_libs/message_types.py:165-177 | a description read from at least 12 bytes is well-formed and consumes `get_length()` bytes; from fewer it never consumes more |
| Bytes.FromToLittleEndian | silvair_uart_common_libs/messages.py:129-139 | `int.from_bytes` of `to_bytes(width)` is the value |
| Bytes.ToFromLittleEndian | silvair_uart_common_libs/messages.py:141-154 | `to_bytes` of a byte string's value at its own width is the byte string |
| ByteStream.Cursor.Read | silvair_uart_common_libs/messages.py:141-154 | `read(n)` returns min(n, remaining) bytes (everything left when n < 0), the bytes at the position, and advances by that many |
| ByteStream.Cursor.ReadInt | silvair_uart_common_libs/messages.py:141-154 | the integer read is the little-endian value of the bytes available (0 when none are), below 256^width, and the position advances by those bytes |
| ByteStream.ReadBack | silvair_uart_common_libs/messages.py:212-234 | reading `len(x)` bytes where x was written returns x |
| ByteStream.ReadIntBack | silvair_uart_common_libs/messages.py:630-661 | an integer written in `width` little-endian bytes reads back as itself |
| ByteStream.Out.PutInt | silvair_uart_common_libs/messages.py:129-139 | `to_bytes` appends `width` bytes whose little-endian value is the value when it fits, keeping what was written; otherwise raises OverflowError without writing; an earlier exception is kept |
| ByteStream.BytesIO.constructor | silvair_uart_common_libs/message_factory.py:84 | a fresh stream holds its initial bytes at position 0 |
| ByteStream.BytesIO.Read | silvair_uart_common_libs/messages.py:141-154 | the stream's read does what `Cursor.Read` says |
| ByteStream.BytesIO.ReadInt | silvair_uart_common_libs/messages.py:141-154 | the stream's integer read does what `Cursor.ReadInt` says |
| ByteStream.BytesIO.Write | silvair_uart_common_libs/messages.py:129-139 | `write` overwrites from the position, extends the buffer, and appends at the end of the stream |
| ByteStream.BytesIO.WriteInt | silvair_uart_common_libs/messages.py:129-139 | writing an integer does what `Out.PutInt` says |
| Messages.Type | silvair_uart_common_libs/messages.py:94-104 | no class has OpcodeError's type, and only GenericMessage has the Generic type |
| Messages.NewMessage | silvair_uart_common_libs/message_factory.py:16-58 | every type but OpcodeError has a class whose constructor makes a message |
| Messages.NewMessageType | silvair_uart_common_libs/messages.py:175-187 | each constructor sets its own class's type |
| Messages.Eq | silvair_uart_common_libs/messages.py:112-119 | `__eq__` holds exactly when the two messages are equal |
| MessageProperties.SerializeSucceedsIff | silvair_uart_common_libs/messages.py:129-163 | `serialize` succeeds exactly for a non-generic message whose length fits LEN's byte and whose fields fit their widths |
| MessageProperties.FieldsErrorIff | silvair_uart_common_libs/messages.py:630-641 | writing the fields raises exactly when a field does not fit its width |
| MessageProperties.FieldsKeepError | silvair_uart_common_libs/messages.py:630-641 | once an exception is raised, writing the fields keeps it |
| MessageProperties.SerializeOverflow | silvair_uart_common_libs/messages.py:129-139 | a length above 255 raises OverflowError before anything is written |
| MessageProperties.SerializeGeneric | silvair_uart_common_libs/messages.py:156-163 | the generic message raises AssertionError and writes nothing |
| MessageProperties.ModelIdsBytesLength | silvair_uart_common_libs/messages.py:330-348 | each identifier takes 2 bytes |
| MessageProperties.ModelDescsBytesLength | silvair_uart_common_libs/messages.py:400-420 | well-formed descriptions take the bytes `get_length` counts |
| MessageProperties.ReadModelIdsBack | silvair_uart_common_libs/messages.py:350-365 | the identifier loop reads back exactly the identifiers written, after what the list held |
| MessageProperties.ReadModelIdsOdd | silvair_uart_common_libs/messages.py:350-365 | an odd LEN leaves a byte that raises InvalidLen |
| MessageProperties.ReadModelDescsBack | silvair_uart_common_libs/messages.py:422-438 | the description loop reads back exactly the well-formed descriptions written |
| MessageProperties.ReadModelDescsAll | silvair_uart_common_libs/messages.py:422-438 | started on an empty list, the description loop returns exactly the descriptions written and stops after them |
| MessageProperties.BlobRoundTrip | silvair_uart_common_libs/messages.py:212-234 | ping, pong and firmware version payloads read back as written |
| MessageProperties.ModelIdListRoundTrip | silvair_uart_common_libs/messages.py:339-365 | identifier-list messages read back as written |
| MessageProperties.ModelDescListRoundTrip | silvair_uart_common_libs/messages.py:411-438 | CreateInstancesRequest reads back as written |
| MessageProperties.MeshMessageRequestRoundTrip | silvair_uart_common_libs/messages.py:630-661 | the mesh request reads back as written |
| MessageProperties.MeshMessageResponseRoundTrip | silvair_uart_common_libs/messages.py:879-903 | the mesh response reads back as written |
| MessageProperties.SensorUpdateRequestRoundTrip | silvair_uart_common_libs/messages.py:1203-1232 | the sensor update reads back as written |
| MessageProperties.DeviceUUIDResponseRoundTrip | silvair_uart_common_libs/messages.py:1472-1497 | the UUID response reads back as written |
| MessageProperties.DfuInitRequestRoundTrip | silvair_uart_common_libs/messages.py:1549-1583 | the DFU init request reads back as written |
| MessageProperties.DfuStatusResponseRoundTrip | silvair_uart_common_libs/messages.py:1731-1764 | the DFU status response reads back as written |
| MessageProperties.DfuPageCreateRequestRoundTrip | silvair_uart_common_libs/messages.py:1803-1825 | the page create request reads back as written |
| MessageProperties.DfuWriteDataEventRoundTrip | silvair_uart_common_libs/messages.py:1929-1959 | the write data event reads back as written |
| MessageProperties.StartTestRequestRoundTrip | silvair_uart_common_libs/messages.py:2260-2288 | the start test request reads back as written |
| MessageProperties.CurrentStateResponseRoundTrip | silvair_uart_common_libs/messages.py:977-999 | the modem state reads back as written |
| MessageProperties.ErrorRoundTrip | silvair_uart_common_libs/messages.py:1038-1060 | the error code reads back as written |
| MessageProperties.AttentionEventRoundTrip | silvair_uart_common_libs/messages.py:1271-1293 | the attention event reads back as written |
| MessageProperties.DfuInitResponseRoundTrip | silvair_uart_common_libs/messages.py:1622-1644 | the DFU init status reads back as written |
| MessageProperties.DfuPageCreateResponseRoundTrip | silvair_uart_common_libs/messages.py:1864-1886 | the page create status reads back as written |
| MessageProperties.DfuPageStoreResponseRoundTrip | silvair_uart_common_libs/messages.py:2033-2055 | the page store status reads back as written |
| MessageProperties.DfuStateResponseRoundTrip | silvair_uart_common_libs/messages.py:2129-2152 | the DFU state reads back as written |
| MessageProperties.ZeroPayloadRoundTrip | silvair_uart_common_libs/messages.py:676-696 | the classes without fields write nothing after the header and read back |
| MessageProperties.FieldsRoundTripAll | silvair_uart_common_libs/messages.py:175-2330 | every well-formed message's fields read back through a new object of its class |
| MessageProperties.SerializeHeader | silvair_uart_common_libs/messages.py:129-139 | a writable message starts with LEN = `get_length()` and its opcode |
| MessageProperties.DeserializeHeader | silvair_uart_common_libs/messages.py:141-154 | reading LEN and the class's own opcode passes LEN to the fields |
| MessageProperties.ZeroPayloadLen | silvair_uart_common_libs/messages.py:685-696 | a class without fields raises InvalidLen exactly when LEN is not 0 |
| MessageProperties.ModelIdListAppends | silvair_uart_common_libs/messages.py:350-365 | `deserialize` keeps the identifiers the object already held and appends the ones read |
| MessageProperties.WrongOpcode | silvair_uart_common_libs/messages.py:141-154 | a foreign opcode raises InvalidOpcode before any field is read |
| MessageProperties.RoundTrip | silvair_uart_common_libs/messages.py:129-173 | `serialize` of a well-formed message succeeds, writes LEN, opcode and fields, and a new object of its class reads it back and stops right after it |
| MessageErrors.CurrentStateResponseLenCheck | silvair_uart_common_libs/messages.py:987-998 | ValueError for a byte that is no modem state, else InvalidLen unless LEN is 1; success gives the state and advances past the byte |
| MessageErrors.CurrentStateResponseFromNothing | silvair_uart_common_libs/messages.py:987-998 | with no bytes left and LEN 1 the missing byte reads as 0 and gives InitDevice |
| MessageErrors.ErrorLenCheck | silvair_uart_common_libs/messages.py:1048-1059 | ValueError for a byte that is no error code, else InvalidLen unless LEN is 1 |
| MessageErrors.AttentionEventLenCheck | silvair_uart_common_libs/messages.py:1281-1292 | ValueError for a byte that is no attention event, else InvalidLen unless LEN is 1 |
| MessageErrors.DfuInitResponseLenCheck | silvair_uart_common_libs/messages.py:1632-1643 | ValueError for a byte that is no DFU status, else InvalidLen unless LEN is 1 |
| MessageErrors.DfuPageCreateResponseLenCheck | silvair_uart_common_libs/messages.py:1874-1885 | ValueError for a byte that is no DFU status, else InvalidLen unless LEN is 1 |
| MessageErrors.DfuPageStoreResponseLenCheck | silvair_uart_common_libs/messages.py:2043-2054 | ValueError for a byte that is no DFU status, else InvalidLen unless LEN is 1 |
| MessageErrors.DfuStateResponseLenCheck | silvair_uart_common_libs/messages.py:2139-2151 | ValueError for a byte that is no DFU state, else InvalidLen unless LEN is 1 |
| MessageErrors.DfuStatusResponseLenCheck | silvair_uart_common_libs/messages.py:1745-1763 | ValueError for a status byte that is no member; otherwise InvalidLen exactly when LEN is not the fixed size |
| MessageErrors.DfuPageCreateRequestLenCheck | silvair_uart_common_libs/messages.py:1813-1824 | InvalidLen exactly when LEN is not 4; otherwise the page size read, absent bytes as 0 |
| MessageErrors.MeshMessageResponseLenCheck | silvair_uart_common_libs/messages.py:890-902 | InvalidLen exactly when LEN is not the fixed size |
| MessageErrors.StartTestRequestLenCheck | silvair_uart_common_libs/messages.py:2272-2287 | InvalidLen exactly when LEN is not the fixed size |
| MessageErrors.DeviceUUIDResponseLenCheck | silvair_uart_common_libs/messages.py:1482-1496 | InvalidLen exactly when LEN is not 16 or fewer than 16 bytes remain; otherwise the next 16 bytes |
| MessageErrors.FirmwareVersionResponseLenCheck | silvair_uart_common_libs/messages.py:1144-1156 | InvalidLen exactly when LEN is 0; otherwise up to LEN bytes, everything left for a negative LEN |
| MessageErrors.PingRequestLenCheck | silvair_uart_common_libs/messages.py:222-233 | InvalidLen exactly when LEN is negative or more than the bytes left; otherwise exactly the next LEN bytes |
| MessageErrors.PongResponseLenCheck | silvair_uart_common_libs/messages.py:283-294 | InvalidLen exactly when LEN is negative or more than the bytes left; otherwise exactly the next LEN bytes |
| MessageErrors.MeshMessageRequestLenCheck | silvair_uart_common_libs/messages.py:643-660 | InvalidLen exactly when LEN is below 4, or above 4 with fewer than LEN bytes left |
| MessageErrors.SensorUpdateRequestLenCheck | silvair_uart_common_libs/messages.py:1215-1231 | InvalidLen exactly when LEN is below 3, or above 3 with fewer than LEN bytes left |
| MessageErrors.DfuInitRequestLenCheck | silvair_uart_common_libs/messages.py:1562-1582 | succeeds exactly when LEN exceeds the fixed part by the announced app-data length and, if there is app data, LEN bytes are left; InvalidLen otherwise |
| MessageErrors.DfuWriteDataEventLenCheck | silvair_uart_common_libs/messages.py:1940-1958 | succeeds exactly when LEN exceeds 1 by the announced data length and, if there is data, LEN bytes are left; InvalidLen otherwise |
| MessageStreams.WriteModelIds | silvair_uart_common_libs/messages.py:339-348 | the loop writes each identifier's 2 bytes in order |
| MessageStreams.WriteModelDescs | silvair_uart_common_libs/messages.py:411-420 | the loop writes each description in order |
| MessageStreams.ModelDescsLength | silvair_uart_common_libs/messages.py:400-409 | the accumulating loop computes `get_length` |
| MessageStreams.WriteMessage | silvair_uart_common_libs/messages.py:129-163 | `serialize` on a stream leaves it holding what `Serialize` writes, with the same exception |
| MessageStreams.WriteFields | silvair_uart_common_libs/messages.py:630-641 | each class's field writing leaves the stream as `SerializeFields` says |
| MessageStreams.ReadModelIdList | silvair_uart_common_libs/messages.py:350-365 | the `while length >= 2` loop reads what `ReadModelIds` reads |
| MessageStreams.ReadModelDescList | silvair_uart_common_libs/messages.py:422-438 | the description loop reads what `ReadModelDescs` reads |
| MessageStreams.ReadMessage | silvair_uart_common_libs/messages.py:141-173 | `deserialize` on a stream gives what `Deserialize` gives and leaves the stream at its cursor |
| MessageStreams.ReadFields | silvair_uart_common_libs/messages.py:165-173 | each class's field reading gives what `DeserializeFields` gives |
| MessageStreams.ReadEnumValue | silvair_uart_common_libs/messages.py:987-999 | an IntEnum read gives the member or ValueError, as `ReadEnum` says |
| MessageStreams.ReadPingRequestFields | silvair_uart_common_libs/messages.py:222-234 | the ping payload read as its function says |
| MessageStreams.ReadPongResponseFields | silvair_uart_common_libs/messages.py:283-295 | the pong payload read as its function says |
| MessageStreams.ReadMeshMessageRequestFields | silvair_uart_common_libs/messages.py:643-661 | the mesh request fields read as their function says |
| MessageStreams.ReadMeshMessageResponseFields | silvair_uart_common_libs/messages.py:890-903 | the mesh response fields read as their function says |
| MessageStreams.ReadCurrentStateResponseFields | silvair_uart_common_libs/messages.py:987-999 | the modem state read as its function says |
| MessageStreams.ReadErrorFields | silvair_uart_common_libs/messages.py:1048-1060 | the error code read as its function says |
| MessageStreams.ReadFirmwareVersionResponseFields | silvair_uart_common_libs/messages.py:1144-1157 | the firmware version read as its function says |
| MessageStreams.ReadSensorUpdateRequestFields | silvair_uart_common_libs/messages.py:1215-1232 | the sensor update read as its function says |
| MessageStreams.ReadAttentionEventFields | silvair_uart_common_libs/messages.py:1281-1293 | the attention event read as its function says |
| MessageStreams.ReadDeviceUUIDResponseFields | silvair_uart_common_libs/messages.py:1482-1497 | the UUID read as its function says |
| MessageStreams.ReadDfuInitRequestFields | silvair_uart_common_libs/messages.py:1562-1583 | the DFU init request read as its function says |
| MessageStreams.ReadDfuInitResponseFields | silvair_uart_common_libs/messages.py:1632-1644 | the DFU init status read as its function says |
| MessageStreams.ReadDfuStatusResponseFields | silvair_uart_common_libs/messages.py:1745-1764 | the DFU status response read as its function says |
| MessageStreams.ReadDfuPageCreateRequestFields | silvair_uart_common_libs/messages.py:1813-1825 | the page size read as its function says |
| MessageStreams.ReadDfuPageCreateResponseFields | silvair_uart_common_libs/messages.py:1874-1886 | the page create status read as its function says |
| MessageStreams.ReadDfuWriteDataEventFields | silvair_uart_common_libs/messages.py:1940-1959 | the write data event read as its function says |
| MessageStreams.ReadDfuPageStoreResponseFields | silvair_uart_common_libs/messages.py:2043-2055 | the page store status read as its function says |
| MessageStreams.ReadDfuStateResponseFields | silvair_uart_common_libs/messages.py:2139-2152 | the DFU state read as its function says |
| MessageStreams.ReadStartTestRequestFields | silvair_uart_common_libs/messages.py:2272-2288 | the start test request read as its function says |
| MessageVectors.PingWrite | tests/test_messages.py:42-51 | a ping carrying BB is `01 01 BB` |
| MessageVectors.PongWrite | tests/test_messages.py:77-86 | a pong carrying BB is `01 02 BB` |
| MessageVectors.PingRead | tests/test_messages.py:19-26 | `01 01 AA` reads as a ping carrying AA |
| MessageVectors.PingShort | tests/test_messages.py:35-40 | `03 01 AA BB` raises InvalidLen |
| MessageVectors.PingWrongOpcode | tests/test_messages.py:28-33 | `01 AB AA` raises InvalidOpcode |
| MessageVectors.InitDeviceEventRead | tests/test_messages.py:89-102 | `06 03 01 10 03 10 08 10` reads as three identifiers |
| MessageVectors.InitDeviceEventOddLen | tests/test_messages.py:104-109 | LEN 7 raises InvalidLen |
| MessageVectors.InitDeviceEventShortLen | tests/test_messages.py:111-116 | LEN 5 raises InvalidLen |
| MessageVectors.StartNodeRequestRead | tests/test_messages.py:404-424 | `00 09` reads; `02 09 AA BB` raises InvalidLen |
| MessageVectors.MeshMessageRequestWrite | tests/test_messages.py:389-401 | the mesh request is `06 07 AA BB CC DD 12 34` |
| MessageVectors.MeshMessageRequestRead | tests/test_messages.py:363-373 | those bytes read back with opcode 0xDDCC |
| MessageVectors.MeshMessageRequestLongLen | tests/test_messages.py:382-387 | LEN 8 raises InvalidLen |
| MessageFactory.UartClass | silvair_uart_common_libs/message_factory.py:16-58 | an opcode found in the table maps to a command other than OpcodeError with that opcode |
| MessageFactory.UartClassOf | silvair_uart_common_libs/message_factory.py:16-58 | every command but OpcodeError is in the table under its own opcode |
| MessageFactory.UartClassMissing | silvair_uart_common_libs/message_factory.py:16-58 | an opcode is missing exactly when it is OpcodeError's or no command's |
| MessageFactory.SerializeMessage | silvair_uart_common_libs/message_factory.py:60-69 | succeeds exactly for non-generic messages whose length and fields fit; otherwise AssertionError or OverflowError |
| MessageFactory.DeserializeMessage | silvair_uart_common_libs/message_factory.py:72-92 | InvalidLen with fewer than 2 bytes, InvalidOpcode for an opcode without class |
| MessageFactory.WriteMessageBytes | silvair_uart_common_libs/message_factory.py:60-69 | the stream version returns what `SerializeMessage` returns |
| MessageFactory.ReadMessageBytes | silvair_uart_common_libs/message_factory.py:72-92 | the stream version returns what `DeserializeMessage` returns |
| MessageFactory.FactoryRoundTrip | silvair_uart_common_libs/message_factory.py:60-92 | `deserialize_message(serialize_message(m)) == m` for well-formed m, whatever bytes follow |
| MessageFactory.DeserializeMessageOf | silvair_uart_common_libs/message_factory.py:86-90 | once the opcode has a class, the factory is that class's `deserialize` |
| MessageFactory.OpcodeErrorRejected | silvair_uart_common_libs/message_factory.py:86-92 | opcode 0x08 raises InvalidOpcode |
| MessageFactory.GenericRejected | silvair_uart_common_libs/message_factory.py:86-92 | opcode 0xFF raises AssertionError |
| MessageFactory.FactoryPingRead | tests/test_message_factory.py:8-14 | `01 01 AA` is a ping carrying AA |
| MessageFactory.FactoryPingWrite | tests/test_message_factory.py:16-23 | a ping carrying BB is `01 01 BB` |
| MessageFactory.FactoryPongRead | tests/test_message_factory.py:27-33 | `01 02 AA` is a pong carrying AA |
| MessageFactory.FactoryPongWrite | tests/test_message_factory.py:35-42 | a pong carrying BB is `01 02 BB` |
| Crc.CrcBytes | silvair_uart_common_libs/uart_common_classes.py:300-308 | the checksum is 2 bytes |
| Crc.Crc16 | silvair_uart_common_libs/uart_common_classes.py:283-308 | the checksum fits 16 bits and is the little-endian value of its 2 bytes |
| Crc.UpdateAppend | silvair_uart_common_libs/uart_common_classes.py:294-297 | the checksum of a + b continues from the register after a |
| Crc.ReferenceFrameChecksum | tests/test_uart.py:7-10 | the checksum of `01 01 22` is 0x88DB, sent as `DB 88` |
| UartFrames.FromFirstPreambleSpec | silvair_uart_common_libs/uart_common_classes.py:319-321 | the data from its first preamble on: a suffix, starting with the preamble, with none earlier, empty exactly when there is no preamble |
| UartFrames.SkipToPreambleSuffix | silvair_uart_common_libs/uart_common_classes.py:311-326 | `eat_bytes_until_preamble` returns a suffix of its input |
| UartFrames.SkipToPreambleSpec | silvair_uart_common_libs/uart_common_classes.py:311-326 | with a preamble, the result starts at the first one; without one, it is the whole input |
| UartFrames.SkipAtPreamble | silvair_uart_common_libs/uart_common_classes.py:320 | data that starts with the preamble is returned unchanged |
| UartFrames.EatBytesUntilPreamble | silvair_uart_common_libs/uart_common_classes.py:311-326 | the popping loop returns what `SkipToPreamble` says |
| UartFrames.WireFrame | silvair_uart_common_libs/uart_common_classes.py:207-211 | a framed frame is 4 bytes longer and starts with the preamble |
| UartFrames.ExtractFrames | silvair_uart_common_libs/uart_common_classes.py:248-281 | the remaining data is never longer than the input |
| UartFrames.ExtractedFramesValid | silvair_uart_common_libs/uart_common_classes.py:262-275 | every extracted frame's LEN byte counts the bytes after its opcode |
| UartFrames.ExtractedFramesChecked | silvair_uart_common_libs/uart_common_classes.py:266-279 | every extracted frame occurs in the input immediately followed by its own CRC bytes |
| UartFrames.LeftoverIsSuffix | silvair_uart_common_libs/uart_common_classes.py:257-281 | the remaining data is a suffix of the input |
| UartFrames.Incomplete | silvair_uart_common_libs/uart_common_classes.py:259-264 | an aligned buffer shorter than its frame yields nothing and is kept whole |
| UartFrames.CrcMismatch | silvair_uart_common_libs/uart_common_classes.py:266-281 | a complete frame with a wrong CRC yields no frames and the data after it |
| UartFrames.ExtractWireFrame | silvair_uart_common_libs/uart_common_classes.py:266-279 | a framed frame followed by anything yields the frame, then what the rest yields |
| UartFrames.ExtractWireFrames | silvair_uart_common_libs/uart_common_classes.py:274-279 | frames sent back to back come out in order, followed by what the rest yields |
| UartFrames.ExtractOneFrame | silvair_uart_common_libs/uart_common_classes.py:197-212 | one framed frame yields itself and leaves nothing |
| UartFrames.Reassembly | silvair_uart_common_libs/uart_common_classes.py:235-243 | a frame cut at any point before its end yields nothing and is kept, then yields the frame once the rest arrives |
| UartFrames.PartialPreamble | silvair_uart_common_libs/uart_common_classes.py:311-326 | fewer than two bytes yield nothing and are kept whole |
| UartFrames.ReferenceWire | tests/test_uart.py:8-10 | `01 01 22` framed is `AA 55 01 01 22 DB 88` |
| UartFrames.EmptyBuffer | tests/test_uart.py:21-23 | the empty buffer yields nothing |
| UartFrames.OneAndHalfFrame | tests/test_uart.py:13-15 | a frame and a half yields the frame and keeps the half |
| UartFrames.TwoFrames | tests/test_uart.py:17-19 | two frames yield both and leave nothing |
| UartFrames.NoPreambleStillParsed | silvair_uart_common_libs/uart_common_classes.py:319-326 | `00 00 01 01 22 DB 88` yields the frame `01 01 22` |
| UartAdapters.Remove | silvair_uart_common_libs/uart_common_classes.py:186 | `list.remove` drops one element when present, keeps every other observer, adds none |
| UartAdapters.RemoveDistinct | silvair_uart_common_libs/uart_common_classes.py:175-186 | removing from a list without repeats leaves no repeats and no trace of the observer |
| UartAdapters.NotifyAllAppend | silvair_uart_common_libs/uart_common_classes.py:242-243 | one frame more appends that frame's notifications |
| UartAdapters.LoopbackDelivery | silvair_uart_common_libs/uart_common_classes.py:207-243 | a written frame read back notifies each observer once and leaves nothing buffered |
| UartAdapters.SplitDelivery | silvair_uart_common_libs/uart_common_classes.py:235-243 | a frame split at any point across two reads is announced only by the second pass |
| UartAdapters.StreamDelivery | silvair_uart_common_libs/uart_common_classes.py:235-243 | frames sent back to back are announced in order |
| UartAdapters.UartAdapter.constructor | silvair_uart_common_libs/uart_common_classes.py:153 | a new adapter has no observers and nothing buffered or queued |
| UartAdapters.UartAdapter.RegisterObserver | silvair_uart_common_libs/uart_common_classes.py:167-176 | appends the observer unless present; no observer is ever listed twice |
| UartAdapters.UartAdapter.UnregisterObserver | silvair_uart_common_libs/uart_common_classes.py:178-186 | removes the observer, reports absence (ValueError), keeps the list free of repeats |
| UartAdapters.UartAdapter.InsertParsedFrame | silvair_uart_common_libs/uart_common_classes.py:188-195 | notifies every observer of the frame, in list order |
| UartAdapters.UartAdapter.WriteUartFrame | silvair_uart_common_libs/uart_common_classes.py:197-212 | queues the frame raw, or with preamble and CRC |
| UartAdapters.UartAdapter.ProcessChunk | silvair_uart_common_libs/uart_common_classes.py:235-243 | the buffer becomes what `extract_frames` leaves of buffer + chunk, and every frame extracted is announced |
| UartAdapters.UartAdapter.InsertParsedFrames | silvair_uart_common_libs/uart_common_classes.py:242-243 | each frame in turn is announced to every observer |
| EndToEnd.SerializedIsFrame | silvair_uart_common_libs/message_factory.py:60-69 | a serialized message's LEN byte counts the bytes after its opcode |
| EndToEnd.MessageOverTheWire | silvair_uart_common_libs/uart_common_classes.py:197-281 | a serialized message framed and extracted is one frame, nothing left, and deserializes to itself |

## Left out

- `UartConnectionThread` is not modelled: the serial port, its baud rate, and `change_baudrate`. The
  `run` loop's input is the chunk passed to `ProcessChunk`, and the output queue is a sequence.
- Threads, `threading.Event`, `stop`, queue timeouts and the `queue.Empty` path are not modelled.
  A pass of `run` with no data changes nothing, so it is not modelled either.
- Logging, `print` and every `__str__` are not modelled because they produce no data.
- The `isinstance` and `type` asserts on arguments are not modelled. The model's parameter types
  already rule out the values they reject.
- `crcmod` is not modelled. The checksum is computed bit by bit with the same parameters.
- The table-driven CRC, the equivalence of the two CRC computations, and CRC error-detection
  properties are not stated.
- What `new_frame_notification` does inside an observer is not modelled. The model records each
  call in `notified`. Exceptions raised by observers and changes they make to the observer list
  are not modelled.
- The `Serializable` base class in `message_types.py` is not modelled because it only declares
  the two methods.
- Python's recursion limit in `extract_frames` is not modelled.
- Enum-typed message fields and model identifiers can hold only members of their enum. Python's
  `serialize` writes any integer that `to_bytes` accepts, whatever the field's enum.
- A `ModelDesc` whose `model_id` is None, the default of `ModelDesc()` at message_types.py:126,
  is not modelled. Its `serialize` raises AttributeError.
- MessageStreams.WriteMessage: requires the stream to be positioned at its end. Every caller in
  the library writes to a fresh `io.BytesIO()`.
- UartFrames.ExtractFrames: its own contract states only that the remaining data gets no longer.
  That the remaining data is a suffix of the input and that every frame is valid are separate
  lemmas: `LeftoverIsSuffix` and `ExtractedFramesValid`.
