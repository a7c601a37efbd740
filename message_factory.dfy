/**
  `message_factory.py`: the table from opcodes to message classes (`UART_CLASSES`) and the
  two entry points `serialize_message` and `deserialize_message`.
*/
module MessageFactory {
  import opened Wrappers
  import opened Bytes
  import opened ByteStream
  import opened UartCommands
  import opened Messages
  import opened MessageProperties
  import MessageStreams
  import MessageVectors

  /**
    `UART_CLASSES[opcode]`: the command whose class handles that opcode byte. Every command
    has a class except OpcodeError; the class itself is the one `NewMessage` constructs.
    The dictionary's keys are `UartCommand` members, which hash and compare as their integer
    values, so the lookup with the raw byte finds them.
  */
  function UartClass(opcode: int): (r: Option<UartCommand>)
    ensures r.Some? ==> r.value != OpcodeError && r.value.Value() == opcode
  {
    if opcode < 0x10 then UartClassBelow10(opcode)
    else if opcode < 0x80 then UartClassBelow80(opcode)
    else if opcode < 0x87 then UartClassBelow87(opcode)
    else UartClassFrom87(opcode)
  }

  /** The table's entries for the opcodes below 0x10. */
  function UartClassBelow10(opcode: int): (r: Option<UartCommand>)
    requires opcode < 0x10
    ensures r.Some? ==> r.value != OpcodeError && r.value.Value() == opcode
  {
    match opcode
    case 0x01 => Some(PingRequest)
    case 0x02 => Some(PongResponse)
    case 0x03 => Some(InitDeviceEvent)
    case 0x04 => Some(CreateInstancesRequest)
    case 0x05 => Some(CreateInstancesResponse)
    case 0x06 => Some(InitNodeEvent)
    case 0x07 => Some(MeshMessageRequest)
    case 0x09 => Some(StartNodeRequest)
    case 0x0B => Some(StartNodeResponse)
    case 0x0C => Some(FactoryResetRequest)
    case 0x0D => Some(FactoryResetResponse)
    case 0x0E => Some(FactoryResetEvent)
    case 0x0F => Some(MeshMessageResponse)
    case _ => None
  }

  /** The table's entries for the opcodes from 0x10 to 0x7F. */
  function UartClassBelow80(opcode: int): (r: Option<UartCommand>)
    requires 0x10 <= opcode < 0x80
    ensures r.Some? ==> r.value != OpcodeError && r.value.Value() == opcode
  {
    match opcode
    case 0x10 => Some(CurrentStateRequest)
    case 0x11 => Some(CurrentStateResponse)
    case 0x12 => Some(UartCommand.Error)
    case 0x13 => Some(FirmwareVersionRequest)
    case 0x14 => Some(FirmwareVersionResponse)
    case 0x15 => Some(SensorUpdateRequest)
    case 0x16 => Some(UartCommand.AttentionEvent)
    case 0x17 => Some(SoftResetRequest)
    case 0x18 => Some(SoftResetResponse)
    case 0x19 => Some(SensorUpdateResponse)
    case 0x1A => Some(DeviceUUIDRequest)
    case 0x1B => Some(DeviceUUIDResponse)
    case 0x20 => Some(UartCommand.StartTestRequest)
    case 0x21 => Some(UartCommand.StartTestResponse)
    case _ => None
  }

  /** The table's entries for the opcodes from 0x80 to 0x86: the first DFU commands. */
  function UartClassBelow87(opcode: int): (r: Option<UartCommand>)
    requires 0x80 <= opcode < 0x87
    ensures r.Some? ==> r.value != OpcodeError && r.value.Value() == opcode
  {
    match opcode
    case 0x80 => Some(DfuInitRequest)
    case 0x81 => Some(DfuInitResponse)
    case 0x82 => Some(DfuStatusRequest)
    case 0x83 => Some(DfuStatusResponse)
    case 0x84 => Some(DfuPageCreateRequest)
    case 0x85 => Some(DfuPageCreateResponse)
    case 0x86 => Some(DfuWriteDataEvent)
    case _ => None
  }

  /** The table's entries from opcode 0x87 on: the other DFU commands and Generic. */
  function UartClassFrom87(opcode: int): (r: Option<UartCommand>)
    requires opcode >= 0x87
    ensures r.Some? ==> r.value != OpcodeError && r.value.Value() == opcode
  {
    match opcode
    case 0x87 => Some(DfuPageStoreRequest)
    case 0x88 => Some(DfuPageStoreResponse)
    case 0x89 => Some(DfuStateRequest)
    case 0x8A => Some(DfuStateResponse)
    case 0x8B => Some(DfuCancelRequest)
    case 0x8C => Some(DfuCancelResponse)
    case 0xFF => Some(Generic)
    case _ => None
  }

  /** Every command but OpcodeError is a key of the table, under its own opcode. */
  lemma UartClassOf(t: UartCommand)
    requires t != OpcodeError
    ensures UartClass(t.Value()) == Some(t)
  {
  }

  /** An opcode has no class exactly when it is OpcodeError's or no command's. */
  lemma UartClassMissing(opcode: int)
    ensures UartClass(opcode).None? <==>
            opcode == OpcodeError.Value() || forall t: UartCommand :: t.Value() != opcode
  {
    if UartClass(opcode).None? && opcode != OpcodeError.Value() {
      forall t: UartCommand
        ensures t.Value() != opcode
      {
        if t != OpcodeError {
          UartClassOf(t);
        }
      }
    }
  }

  /**
    `serialize_message`: the bytes `msg.serialize` writes into a fresh stream, or the
    exception it raises (the partly written stream is then lost).
  */
  function SerializeMessage(m: Message): (r: Result<seq<uint8>, Exception>)
    ensures r.Success? <==> !m.GenericMessage? && GetLength(m) < 256 && FieldsFit(m)
    ensures m.GenericMessage? ==> r == Failure(AssertionError)
    ensures !m.GenericMessage? && GetLength(m) >= 256 ==> r == Failure(OverflowError)
  {
    SerializeSucceedsIff(m, []);
    if m.GenericMessage? then SerializeGeneric([]); Failure(AssertionError)
    else if GetLength(m) >= 256 then SerializeOverflow(m, []); Failure(OverflowError)
    else
      var o := Serialize(m, Out([], None));
      if o.error.None? then Success(o.bytes) else Failure(o.error.value)
  }

  /**
    `deserialize_message`: InvalidLen when there is no opcode byte, InvalidOpcode when the
    opcode has no class, otherwise a fresh object of that class filled in by `deserialize`
    from the start of the data. Bytes after the message are ignored.
  */
  function DeserializeMessage(data: seq<uint8>): (r: Result<Message, Exception>)
    ensures |data| < 2 ==> r == Failure(InvalidLen)
    ensures |data| >= 2 && UartClass(data[1] as int).None? ==> r == Failure(InvalidOpcode)
  {
    if |data| < 2 then Failure(InvalidLen)
    else
      match UartClass(data[1] as int)
      case None => Failure(InvalidOpcode)
      case Some(t) =>
        match Deserialize(NewMessage(t).value, Cursor(data, 0))
        case Failure(e) => Failure(e)
        case Success((m, _)) => Success(m)
  }

  /** `serialize_message` as the source runs it, on a fresh `io.BytesIO`. */
  method WriteMessageBytes(m: Message) returns (r: Result<seq<uint8>, Exception>)
    ensures r == SerializeMessage(m)
  {
    var s := new BytesIO([]);
    var err := MessageStreams.WriteMessage(m, s);
    if err.Some? {
      return Failure(err.value);
    }
    return Success(s.buf);
  }

  /** `deserialize_message` as the source runs it, on a fresh `io.BytesIO(data)`. */
  method ReadMessageBytes(data: seq<uint8>) returns (r: Result<Message, Exception>)
    ensures r == DeserializeMessage(data)
  {
    if |data| < 2 {
      return Failure(InvalidLen);
    }
    var t := UartClass(data[1] as int);
    if t.None? {
      return Failure(InvalidOpcode);
    }
    var s := new BytesIO(data);
    var msg := NewMessage(t.value).value;
    r := MessageStreams.ReadMessage(msg, s);
  }

  /**
    Every message `serialize` can write and `deserialize` can read back survives the
    factory: `deserialize_message(serialize_message(m)) == m`, followed by any bytes.
  */
  lemma FactoryRoundTrip(m: Message, tail: seq<uint8>)
    requires WellFormed(m)
    ensures SerializeMessage(m).Success?
    ensures |SerializeMessage(m).value| == 2 + GetLength(m)
    ensures DeserializeMessage(SerializeMessage(m).value + tail) == Success(m)
  {
    RoundTrip(m, [], tail);
    var o := Serialize(m, Out([], None));
    SerializeMessageWritten(m);
    FactoryReads(m, o.bytes, tail);
  }

  /** When `serialize` raises nothing, the factory returns what it wrote. */
  lemma SerializeMessageWritten(m: Message)
    requires Serialize(m, Out([], None)).error.None?
    ensures SerializeMessage(m) == Success(Serialize(m, Out([], None)).bytes)
  {
  }

  /** The factory reads back what the class of the opcode written reads back. */
  lemma FactoryReads(m: Message, b: seq<uint8>, tail: seq<uint8>)
    requires |b| >= 2 && b[1] as int == Type(m).Value()
    requires Deserialize(NewMessage(Type(m)).value, Cursor(b + tail, 0)) == Success((m, Cursor(b + tail, |b|)))
    ensures DeserializeMessage(b + tail) == Success(m)
  {
    var data := b + tail;
    assert data[1] == b[1];
    UartClassOf(Type(m));
    DeserializeMessageOf(data, Type(m));
  }

  /** Once the opcode has found its class, the factory is that class's `deserialize`. */
  lemma DeserializeMessageOf(data: seq<uint8>, t: UartCommand)
    requires |data| >= 2 && UartClass(data[1] as int) == Some(t)
    ensures DeserializeMessage(data) ==
            match Deserialize(NewMessage(t).value, Cursor(data, 0))
            case Failure(e) => Failure(e)
            case Success((m, _)) => Success(m)
  {
  }

  /** The opcode of OpcodeError has no class: the factory raises InvalidOpcode for it. */
  lemma OpcodeErrorRejected(data: seq<uint8>)
    requires |data| >= 2 && data[1] == 0x08
    ensures DeserializeMessage(data) == Failure(InvalidOpcode)
  {
  }

  /** The generic message is in the table, but its `deserialize` fails its assertion. */
  lemma GenericRejected(data: seq<uint8>)
    requires |data| >= 2 && data[1] == 0xFF
    ensures DeserializeMessage(data) == Failure(AssertionError)
  {
  }

  // ---------------------------------------------------------------------------------------
  // The factory's own examples

  /** `01 01 AA` through the factory is a ping carrying 0xAA. */
  lemma FactoryPingRead()
    ensures DeserializeMessage([0x01, 0x01, 0xAA]) == Success(PingRequestMessage([0xAA]))
  {
    MessageVectors.PingRead();
    DeserializeMessageOf([0x01, 0x01, 0xAA], PingRequest);
  }

  /** `01 02 AA` through the factory is a pong carrying 0xAA. */
  lemma FactoryPongRead()
    ensures DeserializeMessage([0x01, 0x02, 0xAA]) == Success(PongResponseMessage([0xAA]))
  {
    var data: seq<uint8> := [0x01, 0x02, 0xAA];
    DeserializeHeader(PongResponseMessage([]), 1, data, 0);
    assert data[2..3] == [0xAA];
    DeserializeMessageOf(data, PongResponse);
  }

  /** A ping carrying 0xBB comes out of the factory as `01 01 BB`. */
  lemma FactoryPingWrite()
    ensures SerializeMessage(PingRequestMessage([0xBB])) == Success([0x01, 0x01, 0xBB])
  {
    MessageVectors.PingWrite();
    SerializeMessageWritten(PingRequestMessage([0xBB]));
  }

  /** A pong carrying 0xBB comes out of the factory as `01 02 BB`. */
  lemma FactoryPongWrite()
    ensures SerializeMessage(PongResponseMessage([0xBB])) == Success([0x01, 0x02, 0xBB])
  {
    MessageVectors.PongWrite();
    SerializeMessageWritten(PongResponseMessage([0xBB]));
  }
}
