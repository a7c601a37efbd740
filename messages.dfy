/** The command opcodes of the UART protocol (`UartCommand` in `messages.py`). */
module UartCommands {
  import opened Wrappers

  datatype UartCommand =
    | PingRequest | PongResponse | InitDeviceEvent | CreateInstancesRequest
    | CreateInstancesResponse | InitNodeEvent | MeshMessageRequest | OpcodeError
    | StartNodeRequest | StartNodeResponse | FactoryResetRequest | FactoryResetResponse
    | FactoryResetEvent | MeshMessageResponse | CurrentStateRequest | CurrentStateResponse
    | Error | FirmwareVersionRequest | FirmwareVersionResponse | SensorUpdateRequest
    | AttentionEvent | SoftResetRequest | SoftResetResponse | SensorUpdateResponse
    | DeviceUUIDRequest | DeviceUUIDResponse | StartTestRequest | StartTestResponse
    | DfuInitRequest | DfuInitResponse | DfuStatusRequest | DfuStatusResponse
    | DfuPageCreateRequest | DfuPageCreateResponse | DfuWriteDataEvent | DfuPageStoreRequest
    | DfuPageStoreResponse | DfuStateRequest | DfuStateResponse | DfuCancelRequest
    | DfuCancelResponse | Generic
  {
    /** The opcode byte. */
    function Value(): (v: int)
      ensures 0 <= v < 256
    {
      match this
      case PingRequest => 0x01
      case PongResponse => 0x02
      case InitDeviceEvent => 0x03
      case CreateInstancesRequest => 0x04
      case CreateInstancesResponse => 0x05
      case InitNodeEvent => 0x06
      case MeshMessageRequest => 0x07
      case OpcodeError => 0x08
      case StartNodeRequest => 0x09
      case StartNodeResponse => 0x0B
      case FactoryResetRequest => 0x0C
      case FactoryResetResponse => 0x0D
      case FactoryResetEvent => 0x0E
      case MeshMessageResponse => 0x0F
      case CurrentStateRequest => 0x10
      case CurrentStateResponse => 0x11
      case Error => 0x12
      case FirmwareVersionRequest => 0x13
      case FirmwareVersionResponse => 0x14
      case SensorUpdateRequest => 0x15
      case AttentionEvent => 0x16
      case SoftResetRequest => 0x17
      case SoftResetResponse => 0x18
      case SensorUpdateResponse => 0x19
      case DeviceUUIDRequest => 0x1A
      case DeviceUUIDResponse => 0x1B
      case StartTestRequest => 0x20
      case StartTestResponse => 0x21
      case DfuInitRequest => 0x80
      case DfuInitResponse => 0x81
      case DfuStatusRequest => 0x82
      case DfuStatusResponse => 0x83
      case DfuPageCreateRequest => 0x84
      case DfuPageCreateResponse => 0x85
      case DfuWriteDataEvent => 0x86
      case DfuPageStoreRequest => 0x87
      case DfuPageStoreResponse => 0x88
      case DfuStateRequest => 0x89
      case DfuStateResponse => 0x8A
      case DfuCancelRequest => 0x8B
      case DfuCancelResponse => 0x8C
      case Generic => 0xFF
    }
  }
}

/**
  The UART messages of `messages.py`: one constructor per message class, carrying that
  class's fields, and the specification of `get_length`, `__eq__`, `serialize` and
  `deserialize`. Every message is `LEN | OPCODE | fields`, with LEN the length of the fields.

  Python's integer fields are unbounded and may be negative, so they are `int` here;
  serialization raises OverflowError for a value that does not fit its width.
*/
module Messages {
  import opened Wrappers
  import opened Bytes
  import opened ByteStream
  import opened MessageTypes
  import opened UartCommands
  import ErrorCodes

  // Field widths, in bytes.
  const CmdLen: nat := 1
  const LengthLen: nat := 1
  const InstanceIndexLen: nat := 1
  const SubIndexLen: nat := 1
  const MeshOpcodeLen: nat := 2
  const ModemStateLen: nat := 1
  const ErrorIdLen: nat := 1
  const PropertyIdLen: nat := 2
  const AttentionEventLen: nat := 1
  const UuidLen: nat := 16
  const DfuFirmwareSizeLen: nat := 4
  const DfuFirmwareCrcLen: nat := 4
  const DfuAppDataLengthLen: nat := 1
  const DfuStatusLen: nat := 1
  const DfuSupportedPageSizeLen: nat := 4
  const DfuFirmwareOffsetLen: nat := 4
  const RequestedPageSizeLen: nat := 4
  const DfuDataLengthLen: nat := 1
  const DfuFirmwareSha256Len: nat := 32
  const DfuPreValidationStatusLen: nat := 1
  const CompanyIdLen: nat := 2
  const TestIdLen: nat := 1

  datatype Message =
    | PingRequestMessage(data: seq<uint8>)
    | PongResponseMessage(data: seq<uint8>)
    | InitDeviceEventMessage(modelIds: seq<ModelID>)
    | CreateInstancesRequestMessage(modelDescs: seq<ModelDesc>)
    | CreateInstancesResponseMessage(modelIds: seq<ModelID>)
    | InitNodeEventMessage(modelIds: seq<ModelID>)
    | MeshMessageRequestMessage(instanceIndex: int, subIndex: int, meshOpcode: int, meshCommand: seq<uint8>)
    | StartNodeRequestMessage
    | StartNodeResponseMessage
    | FactoryResetRequestMessage
    | FactoryResetResponseMessage
    | FactoryResetEventMessage
    | MeshMessageResponseMessage(instanceIndex: int, subIndex: int)
    | CurrentStateRequestMessage
    | CurrentStateResponseMessage(state: ModemState)
    | ErrorMessage(error: ErrorCodes.Error)
    | FirmwareVersionRequestMessage
    | FirmwareVersionResponseMessage(firmwareVersion: seq<uint8>)
    | SensorUpdateRequestMessage(instanceIndex: int, propertyId: int, data: seq<uint8>)
    | AttentionEventMessage(attention: AttentionEvent)
    | SoftResetRequestMessage
    | SoftResetResponseMessage
    | SensorUpdateResponseMessage
    | DeviceUUIDRequestMessage
    | DeviceUUIDResponseMessage(uuid: seq<uint8>)
    | DfuInitRequestMessage(firmwareSize: int, firmwareSha256: seq<uint8>, appDataLength: int, appData: seq<uint8>)
    | DfuInitResponseMessage(status: DFUStatus)
    | DfuStatusRequestMessage
    | DfuStatusResponseMessage(status: DFUStatus, supportedPageSize: int, firmwareOffset: int, firmwareCrc: int)
    | DfuPageCreateRequestMessage(requestedPageSize: int)
    | DfuPageCreateResponseMessage(status: DFUStatus)
    | DfuWriteDataEventMessage(dataLen: int, data: seq<uint8>)
    | DfuPageStoreRequestMessage
    | DfuPageStoreResponseMessage(status: DFUStatus)
    | DfuStateRequestMessage
    | DfuStateResponseMessage(preValidationStatus: DfuStatus)
    | DfuCancelRequestMessage
    | DfuCancelResponseMessage
    | StartTestRequest(companyId: int, testId: int, instanceIndex: int)
    | StartTestResponse
    | GenericMessage

  /** The `type` each class's constructor sets. */
  function Type(m: Message): (t: UartCommand)
    ensures t != OpcodeError
    ensures t == Generic <==> m.GenericMessage?
  {
    match m
    case PingRequestMessage(_) => PingRequest
    case PongResponseMessage(_) => PongResponse
    case InitDeviceEventMessage(_) => InitDeviceEvent
    case CreateInstancesRequestMessage(_) => CreateInstancesRequest
    case CreateInstancesResponseMessage(_) => CreateInstancesResponse
    case InitNodeEventMessage(_) => InitNodeEvent
    case MeshMessageRequestMessage(_, _, _, _) => MeshMessageRequest
    case StartNodeRequestMessage => StartNodeRequest
    case StartNodeResponseMessage => StartNodeResponse
    case FactoryResetRequestMessage => FactoryResetRequest
    case FactoryResetResponseMessage => FactoryResetResponse
    case FactoryResetEventMessage => FactoryResetEvent
    case MeshMessageResponseMessage(_, _) => MeshMessageResponse
    case CurrentStateRequestMessage => CurrentStateRequest
    case CurrentStateResponseMessage(_) => CurrentStateResponse
    case ErrorMessage(_) => Error
    case FirmwareVersionRequestMessage => FirmwareVersionRequest
    case FirmwareVersionResponseMessage(_) => FirmwareVersionResponse
    case SensorUpdateRequestMessage(_, _, _) => SensorUpdateRequest
    case AttentionEventMessage(_) => AttentionEvent
    case SoftResetRequestMessage => SoftResetRequest
    case SoftResetResponseMessage => SoftResetResponse
    case SensorUpdateResponseMessage => SensorUpdateResponse
    case DeviceUUIDRequestMessage => DeviceUUIDRequest
    case DeviceUUIDResponseMessage(_) => DeviceUUIDResponse
    case DfuInitRequestMessage(_, _, _, _) => DfuInitRequest
    case DfuInitResponseMessage(_) => DfuInitResponse
    case DfuStatusRequestMessage => DfuStatusRequest
    case DfuStatusResponseMessage(_, _, _, _) => DfuStatusResponse
    case DfuPageCreateRequestMessage(_) => DfuPageCreateRequest
    case DfuPageCreateResponseMessage(_) => DfuPageCreateResponse
    case DfuWriteDataEventMessage(_, _) => DfuWriteDataEvent
    case DfuPageStoreRequestMessage => DfuPageStoreRequest
    case DfuPageStoreResponseMessage(_) => DfuPageStoreResponse
    case DfuStateRequestMessage => DfuStateRequest
    case DfuStateResponseMessage(_) => DfuStateResponse
    case DfuCancelRequestMessage => DfuCancelRequest
    case DfuCancelResponseMessage => DfuCancelResponse
    case StartTestRequest(_, _, _) => UartCommand.StartTestRequest
    case StartTestResponse => UartCommand.StartTestResponse
    case GenericMessage => Generic
  }

  /** `n` zero bytes: Python's `bytes(n)`. */
  function Zeros(n: nat): (r: seq<uint8>)
    ensures |r| == n && forall i :: 0 <= i < n ==> r[i] == 0
  {
    seq(n, _ => 0)
  }

  /**
    The object the constructor of the class whose type is t creates, with every field at the
    default its `__init__` gives it; None for OpcodeError, which no class has.
  */
  function NewMessage(t: UartCommand): (r: Option<Message>)
    ensures r.Some? <==> t != OpcodeError
  {
    match t
    case PingRequest => Some(PingRequestMessage([]))
    case PongResponse => Some(PongResponseMessage([]))
    case InitDeviceEvent => Some(InitDeviceEventMessage([]))
    case CreateInstancesRequest => Some(CreateInstancesRequestMessage([]))
    case CreateInstancesResponse => Some(CreateInstancesResponseMessage([]))
    case InitNodeEvent => Some(InitNodeEventMessage([]))
    case MeshMessageRequest => Some(MeshMessageRequestMessage(0, 0, 0, []))
    case OpcodeError => None
    case StartNodeRequest => Some(StartNodeRequestMessage)
    case StartNodeResponse => Some(StartNodeResponseMessage)
    case FactoryResetRequest => Some(FactoryResetRequestMessage)
    case FactoryResetResponse => Some(FactoryResetResponseMessage)
    case FactoryResetEvent => Some(FactoryResetEventMessage)
    case MeshMessageResponse => Some(MeshMessageResponseMessage(0, 0))
    case CurrentStateRequest => Some(CurrentStateRequestMessage)
    case CurrentStateResponse => Some(CurrentStateResponseMessage(ModemState.Unknown))
    case Error => Some(ErrorMessage(ErrorCodes.InvalidCRC))
    case FirmwareVersionRequest => Some(FirmwareVersionRequestMessage)
    case FirmwareVersionResponse => Some(FirmwareVersionResponseMessage([]))
    case SensorUpdateRequest => Some(SensorUpdateRequestMessage(0, 0, []))
    case AttentionEvent => Some(AttentionEventMessage(AttentionEvent.Off))
    case SoftResetRequest => Some(SoftResetRequestMessage)
    case SoftResetResponse => Some(SoftResetResponseMessage)
    case SensorUpdateResponse => Some(SensorUpdateResponseMessage)
    case DeviceUUIDRequest => Some(DeviceUUIDRequestMessage)
    case DeviceUUIDResponse => Some(DeviceUUIDResponseMessage(Zeros(UuidLen)))
    case StartTestRequest => Some(Message.StartTestRequest(0, 0, 0))
    case StartTestResponse => Some(Message.StartTestResponse)
    case DfuInitRequest => Some(DfuInitRequestMessage(0, Zeros(DfuFirmwareSha256Len), 0, []))
    case DfuInitResponse => Some(DfuInitResponseMessage(DFU_INVALID_CODE))
    case DfuStatusRequest => Some(DfuStatusRequestMessage)
    case DfuStatusResponse => Some(DfuStatusResponseMessage(DFU_INVALID_CODE, 0, 0, 0))
    case DfuPageCreateRequest => Some(DfuPageCreateRequestMessage(0))
    case DfuPageCreateResponse => Some(DfuPageCreateResponseMessage(DFU_INVALID_CODE))
    case DfuWriteDataEvent => Some(DfuWriteDataEventMessage(0, []))
    case DfuPageStoreRequest => Some(DfuPageStoreRequestMessage)
    case DfuPageStoreResponse => Some(DfuPageStoreResponseMessage(DFU_INVALID_CODE))
    case DfuStateRequest => Some(DfuStateRequestMessage)
    case DfuStateResponse => Some(DfuStateResponseMessage(NotInProgress))
    case DfuCancelRequest => Some(DfuCancelRequestMessage)
    case DfuCancelResponse => Some(DfuCancelResponseMessage)
    case Generic => Some(GenericMessage)
  }

  /** Each constructor sets the `type` of its own class. */
  lemma NewMessageType(t: UartCommand)
    requires t != OpcodeError
    ensures Type(NewMessage(t).value) == t
  {
    match t
    case PingRequest => assert Type(NewMessage(UartCommand.PingRequest).value) == UartCommand.PingRequest;
    case PongResponse => assert Type(NewMessage(UartCommand.PongResponse).value) == UartCommand.PongResponse;
    case InitDeviceEvent => assert Type(NewMessage(UartCommand.InitDeviceEvent).value) == UartCommand.InitDeviceEvent;
    case CreateInstancesRequest => assert Type(NewMessage(UartCommand.CreateInstancesRequest).value) == UartCommand.CreateInstancesRequest;
    case CreateInstancesResponse => assert Type(NewMessage(UartCommand.CreateInstancesResponse).value) == UartCommand.CreateInstancesResponse;
    case InitNodeEvent => assert Type(NewMessage(UartCommand.InitNodeEvent).value) == UartCommand.InitNodeEvent;
    case MeshMessageRequest => assert Type(NewMessage(UartCommand.MeshMessageRequest).value) == UartCommand.MeshMessageRequest;
    case StartNodeRequest => assert Type(NewMessage(UartCommand.StartNodeRequest).value) == UartCommand.StartNodeRequest;
    case StartNodeResponse => assert Type(NewMessage(UartCommand.StartNodeResponse).value) == UartCommand.StartNodeResponse;
    case FactoryResetRequest => assert Type(NewMessage(UartCommand.FactoryResetRequest).value) == UartCommand.FactoryResetRequest;
    case FactoryResetResponse => assert Type(NewMessage(UartCommand.FactoryResetResponse).value) == UartCommand.FactoryResetResponse;
    case FactoryResetEvent => assert Type(NewMessage(UartCommand.FactoryResetEvent).value) == UartCommand.FactoryResetEvent;
    case MeshMessageResponse => assert Type(NewMessage(UartCommand.MeshMessageResponse).value) == UartCommand.MeshMessageResponse;
    case CurrentStateRequest => assert Type(NewMessage(UartCommand.CurrentStateRequest).value) == UartCommand.CurrentStateRequest;
    case CurrentStateResponse => assert Type(NewMessage(UartCommand.CurrentStateResponse).value) == UartCommand.CurrentStateResponse;
    case Error => assert Type(NewMessage(UartCommand.Error).value) == UartCommand.Error;
    case FirmwareVersionRequest => assert Type(NewMessage(UartCommand.FirmwareVersionRequest).value) == UartCommand.FirmwareVersionRequest;
    case FirmwareVersionResponse => assert Type(NewMessage(UartCommand.FirmwareVersionResponse).value) == UartCommand.FirmwareVersionResponse;
    case SensorUpdateRequest => assert Type(NewMessage(UartCommand.SensorUpdateRequest).value) == UartCommand.SensorUpdateRequest;
    case AttentionEvent => assert Type(NewMessage(UartCommand.AttentionEvent).value) == UartCommand.AttentionEvent;
    case SoftResetRequest => assert Type(NewMessage(UartCommand.SoftResetRequest).value) == UartCommand.SoftResetRequest;
    case SoftResetResponse => assert Type(NewMessage(UartCommand.SoftResetResponse).value) == UartCommand.SoftResetResponse;
    case SensorUpdateResponse => assert Type(NewMessage(UartCommand.SensorUpdateResponse).value) == UartCommand.SensorUpdateResponse;
    case DeviceUUIDRequest => assert Type(NewMessage(UartCommand.DeviceUUIDRequest).value) == UartCommand.DeviceUUIDRequest;
    case DeviceUUIDResponse => assert Type(NewMessage(UartCommand.DeviceUUIDResponse).value) == UartCommand.DeviceUUIDResponse;
    case StartTestRequest => assert Type(NewMessage(UartCommand.StartTestRequest).value) == UartCommand.StartTestRequest;
    case StartTestResponse => assert Type(NewMessage(UartCommand.StartTestResponse).value) == UartCommand.StartTestResponse;
    case DfuInitRequest => assert Type(NewMessage(UartCommand.DfuInitRequest).value) == UartCommand.DfuInitRequest;
    case DfuInitResponse => assert Type(NewMessage(UartCommand.DfuInitResponse).value) == UartCommand.DfuInitResponse;
    case DfuStatusRequest => assert Type(NewMessage(UartCommand.DfuStatusRequest).value) == UartCommand.DfuStatusRequest;
    case DfuStatusResponse => assert Type(NewMessage(UartCommand.DfuStatusResponse).value) == UartCommand.DfuStatusResponse;
    case DfuPageCreateRequest => assert Type(NewMessage(UartCommand.DfuPageCreateRequest).value) == UartCommand.DfuPageCreateRequest;
    case DfuPageCreateResponse => assert Type(NewMessage(UartCommand.DfuPageCreateResponse).value) == UartCommand.DfuPageCreateResponse;
    case DfuWriteDataEvent => assert Type(NewMessage(UartCommand.DfuWriteDataEvent).value) == UartCommand.DfuWriteDataEvent;
    case DfuPageStoreRequest => assert Type(NewMessage(UartCommand.DfuPageStoreRequest).value) == UartCommand.DfuPageStoreRequest;
    case DfuPageStoreResponse => assert Type(NewMessage(UartCommand.DfuPageStoreResponse).value) == UartCommand.DfuPageStoreResponse;
    case DfuStateRequest => assert Type(NewMessage(UartCommand.DfuStateRequest).value) == UartCommand.DfuStateRequest;
    case DfuStateResponse => assert Type(NewMessage(UartCommand.DfuStateResponse).value) == UartCommand.DfuStateResponse;
    case DfuCancelRequest => assert Type(NewMessage(UartCommand.DfuCancelRequest).value) == UartCommand.DfuCancelRequest;
    case DfuCancelResponse => assert Type(NewMessage(UartCommand.DfuCancelResponse).value) == UartCommand.DfuCancelResponse;
    case Generic => assert Type(NewMessage(UartCommand.Generic).value) == UartCommand.Generic;
    case OpcodeError =>
  }

  /** The classes whose only content is LEN = 0 and the opcode. */
  predicate IsZeroPayload(m: Message)
  {
    m.StartNodeRequestMessage? || m.StartNodeResponseMessage? || m.FactoryResetRequestMessage?
    || m.FactoryResetResponseMessage? || m.FactoryResetEventMessage? || m.CurrentStateRequestMessage?
    || m.FirmwareVersionRequestMessage? || m.SoftResetRequestMessage? || m.SoftResetResponseMessage?
    || m.SensorUpdateResponseMessage? || m.DeviceUUIDRequestMessage? || m.DfuStatusRequestMessage?
    || m.DfuPageStoreRequestMessage? || m.DfuStateRequestMessage? || m.DfuCancelRequestMessage?
    || m.DfuCancelResponseMessage? || m.StartTestResponse?
  }

  /** The classes whose payload is a list of 2-byte model identifiers. */
  predicate IsModelIdList(m: Message)
  {
    m.InitDeviceEventMessage? || m.CreateInstancesResponseMessage? || m.InitNodeEventMessage?
  }

  /** The total `get_length` of a list of model descriptions. */
  function DescsLength(ds: seq<ModelDesc>): nat
  {
    if ds == [] then 0 else DescsLength(ds[..|ds| - 1]) + ds[|ds| - 1].GetLength()
  }

  /**
    `get_length`: the length of the fields as the class computes it from its own fields. The
    zero-payload classes and GenericMessage inherit 0.
  */
  function GetLength(m: Message): nat
  {
    match m
    case PingRequestMessage(data) => |data|
    case PongResponseMessage(data) => |data|
    case InitDeviceEventMessage(ids) => ModelIdLen * |ids|
    case CreateInstancesRequestMessage(ds) => DescsLength(ds)
    case CreateInstancesResponseMessage(ids) => ModelIdLen * |ids|
    case InitNodeEventMessage(ids) => ModelIdLen * |ids|
    case MeshMessageRequestMessage(_, _, _, cmd) => InstanceIndexLen + SubIndexLen + MeshOpcodeLen + |cmd|
    case MeshMessageResponseMessage(_, _) => InstanceIndexLen + SubIndexLen
    case CurrentStateResponseMessage(_) => ModemStateLen
    case ErrorMessage(_) => ErrorIdLen
    case FirmwareVersionResponseMessage(v) => |v|
    case SensorUpdateRequestMessage(_, _, data) => InstanceIndexLen + PropertyIdLen + |data|
    case AttentionEventMessage(_) => AttentionEventLen
    case DeviceUUIDResponseMessage(_) => UuidLen
    case DfuInitRequestMessage(_, _, _, ad) =>
      DfuFirmwareSizeLen + DfuFirmwareSha256Len + DfuAppDataLengthLen + |ad|
    case DfuInitResponseMessage(_) => DfuStatusLen
    case DfuStatusResponseMessage(_, _, _, _) =>
      DfuStatusLen + DfuSupportedPageSizeLen + DfuFirmwareOffsetLen + DfuFirmwareCrcLen
    case DfuPageCreateRequestMessage(_) => RequestedPageSizeLen
    case DfuPageCreateResponseMessage(_) => DfuStatusLen
    case DfuWriteDataEventMessage(_, data) => DfuDataLengthLen + |data|
    case DfuPageStoreResponseMessage(_) => DfuStatusLen
    case DfuStateResponseMessage(_) => DfuPreValidationStatusLen
    case StartTestRequest(_, _, _) => CompanyIdLen + TestIdLen + InstanceIndexLen
    case _ => 0
  }

  /**
    `__eq__`: the types agree and then every field the class compares agrees (the
    zero-payload classes compare the type only). It coincides with equality of the model's
    values: the type determines the class, and each class compares all of its fields.
  */
  predicate Eq(a: Message, b: Message)
    ensures Eq(a, b) <==> a == b
  {
    Type(a) == Type(b) &&
    match a
    case PingRequestMessage(d) => b.PingRequestMessage? && d == b.data
    case PongResponseMessage(d) => b.PongResponseMessage? && d == b.data
    case InitDeviceEventMessage(ids) => b.InitDeviceEventMessage? && ids == b.modelIds
    case CreateInstancesRequestMessage(ds) => b.CreateInstancesRequestMessage? && ds == b.modelDescs
    case CreateInstancesResponseMessage(ids) => b.CreateInstancesResponseMessage? && ids == b.modelIds
    case InitNodeEventMessage(ids) => b.InitNodeEventMessage? && ids == b.modelIds
    case MeshMessageRequestMessage(ii, si, op, cmd) =>
      b.MeshMessageRequestMessage? && ii == b.instanceIndex && si == b.subIndex
      && op == b.meshOpcode && cmd == b.meshCommand
    case MeshMessageResponseMessage(ii, si) =>
      b.MeshMessageResponseMessage? && ii == b.instanceIndex && si == b.subIndex
    case CurrentStateResponseMessage(st) => b.CurrentStateResponseMessage? && st == b.state
    case ErrorMessage(e) => b.ErrorMessage? && e == b.error
    case FirmwareVersionResponseMessage(v) => b.FirmwareVersionResponseMessage? && v == b.firmwareVersion
    case SensorUpdateRequestMessage(ii, pid, d) =>
      b.SensorUpdateRequestMessage? && ii == b.instanceIndex && pid == b.propertyId && d == b.data
    case AttentionEventMessage(at) => b.AttentionEventMessage? && at == b.attention
    case DeviceUUIDResponseMessage(u) => b.DeviceUUIDResponseMessage? && u == b.uuid
    case DfuInitRequestMessage(fs, sha, adl, ad) =>
      b.DfuInitRequestMessage? && fs == b.firmwareSize && sha == b.firmwareSha256
      && adl == b.appDataLength && ad == b.appData
    case DfuInitResponseMessage(st) => b.DfuInitResponseMessage? && st == b.status
    case DfuStatusResponseMessage(st, ps, off, crc) =>
      b.DfuStatusResponseMessage? && st == b.status && ps == b.supportedPageSize
      && off == b.firmwareOffset && crc == b.firmwareCrc
    case DfuPageCreateRequestMessage(ps) => b.DfuPageCreateRequestMessage? && ps == b.requestedPageSize
    case DfuPageCreateResponseMessage(st) => b.DfuPageCreateResponseMessage? && st == b.status
    case DfuWriteDataEventMessage(dl, d) => b.DfuWriteDataEventMessage? && dl == b.dataLen && d == b.data
    case DfuPageStoreResponseMessage(st) => b.DfuPageStoreResponseMessage? && st == b.status
    case DfuStateResponseMessage(st) => b.DfuStateResponseMessage? && st == b.preValidationStatus
    case StartTestRequest(cid, tid, ii) =>
      b.StartTestRequest? && cid == b.companyId && tid == b.testId && ii == b.instanceIndex
    case _ => true
  }

  // ---------------------------------------------------------------------------------------
  // serialize

  /** The bytes the loop over `model_ids` writes: each identifier as 2 little-endian bytes. */
  function ModelIdsBytes(ids: seq<ModelID>): seq<uint8>
  {
    if ids == [] then []
    else ModelIdsBytes(ids[..|ids| - 1]) + ToLittleEndian(ids[|ids| - 1].Value(), ModelIdLen)
  }

  /** The bytes the loop over `model_descs` writes: each description serialized in turn. */
  function ModelDescsBytes(ds: seq<ModelDesc>): seq<uint8>
  {
    if ds == [] then []
    else ModelDescsBytes(ds[..|ds| - 1]) + ModelDescBytes(ds[|ds| - 1])
  }

  /** `serialize_common_part`: LEN = `get_length()` as one byte (OverflowError above 255), then the opcode. */
  function SerializeCommonPart(m: Message, o: Out): Out
  {
    o.PutInt(GetLength(m), LengthLen).PutInt(Type(m).Value(), CmdLen)
  }

    /** The classes whose fields are byte strings or lists. */
  predicate IsSequenceClass(m: Message)
  {
    m.PingRequestMessage? || m.PongResponseMessage? || m.InitDeviceEventMessage?
    || m.CreateInstancesRequestMessage? || m.CreateInstancesResponseMessage? || m.InitNodeEventMessage?
    || m.FirmwareVersionResponseMessage? || m.DeviceUUIDResponseMessage?
  }

  /** The classes with several fields. */
  predicate IsRecordClass(m: Message)
  {
    m.MeshMessageRequestMessage? || m.MeshMessageResponseMessage? || m.SensorUpdateRequestMessage?
    || m.DfuInitRequestMessage? || m.DfuStatusResponseMessage? || m.DfuWriteDataEventMessage?
    || m.StartTestRequest?
  }

  /** The classes with a single integer or enum field. */
  predicate IsScalarClass(m: Message)
  {
    m.CurrentStateResponseMessage? || m.ErrorMessage? || m.AttentionEventMessage?
    || m.DfuInitResponseMessage? || m.DfuPageCreateRequestMessage? || m.DfuPageCreateResponseMessage?
    || m.DfuPageStoreResponseMessage? || m.DfuStateResponseMessage?
  }

  /** The part of each class's `serialize` after `serialize_common_part`; classes without fields write nothing. */
  function SerializeFields(m: Message, o: Out): Out
  {
    if IsSequenceClass(m) then SerializeSequenceFields(m, o)
    else if IsRecordClass(m) then SerializeRecordFields(m, o)
    else if IsScalarClass(m) then SerializeScalarFields(m, o)
    else o
  }

  /** The fields of the classes whose fields are byte strings or lists. */
  function SerializeSequenceFields(m: Message, o: Out): Out
    requires IsSequenceClass(m)
  {
    match m
    case PingRequestMessage(data) => o.PutBytes(data)
    case PongResponseMessage(data) => o.PutBytes(data)
    case InitDeviceEventMessage(ids) => o.PutBytes(ModelIdsBytes(ids))
    case CreateInstancesRequestMessage(ds) => o.PutBytes(ModelDescsBytes(ds))
    case CreateInstancesResponseMessage(ids) => o.PutBytes(ModelIdsBytes(ids))
    case InitNodeEventMessage(ids) => o.PutBytes(ModelIdsBytes(ids))
    case FirmwareVersionResponseMessage(v) => o.PutBytes(v)
    case DeviceUUIDResponseMessage(u) => o.PutBytes(u)
  }

  /** The fields of the classes with several fields, in declaration order. */
  function SerializeRecordFields(m: Message, o: Out): Out
    requires IsRecordClass(m)
  {
    match m
    case MeshMessageRequestMessage(ii, si, op, cmd) =>
      o.PutInt(ii, InstanceIndexLen).PutInt(si, SubIndexLen).PutInt(op, MeshOpcodeLen).PutBytes(cmd)
    case MeshMessageResponseMessage(ii, si) => o.PutInt(ii, InstanceIndexLen).PutInt(si, SubIndexLen)
    case SensorUpdateRequestMessage(ii, pid, data) =>
      o.PutInt(ii, InstanceIndexLen).PutInt(pid, PropertyIdLen).PutBytes(data)
    case DfuInitRequestMessage(fs, sha, adl, ad) =>
      o.PutInt(fs, DfuFirmwareSizeLen).PutBytes(sha).PutInt(adl, DfuAppDataLengthLen).PutBytes(ad)
    case DfuStatusResponseMessage(st, ps, off, crc) =>
      o.PutInt(st.Value(), DfuStatusLen).PutInt(ps, DfuSupportedPageSizeLen)
       .PutInt(off, DfuFirmwareOffsetLen).PutInt(crc, DfuFirmwareCrcLen)
    case DfuWriteDataEventMessage(dl, data) => o.PutInt(dl, DfuDataLengthLen).PutBytes(data)
    case StartTestRequest(cid, tid, ii) =>
      o.PutInt(cid, CompanyIdLen).PutInt(tid, TestIdLen).PutInt(ii, InstanceIndexLen)
  }

  /** The field of the classes with a single integer or enum field. */
  function SerializeScalarFields(m: Message, o: Out): Out
    requires IsScalarClass(m)
  {
    match m
    case CurrentStateResponseMessage(st) => o.PutInt(st.Value(), ModemStateLen)
    case ErrorMessage(e) => o.PutInt(e.Value(), ErrorIdLen)
    case AttentionEventMessage(at) => o.PutInt(at.Value(), AttentionEventLen)
    case DfuInitResponseMessage(st) => o.PutInt(st.Value(), DfuStatusLen)
    case DfuPageCreateRequestMessage(ps) => o.PutInt(ps, RequestedPageSizeLen)
    case DfuPageCreateResponseMessage(st) => o.PutInt(st.Value(), DfuStatusLen)
    case DfuPageStoreResponseMessage(st) => o.PutInt(st.Value(), DfuStatusLen)
    case DfuStateResponseMessage(st) => o.PutInt(st.Value(), DfuPreValidationStatusLen)
  }

  /** `serialize`: the common part, then the fields; GenericMessage fails its `assert False`. */
  function Serialize(m: Message, o: Out): Out
  {
    if m.GenericMessage? then o.Raise(AssertionError)
    else SerializeFields(m, SerializeCommonPart(m, o))
  }

  // ---------------------------------------------------------------------------------------
  // deserialize

  /**
    `deserialize_common_part`: reads LEN and the opcode (each 0 when the stream has run out)
    and raises InvalidOpcode when the opcode is not the class's type; otherwise LEN.
  */
  function ReadCommonPart(t: UartCommand, c: Cursor): Result<(int, Cursor), Exception>
  {
    var (length, c1) := c.ReadInt(LengthLen);
    var (opcode, c2) := c1.ReadInt(CmdLen);
    if opcode != t.Value() then Failure(InvalidOpcode) else Success((length, c2))
  }

  /** `E.from_bytes(stream.read(width), byteorder='little')` for an IntEnum E: ValueError for a non-member. */
  function ReadEnum<E>(c: Cursor, width: nat, fromValue: int -> Option<E>): Result<(E, Cursor), Exception>
  {
    var (v, c1) := c.ReadInt(width);
    match fromValue(v)
    case None => Failure(ValueError)
    case Some(e) => Success((e, c1))
  }

  /** The class's final length check: InvalidLen when `bad`, otherwise the message read. */
  function CheckLen(bad: bool, m: Message, c: Cursor): Result<(Message, Cursor), Exception>
  {
    if bad then Failure(InvalidLen) else Success((m, c))
  }

  /**
    The `while length >= 2` loop of the model-identifier lists: reads identifiers, appending
    them to `acc`, while at least 2 bytes of LEN are left, then raises InvalidLen on a
    remainder.
  */
  function ReadModelIds(acc: seq<ModelID>, length: int, c: Cursor): Result<(seq<ModelID>, Cursor), Exception>
    decreases length
  {
    if length >= ModelIdLen then
      (match ReadModelID(c)
      case Failure(e) => Failure(e)
      case Success((id, c1)) => ReadModelIds(acc + [id], length - ModelIdLen, c1))
    else if length != 0 then Failure(InvalidLen)
    else Success((acc, c))
  }

  /**
    The `while length >= 2` loop of CreateInstancesRequest: reads a fresh description,
    subtracts its `get_length()` from LEN and appends it, then raises InvalidLen on a remainder.
  */
  function ReadModelDescs(acc: seq<ModelDesc>, length: int, c: Cursor): Result<(seq<ModelDesc>, Cursor), Exception>
    decreases length
  {
    if length >= ModelIdLen then
      (match DeserializeModelDesc(c)
      case Failure(e) => Failure(e)
      case Success((d, c1)) => ReadModelDescs(acc + [d], length - d.GetLength(), c1))
    else if length != 0 then Failure(InvalidLen)
    else Success((acc, c))
  }

  /** PingRequestMessage's `deserialize` after the common part, given LEN. */
  function PingRequestFields(length: int, c: Cursor): Result<(Message, Cursor), Exception>
  {
    var (data, c1) := c.Read(length);
    CheckLen(length != |data|, PingRequestMessage(data), c1)
  }

  /** PongResponseMessage's `deserialize` after the common part, given LEN. */
  function PongResponseFields(length: int, c: Cursor): Result<(Message, Cursor), Exception>
  {
    var (data, c1) := c.Read(length);
    CheckLen(length != |data|, PongResponseMessage(data), c1)
  }

  /** MeshMessageRequestMessage's `deserialize` after the common part, given LEN. */
  function MeshMessageRequestFields(length: int, c: Cursor): Result<(Message, Cursor), Exception>
  {
    var (ii, c1) := c.ReadInt(InstanceIndexLen);
    var (si, c2) := c1.ReadInt(SubIndexLen);
    var (op, c3) := c2.ReadInt(MeshOpcodeLen);
    var rest := length - (InstanceIndexLen + SubIndexLen + MeshOpcodeLen);
    var (cmd, c4) := c3.Read(rest);
    CheckLen(rest != |cmd|, MeshMessageRequestMessage(ii, si, op, cmd), c4)
  }

  /** MeshMessageResponseMessage's `deserialize` after the common part, given LEN. */
  function MeshMessageResponseFields(length: int, c: Cursor): Result<(Message, Cursor), Exception>
  {
    var (ii, c1) := c.ReadInt(InstanceIndexLen);
    var (si, c2) := c1.ReadInt(SubIndexLen);
    CheckLen(length - InstanceIndexLen - SubIndexLen != 0, MeshMessageResponseMessage(ii, si), c2)
  }

  /** CurrentStateResponseMessage's `deserialize` after the common part, given LEN. */
  function CurrentStateResponseFields(length: int, c: Cursor): Result<(Message, Cursor), Exception>
  {
    (match ReadEnum(c, ModemStateLen, ModemStateFromValue)
    case Failure(e) => Failure(e)
    case Success((st, c1)) => CheckLen(length - ModemStateLen != 0, CurrentStateResponseMessage(st), c1))
  }

  /** ErrorMessage's `deserialize` after the common part, given LEN. */
  function ErrorFields(length: int, c: Cursor): Result<(Message, Cursor), Exception>
  {
    (match ReadEnum(c, ErrorIdLen, ErrorCodes.ErrorFromValue)
    case Failure(e) => Failure(e)
    case Success((err, c1)) => CheckLen(length - ErrorIdLen != 0, ErrorMessage(err), c1))
  }

  /** FirmwareVersionResponseMessage's `deserialize` after the common part, given LEN. */
  function FirmwareVersionResponseFields(length: int, c: Cursor): Result<(Message, Cursor), Exception>
  {
    if length == 0 then Failure(InvalidLen)
    else
      var (v, c1) := c.Read(length);
      Success((FirmwareVersionResponseMessage(v), c1))
  }

  /** SensorUpdateRequestMessage's `deserialize` after the common part, given LEN. */
  function SensorUpdateRequestFields(length: int, c: Cursor): Result<(Message, Cursor), Exception>
  {
    var (ii, c1) := c.ReadInt(InstanceIndexLen);
    var (pid, c2) := c1.ReadInt(PropertyIdLen);
    var rest := length - (InstanceIndexLen + PropertyIdLen);
    var (data, c3) := c2.Read(rest);
    CheckLen(rest != |data|, SensorUpdateRequestMessage(ii, pid, data), c3)
  }

  /** AttentionEventMessage's `deserialize` after the common part, given LEN. */
  function AttentionEventFields(length: int, c: Cursor): Result<(Message, Cursor), Exception>
  {
    (match ReadEnum(c, AttentionEventLen, AttentionEventFromValue)
    case Failure(e) => Failure(e)
    case Success((at, c1)) => CheckLen(length - AttentionEventLen != 0, AttentionEventMessage(at), c1))
  }

  /** DeviceUUIDResponseMessage's `deserialize` after the common part, given LEN. */
  function DeviceUUIDResponseFields(length: int, c: Cursor): Result<(Message, Cursor), Exception>
  {
    var (u, c1) := c.Read(UuidLen);
    if length - UuidLen != 0 then Failure(InvalidLen)
    else CheckLen(|u| - UuidLen != 0, DeviceUUIDResponseMessage(u), c1)
  }

  /** DfuInitRequestMessage's `deserialize` after the common part, given LEN. */
  function DfuInitRequestFields(length: int, c: Cursor): Result<(Message, Cursor), Exception>
  {
    var (fs, c1) := c.ReadInt(DfuFirmwareSizeLen);
    var (sha, c2) := c1.Read(DfuFirmwareSha256Len);
    var (adl, c3) := c2.ReadInt(DfuAppDataLengthLen);
    var rest := length - (DfuFirmwareSizeLen + DfuFirmwareSha256Len + DfuAppDataLengthLen);
    if rest != adl then Failure(InvalidLen)
    else
      var (ad, c4) := c3.Read(rest);
      CheckLen(adl != |ad|, DfuInitRequestMessage(fs, sha, adl, ad), c4)
  }

  /** DfuInitResponseMessage's `deserialize` after the common part, given LEN. */
  function DfuInitResponseFields(length: int, c: Cursor): Result<(Message, Cursor), Exception>
  {
    (match ReadEnum(c, DfuStatusLen, DFUStatusFromValue)
    case Failure(e) => Failure(e)
    case Success((st, c1)) => CheckLen(length - DfuStatusLen != 0, DfuInitResponseMessage(st), c1))
  }

  /** DfuStatusResponseMessage's `deserialize` after the common part, given LEN. */
  function DfuStatusResponseFields(length: int, c: Cursor): Result<(Message, Cursor), Exception>
  {
    (match ReadEnum(c, DfuStatusLen, DFUStatusFromValue)
    case Failure(e) => Failure(e)
    case Success((st, c1)) =>
      var (ps, c2) := c1.ReadInt(DfuSupportedPageSizeLen);
      var (off, c3) := c2.ReadInt(DfuFirmwareOffsetLen);
      var (crc, c4) := c3.ReadInt(DfuFirmwareCrcLen);
      CheckLen(length - DfuStatusLen - DfuSupportedPageSizeLen - DfuFirmwareOffsetLen - DfuFirmwareCrcLen != 0,
               DfuStatusResponseMessage(st, ps, off, crc), c4))
  }

  /** DfuPageCreateRequestMessage's `deserialize` after the common part, given LEN. */
  function DfuPageCreateRequestFields(length: int, c: Cursor): Result<(Message, Cursor), Exception>
  {
    var (ps, c1) := c.ReadInt(RequestedPageSizeLen);
    CheckLen(length - RequestedPageSizeLen != 0, DfuPageCreateRequestMessage(ps), c1)
  }

  /** DfuPageCreateResponseMessage's `deserialize` after the common part, given LEN. */
  function DfuPageCreateResponseFields(length: int, c: Cursor): Result<(Message, Cursor), Exception>
  {
    (match ReadEnum(c, DfuStatusLen, DFUStatusFromValue)
    case Failure(e) => Failure(e)
    case Success((st, c1)) => CheckLen(length - DfuStatusLen != 0, DfuPageCreateResponseMessage(st), c1))
  }

  /** DfuWriteDataEventMessage's `deserialize` after the common part, given LEN. */
  function DfuWriteDataEventFields(length: int, c: Cursor): Result<(Message, Cursor), Exception>
  {
    var (dl, c1) := c.ReadInt(DfuDataLengthLen);
    var rest := length - DfuDataLengthLen;
    if rest != dl then Failure(InvalidLen)
    else
      var (data, c2) := c1.Read(rest);
      CheckLen(dl != |data|, DfuWriteDataEventMessage(dl, data), c2)
  }

  /** DfuPageStoreResponseMessage's `deserialize` after the common part, given LEN. */
  function DfuPageStoreResponseFields(length: int, c: Cursor): Result<(Message, Cursor), Exception>
  {
    (match ReadEnum(c, DfuStatusLen, DFUStatusFromValue)
    case Failure(e) => Failure(e)
    case Success((st, c1)) => CheckLen(length - DfuStatusLen != 0, DfuPageStoreResponseMessage(st), c1))
  }

  /** DfuStateResponseMessage's `deserialize` after the common part, given LEN. */
  function DfuStateResponseFields(length: int, c: Cursor): Result<(Message, Cursor), Exception>
  {
    (match ReadEnum(c, DfuPreValidationStatusLen, DfuStatusFromValue)
    case Failure(e) => Failure(e)
    case Success((st, c1)) =>
      CheckLen(length - DfuPreValidationStatusLen != 0, DfuStateResponseMessage(st), c1))
  }

  /** StartTestRequest's `deserialize` after the common part, given LEN. */
  function StartTestRequestFields(length: int, c: Cursor): Result<(Message, Cursor), Exception>
  {
    var (cid, c1) := c.ReadInt(CompanyIdLen);
    var (tid, c2) := c1.ReadInt(TestIdLen);
    var (ii, c3) := c2.ReadInt(InstanceIndexLen);
    var rest := length - (CompanyIdLen + TestIdLen + InstanceIndexLen);
    CheckLen(rest != 0, Message.StartTestRequest(cid, tid, ii), c3)
  }

  /**
    What each class's `deserialize` does after the common part, given LEN. `self` is the
    object being filled in: the list classes append to its list; every other class
    overwrites all of its fields.
  */
  function DeserializeFields(self: Message, length: int, c: Cursor): Result<(Message, Cursor), Exception>
  {
    if IsSequenceClass(self) then DeserializeSequenceFields(self, length, c)
    else if IsRecordClass(self) then DeserializeRecordFields(self, length, c)
    else if IsScalarClass(self) then DeserializeScalarFields(self, length, c)
    else if self.GenericMessage? then Failure(AssertionError)
    else CheckLen(length != 0, self, c)
  }

  /** `deserialize` of the classes whose fields are byte strings or lists, after the common part. */
  function DeserializeSequenceFields(self: Message, length: int, c: Cursor): Result<(Message, Cursor), Exception>
    requires IsSequenceClass(self)
  {
    match self
    case PingRequestMessage(_) => PingRequestFields(length, c)
    case PongResponseMessage(_) => PongResponseFields(length, c)
    case InitDeviceEventMessage(ids0) =>
      (match ReadModelIds(ids0, length, c)
      case Failure(e) => Failure(e)
      case Success((ids, c1)) => Success((InitDeviceEventMessage(ids), c1)))
    case CreateInstancesRequestMessage(ds0) =>
      (match ReadModelDescs(ds0, length, c)
      case Failure(e) => Failure(e)
      case Success((ds, c1)) => Success((CreateInstancesRequestMessage(ds), c1)))
    case CreateInstancesResponseMessage(ids0) =>
      (match ReadModelIds(ids0, length, c)
      case Failure(e) => Failure(e)
      case Success((ids, c1)) => Success((CreateInstancesResponseMessage(ids), c1)))
    case InitNodeEventMessage(ids0) =>
      (match ReadModelIds(ids0, length, c)
      case Failure(e) => Failure(e)
      case Success((ids, c1)) => Success((InitNodeEventMessage(ids), c1)))
    case FirmwareVersionResponseMessage(_) => FirmwareVersionResponseFields(length, c)
    case DeviceUUIDResponseMessage(_) => DeviceUUIDResponseFields(length, c)
  }

  /** `deserialize` of the classes with several fields, after the common part. */
  function DeserializeRecordFields(self: Message, length: int, c: Cursor): Result<(Message, Cursor), Exception>
    requires IsRecordClass(self)
  {
    match self
    case MeshMessageRequestMessage(_, _, _, _) => MeshMessageRequestFields(length, c)
    case MeshMessageResponseMessage(_, _) => MeshMessageResponseFields(length, c)
    case SensorUpdateRequestMessage(_, _, _) => SensorUpdateRequestFields(length, c)
    case DfuInitRequestMessage(_, _, _, _) => DfuInitRequestFields(length, c)
    case DfuStatusResponseMessage(_, _, _, _) => DfuStatusResponseFields(length, c)
    case DfuWriteDataEventMessage(_, _) => DfuWriteDataEventFields(length, c)
    case StartTestRequest(_, _, _) => StartTestRequestFields(length, c)
  }

  /** `deserialize` of the classes with a single integer or enum field, after the common part. */
  function DeserializeScalarFields(self: Message, length: int, c: Cursor): Result<(Message, Cursor), Exception>
    requires IsScalarClass(self)
  {
    match self
    case CurrentStateResponseMessage(_) => CurrentStateResponseFields(length, c)
    case ErrorMessage(_) => ErrorFields(length, c)
    case AttentionEventMessage(_) => AttentionEventFields(length, c)
    case DfuInitResponseMessage(_) => DfuInitResponseFields(length, c)
    case DfuPageCreateRequestMessage(_) => DfuPageCreateRequestFields(length, c)
    case DfuPageCreateResponseMessage(_) => DfuPageCreateResponseFields(length, c)
    case DfuPageStoreResponseMessage(_) => DfuPageStoreResponseFields(length, c)
    case DfuStateResponseMessage(_) => DfuStateResponseFields(length, c)
  }

  /**
    `self.deserialize(stream)`: the object with its fields read from the stream and the
    stream after them, or the exception raised. GenericMessage fails its `assert False`
    before reading anything.
  */
  function Deserialize(self: Message, c: Cursor): Result<(Message, Cursor), Exception>
  {
    if self.GenericMessage? then Failure(AssertionError)
    else
      (match ReadCommonPart(Type(self), c)
      case Failure(e) => Failure(e)
      case Success((length, c1)) => DeserializeFields(self, length, c1))
  }
}
