/**
  The value sets of the enum-typed message fields and the model description record
  (`message_types.py`).

  Each IntEnum becomes a datatype with `Value()`, the member's integer, and `FromValue`,
  the conversion `E(v)` that `E.from_bytes` performs: it yields the member with that value
  and fails (Python raises ValueError) for every other integer.
*/
module MessageTypes {
  import opened Wrappers
  import opened Bytes
  import opened ByteStream

  /** `UART_MODEL_ID_LEN` and `UART_SENSOR_SETUP_SERVER_CONFIG_LEN`. */
  const ModelIdLen: nat := 2
  const SensorSetupServerConfigLen: nat := 10

  /** The Mesh model identifiers the modem supports. */
  datatype ModelID =
    | GenOnOffClientID | GenLevelClientID | GenPowerOnOffClientID | LightLightnessClientID
    | LightLCClientID | SensorServerID | SensorSetupServerID | LightLightnessServerID
    | LightLCServerID | SensorClientID | HealthServerID | HealthClientID
  {
    function Value(): int
    {
      match this
      case GenOnOffClientID => 0x1001
      case GenLevelClientID => 0x1003
      case GenPowerOnOffClientID => 0x1008
      case LightLightnessClientID => 0x1302
      case LightLCClientID => 0x1311
      case SensorServerID => 0x1100
      case SensorSetupServerID => 0x1101
      case LightLightnessServerID => 0x1300
      case LightLCServerID => 0x130F
      case SensorClientID => 0x1102
      case HealthServerID => 0x0002
      case HealthClientID => 0x0003
    }
  }

  /** `ModelID(v)`: the member whose value is v; None where Python raises ValueError. */
  function ModelIDFromValue(v: int): (r: Option<ModelID>)
    ensures r.Some? ==> r.value.Value() == v
    ensures r.None? <==> forall id: ModelID :: id.Value() != v
  {
    if v == 0x1001 then Some(GenOnOffClientID)
    else if v == 0x1003 then Some(GenLevelClientID)
    else if v == 0x1008 then Some(GenPowerOnOffClientID)
    else if v == 0x1302 then Some(LightLightnessClientID)
    else if v == 0x1311 then Some(LightLCClientID)
    else if v == 0x1100 then Some(SensorServerID)
    else if v == 0x1101 then Some(SensorSetupServerID)
    else if v == 0x1300 then Some(LightLightnessServerID)
    else if v == 0x130F then Some(LightLCServerID)
    else if v == 0x1102 then Some(SensorClientID)
    else if v == 0x0002 then Some(HealthServerID)
    else if v == 0x0003 then Some(HealthClientID)
    else None
  }

  /** Where a factory reset came from (not carried by any message of this repository). */
  datatype FactoryResetSource = Mesh | Pin | RFU
  {
    function Value(): int
    {
      match this
      case Mesh => 0x00
      case Pin => 0x01
      case RFU => 0x02
    }
  }

  function FactoryResetSourceFromValue(v: int): (r: Option<FactoryResetSource>)
    ensures r.Some? ==> r.value.Value() == v
    ensures r.None? <==> forall s: FactoryResetSource :: s.Value() != v
  {
    if v == 0x00 then Some(Mesh)
    else if v == 0x01 then Some(Pin)
    else if v == 0x02 then Some(RFU)
    else None
  }

  /** The modem's state, carried by CurrentStateResponse. */
  datatype ModemState = InitDevice | Device | InitNode | Node | Unknown
  {
    function Value(): int
    {
      match this
      case InitDevice => 0x00
      case Device => 0x01
      case InitNode => 0x02
      case Node => 0x03
      case Unknown => 0xFF
    }
  }

  function ModemStateFromValue(v: int): (r: Option<ModemState>)
    ensures r.Some? ==> r.value.Value() == v
    ensures r.None? <==> forall s: ModemState :: s.Value() != v
  {
    if v == 0x00 then Some(InitDevice)
    else if v == 0x01 then Some(Device)
    else if v == 0x02 then Some(InitNode)
    else if v == 0x03 then Some(Node)
    else if v == 0xFF then Some(Unknown)
    else None
  }

  /** The status of a firmware update step, carried by the DFU responses. */
  datatype DFUStatus =
    | DFU_INVALID_CODE | DFU_SUCCESS | DFU_OPCODE_NOT_SUPPORTED | DFU_INVALID_PARAMETER
    | DFU_INSUFFICIENT_RESOURCES | DFU_INVALID_OBJECT | DFU_UNSUPPORTED_TYPE
    | DFU_OPERATION_NOT_PERMITTED | DFU_OPERATION_FAILED | DFU_FIRMWARE_SUCCESSFULLY_UPDATED
  {
    function Value(): int
    {
      match this
      case DFU_INVALID_CODE => 0x00
      case DFU_SUCCESS => 0x01
      case DFU_OPCODE_NOT_SUPPORTED => 0x02
      case DFU_INVALID_PARAMETER => 0x03
      case DFU_INSUFFICIENT_RESOURCES => 0x04
      case DFU_INVALID_OBJECT => 0x05
      case DFU_UNSUPPORTED_TYPE => 0x07
      case DFU_OPERATION_NOT_PERMITTED => 0x08
      case DFU_OPERATION_FAILED => 0x0A
      case DFU_FIRMWARE_SUCCESSFULLY_UPDATED => 0xFF
    }
  }

  function DFUStatusFromValue(v: int): (r: Option<DFUStatus>)
    ensures r.Some? ==> r.value.Value() == v
    ensures r.None? <==> forall s: DFUStatus :: s.Value() != v
  {
    if v == 0x00 then Some(DFU_INVALID_CODE)
    else if v == 0x01 then Some(DFU_SUCCESS)
    else if v == 0x02 then Some(DFU_OPCODE_NOT_SUPPORTED)
    else if v == 0x03 then Some(DFU_INVALID_PARAMETER)
    else if v == 0x04 then Some(DFU_INSUFFICIENT_RESOURCES)
    else if v == 0x05 then Some(DFU_INVALID_OBJECT)
    else if v == 0x07 then Some(DFU_UNSUPPORTED_TYPE)
    else if v == 0x08 then Some(DFU_OPERATION_NOT_PERMITTED)
    else if v == 0x0A then Some(DFU_OPERATION_FAILED)
    else if v == 0xFF then Some(DFU_FIRMWARE_SUCCESSFULLY_UPDATED)
    else None
  }

  /** Whether the modem asks for attention, carried by AttentionEvent. */
  datatype AttentionEvent = Off | On
  {
    function Value(): int
    {
      match this
      case Off => 0x00
      case On => 0x01
    }
  }

  function AttentionEventFromValue(v: int): (r: Option<AttentionEvent>)
    ensures r.Some? ==> r.value.Value() == v
    ensures r.None? <==> forall a: AttentionEvent :: a.Value() != v
  {
    if v == 0x00 then Some(Off) else if v == 0x01 then Some(On) else None
  }

  /** Whether a firmware update is in progress, carried by DfuStateResponse. */
  datatype DfuStatus = InProgress | NotInProgress
  {
    function Value(): int
    {
      match this
      case InProgress => 0x01
      case NotInProgress => 0x00
    }
  }

  function DfuStatusFromValue(v: int): (r: Option<DfuStatus>)
    ensures r.Some? ==> r.value.Value() == v
    ensures r.None? <==> forall s: DfuStatus :: s.Value() != v
  {
    if v == 0x01 then Some(InProgress) else if v == 0x00 then Some(NotInProgress) else None
  }

  /**
    A Mesh model description: its identifier and, for the sensor setup server only, a
    configuration blob. A description whose identifier was never set (`ModelDesc()` before
    `deserialize`) is not modelled.
  */
  datatype ModelDesc = ModelDesc(modelId: ModelID, config: seq<uint8>)
  {
    /** `get_length`: the identifier's 2 bytes plus the configuration, whatever the identifier. */
    function GetLength(): nat
    {
      ModelIdLen + |config|
    }

    /**
      The descriptions `deserialize` can produce from a complete input, and the ones that
      serialize to exactly `GetLength()` bytes: configuration of 10 bytes for the sensor
      setup server and none for every other identifier.
    */
    predicate WellFormed()
    {
      if modelId == SensorSetupServerID then |config| == SensorSetupServerConfigLen else config == []
    }
  }

  /**
    The bytes `ModelDesc.serialize` writes: the identifier as 2 little-endian bytes, followed
    by the configuration only when the identifier is the sensor setup server's.
  */
  function ModelDescBytes(d: ModelDesc): seq<uint8>
  {
    ToLittleEndian(d.modelId.Value(), ModelIdLen) + (if d.modelId == SensorSetupServerID then d.config else [])
  }

  /** `ModelDesc.serialize`: writing the identifier never overflows, so it always writes `ModelDescBytes`. */
  function SerializeModelDesc(d: ModelDesc, o: Out): (r: Out)
    ensures o.error.None? ==> r == Out(o.bytes + ModelDescBytes(d), None)
    ensures o.error.Some? ==> r == o
  {
    var o1 := o.PutInt(d.modelId.Value(), ModelIdLen);
    if d.modelId == SensorSetupServerID then o1.PutBytes(d.config) else o1
  }

  /** `ModelID.from_bytes(stream.read(2), byteorder='little')`: ValueError for a non-member. */
  function ReadModelID(c: Cursor): (r: Result<(ModelID, Cursor), Exception>)
    ensures r.Success? <==> ModelIDFromValue(c.ReadInt(ModelIdLen).0).Some?
    ensures r.Success? ==> r.value.0.Value() == c.ReadInt(ModelIdLen).0 && r.value.1 == c.ReadInt(ModelIdLen).1
    ensures r.Failure? ==> r.error == ValueError
  {
    var (v, c1) := c.ReadInt(ModelIdLen);
    match ModelIDFromValue(v)
    case None => Failure(ValueError)
    case Some(id) => Success((id, c1))
  }

  /**
    `ModelDesc.deserialize` on a fresh description: reads the identifier and, for the sensor
    setup server only, up to 10 configuration bytes (fewer when the stream runs out); every
    other identifier keeps the empty configuration the constructor set.
  */
  function DeserializeModelDesc(c: Cursor): (r: Result<(ModelDesc, Cursor), Exception>)
  {
    match ReadModelID(c)
    case Failure(e) => Failure(e)
    case Success((id, c1)) =>
      if id == SensorSetupServerID then
        var (cfg, c2) := c1.Read(SensorSetupServerConfigLen);
        Success((ModelDesc(id, cfg), c2))
      else
        Success((ModelDesc(id, []), c1))
  }

  /** `ModelDesc.serialize(stream)` on a stream positioned at its end. */
  method WriteModelDesc(d: ModelDesc, s: BytesIO)
    requires s.Valid() && s.AtEnd()
    modifies s
    ensures s.Valid() && s.AtEnd()
    ensures Out(s.buf, None) == SerializeModelDesc(d, Out(old(s.buf), None))
  {
    var err := s.WriteInt(d.modelId.Value(), ModelIdLen);
    if d.modelId == SensorSetupServerID {
      s.Write(d.config);
    }
  }

  /** `ModelDesc().deserialize(stream)`: the description read, or the exception raised. */
  method ReadModelDesc(s: BytesIO) returns (r: Result<ModelDesc, Exception>)
    requires s.Valid()
    modifies s
    ensures s.Valid()
    ensures WithCursor(r, s.View()) == DeserializeModelDesc(old(s.View()))
  {
    var v := s.ReadInt(ModelIdLen);
    var id := ModelIDFromValue(v);
    if id.None? {
      return Failure(ValueError);
    }
    var config: seq<uint8> := [];
    if id.value == SensorSetupServerID {
      config := s.Read(SensorSetupServerConfigLen);
    }
    r := Success(ModelDesc(id.value, config));
  }

  /** Converting a member's own value gives the member back. */
  lemma ModelIDValueRoundTrip(id: ModelID)
    ensures ModelIDFromValue(id.Value()) == Some(id)
  {
  }

  /**
    A well-formed description is `GetLength()` bytes long, and reading it back from a stream
    that holds its bytes next gives the same description and stops right after it.
  */
  lemma ModelDescRoundTrip(d: ModelDesc, c: Cursor, rest: seq<uint8>)
    requires d.WellFormed()
    requires c.pos <= |c.data| && c.data[c.pos..] == ModelDescBytes(d) + rest
    ensures |ModelDescBytes(d)| == d.GetLength()
    ensures DeserializeModelDesc(c) == Success((d, Cursor(c.data, c.pos + d.GetLength())))
  {
    var config := if d.modelId == SensorSetupServerID then d.config else [];
    assert c.data[c.pos..] == ToLittleEndian(d.modelId.Value(), ModelIdLen) + (config + rest);
    ReadIntBack(c, d.modelId.Value(), ModelIdLen, config + rest);
    ModelIDValueRoundTrip(d.modelId);
    var c1 := Cursor(c.data, c.pos + ModelIdLen);
    assert ReadModelID(c) == Success((d.modelId, c1));
    if d.modelId == SensorSetupServerID {
      ReadBack(c1, config, rest);
    }
  }

  /**
    `get_length` counts the configuration whatever the identifier, while `serialize` writes it
    only for the sensor setup server: a description serializes to exactly `GetLength()` bytes
    if and only if it is the sensor setup server's or carries no configuration; any other
    description falls short by the whole configuration.
  */
  lemma GetLengthCountsUnwrittenConfig(d: ModelDesc, o: Out)
    requires o.error.None?
    ensures var r := SerializeModelDesc(d, o);
            && (|r.bytes| == |o.bytes| + d.GetLength() <==> d.modelId == SensorSetupServerID || d.config == [])
            && (d.modelId != SensorSetupServerID ==> |r.bytes| == |o.bytes| + d.GetLength() - |d.config|)
  {
    FromToLittleEndian(d.modelId.Value(), ModelIdLen);
  }

  /**
    A description read from a stream that still held at least 12 bytes is well-formed and
    consumed exactly `GetLength()` bytes; from a shorter stream it never consumed more.
  */
  lemma DeserializeModelDescConsumes(c: Cursor)
    requires c.pos <= |c.data|
    requires DeserializeModelDesc(c).Success?
    ensures var (d, c2) := DeserializeModelDesc(c).value;
            c2.data == c.data && c.pos <= c2.pos <= c.pos + d.GetLength() &&
            (c.Remaining() >= ModelIdLen + SensorSetupServerConfigLen ==>
               d.WellFormed() && c2.pos == c.pos + d.GetLength())
  {
  }
}

/**
  The `Error` IntEnum of `message_types.py`: the error code an ErrorMessage carries. It has a
  module of its own because its member `InvalidLen` shares its name with the exception.
*/
module ErrorCodes {
  import opened Wrappers

  datatype Error =
    | InvalidCRC | InvalidCMD | InvalidLen | InvalidState | InvalidParam | Timeout
    | NoLicenseForModelRegistration | NoResourcesForModelRegistration
    | MeshMessageRequestProcessError
  {
    function Value(): int
    {
      match this
      case InvalidCRC => 0x00
      case InvalidCMD => 0x01
      case InvalidLen => 0x02
      case InvalidState => 0x03
      case InvalidParam => 0x04
      case Timeout => 0x05
      case NoLicenseForModelRegistration => 0x06
      case NoResourcesForModelRegistration => 0x07
      case MeshMessageRequestProcessError => 0x08
    }
  }

  function ErrorFromValue(v: int): (r: Option<Error>)
    ensures r.Some? ==> r.value.Value() == v
    ensures r.None? <==> forall e: Error :: e.Value() != v
  {
    if v == 0x00 then Some(InvalidCRC)
    else if v == 0x01 then Some(InvalidCMD)
    else if v == 0x02 then Some(InvalidLen)
    else if v == 0x03 then Some(InvalidState)
    else if v == 0x04 then Some(InvalidParam)
    else if v == 0x05 then Some(Timeout)
    else if v == 0x06 then Some(NoLicenseForModelRegistration)
    else if v == 0x07 then Some(NoResourcesForModelRegistration)
    else if v == 0x08 then Some(MeshMessageRequestProcessError)
    else None
  }
}
