/**
  The message codecs as the classes run them: statements that write to, or read from, an
  `io.BytesIO` stream one field at a time, each proved to do what the specification in
  `Messages` says. A message object is a value here: `deserialize` returns the object with
  its fields filled in rather than assigning them one by one.
*/
module MessageStreams {
  import opened Wrappers
  import opened Bytes
  import opened ByteStream
  import opened MessageTypes
  import opened UartCommands
  import opened Messages
  import ErrorCodes

  /** The `for model_id in self.model_ids` loop of the list classes' `serialize`. */
  method WriteModelIds(ids: seq<ModelID>, s: BytesIO)
    requires s.Valid() && s.AtEnd()
    modifies s
    ensures s.Valid() && s.AtEnd()
    ensures s.buf == old(s.buf) + ModelIdsBytes(ids)
  {
    for i := 0 to |ids|
      invariant s.Valid() && s.AtEnd()
      invariant s.buf == old(s.buf) + ModelIdsBytes(ids[..i])
    {
      var err := s.WriteInt(ids[i].Value(), ModelIdLen);
      assert ids[..i + 1][..i] == ids[..i];
    }
    assert ids[..|ids|] == ids;
  }

  /** The `for model_desc in self.model_descs` loop of CreateInstancesRequest's `serialize`. */
  method WriteModelDescs(ds: seq<ModelDesc>, s: BytesIO)
    requires s.Valid() && s.AtEnd()
    modifies s
    ensures s.Valid() && s.AtEnd()
    ensures s.buf == old(s.buf) + ModelDescsBytes(ds)
  {
    for i := 0 to |ds|
      invariant s.Valid() && s.AtEnd()
      invariant s.buf == old(s.buf) + ModelDescsBytes(ds[..i])
    {
      WriteModelDesc(ds[i], s);
      assert ds[..i + 1][..i] == ds[..i];
    }
    assert ds[..|ds|] == ds;
  }

  /** The accumulating loop of CreateInstancesRequest's `get_length`. */
  method ModelDescsLength(ds: seq<ModelDesc>) returns (length: nat)
    ensures length == DescsLength(ds)
  {
    length := 0;
    for i := 0 to |ds|
      invariant length == DescsLength(ds[..i])
    {
      length := length + ds[i].GetLength();
      assert ds[..i + 1][..i] == ds[..i];
    }
    assert ds[..|ds|] == ds;
  }

  /**
    `msg.serialize(stream)` on a stream positioned at its end: what is written, and the
    exception that stopped it, are those of `Serialize`.
  */
  method WriteMessage(m: Message, s: BytesIO) returns (err: Option<Exception>)
    requires s.Valid() && s.AtEnd()
    modifies s
    ensures s.Valid() && s.AtEnd()
    ensures Out(s.buf, err) == Serialize(m, Out(old(s.buf), None))
  {
    if m.GenericMessage? {
      return Some(AssertionError);
    }
    var length := GetLength(m);
    if m.CreateInstancesRequestMessage? {
      length := ModelDescsLength(m.modelDescs);
    }
    err := s.WriteInt(length, LengthLen);
    if err.Some? {
      return;
    }
    err := s.WriteInt(Type(m).Value(), CmdLen);
    if err.Some? {
      return;
    }
    err := WriteFields(m, s);
  }

  /** The part of each class's `serialize` after `serialize_common_part`. */
  method WriteFields(m: Message, s: BytesIO) returns (err: Option<Exception>)
    requires s.Valid() && s.AtEnd()
    modifies s
    ensures s.Valid() && s.AtEnd()
    ensures Out(s.buf, err) == SerializeFields(m, Out(old(s.buf), None))
  {
    if IsSequenceClass(m) {
      err := WriteSequenceFields(m, s);
    } else if IsRecordClass(m) {
      err := WriteRecordFields(m, s);
    } else if IsScalarClass(m) {
      err := WriteScalarFields(m, s);
    } else {
      err := None;
    }
  }

  /** `serialize` of the classes whose fields are byte strings or lists, after the common part. */
  method WriteSequenceFields(m: Message, s: BytesIO) returns (err: Option<Exception>)
    requires IsSequenceClass(m)
    requires s.Valid() && s.AtEnd()
    modifies s
    ensures s.Valid() && s.AtEnd()
    ensures Out(s.buf, err) == SerializeSequenceFields(m, Out(old(s.buf), None))
  {
    err := None;
    match m
    case PingRequestMessage(data) => s.Write(data);
    case PongResponseMessage(data) => s.Write(data);
    case InitDeviceEventMessage(ids) => WriteModelIds(ids, s);
    case CreateInstancesRequestMessage(ds) => WriteModelDescs(ds, s);
    case CreateInstancesResponseMessage(ids) => WriteModelIds(ids, s);
    case InitNodeEventMessage(ids) => WriteModelIds(ids, s);
    case FirmwareVersionResponseMessage(v) => s.Write(v);
    case DeviceUUIDResponseMessage(u) => s.Write(u);
  }

  /** `serialize` of the classes with several fields, after the common part. */
  method WriteRecordFields(m: Message, s: BytesIO) returns (err: Option<Exception>)
    requires IsRecordClass(m)
    requires s.Valid() && s.AtEnd()
    modifies s
    ensures s.Valid() && s.AtEnd()
    ensures Out(s.buf, err) == SerializeRecordFields(m, Out(old(s.buf), None))
  {
    match m
    case MeshMessageRequestMessage(ii, si, op, cmd) =>
      err := s.WriteInt(ii, InstanceIndexLen);
      if err.None? { err := s.WriteInt(si, SubIndexLen); }
      if err.None? { err := s.WriteInt(op, MeshOpcodeLen); }
      if err.None? { s.Write(cmd); }
    case MeshMessageResponseMessage(ii, si) =>
      err := s.WriteInt(ii, InstanceIndexLen);
      if err.None? { err := s.WriteInt(si, SubIndexLen); }
    case SensorUpdateRequestMessage(ii, pid, data) =>
      err := s.WriteInt(ii, InstanceIndexLen);
      if err.None? { err := s.WriteInt(pid, PropertyIdLen); }
      if err.None? { s.Write(data); }
    case DfuInitRequestMessage(fs, sha, adl, ad) =>
      err := s.WriteInt(fs, DfuFirmwareSizeLen);
      if err.None? { s.Write(sha); }
      if err.None? { err := s.WriteInt(adl, DfuAppDataLengthLen); }
      if err.None? { s.Write(ad); }
    case DfuStatusResponseMessage(st, ps, off, crc) =>
      err := s.WriteInt(st.Value(), DfuStatusLen);
      if err.None? { err := s.WriteInt(ps, DfuSupportedPageSizeLen); }
      if err.None? { err := s.WriteInt(off, DfuFirmwareOffsetLen); }
      if err.None? { err := s.WriteInt(crc, DfuFirmwareCrcLen); }
    case DfuWriteDataEventMessage(dl, data) =>
      err := s.WriteInt(dl, DfuDataLengthLen);
      if err.None? { s.Write(data); }
    case StartTestRequest(cid, tid, ii) =>
      err := s.WriteInt(cid, CompanyIdLen);
      if err.None? { err := s.WriteInt(tid, TestIdLen); }
      if err.None? { err := s.WriteInt(ii, InstanceIndexLen); }
  }

  /** `serialize` of the classes with a single integer or enum field, after the common part. */
  method WriteScalarFields(m: Message, s: BytesIO) returns (err: Option<Exception>)
    requires IsScalarClass(m)
    requires s.Valid() && s.AtEnd()
    modifies s
    ensures s.Valid() && s.AtEnd()
    ensures Out(s.buf, err) == SerializeScalarFields(m, Out(old(s.buf), None))
  {
    match m
    case CurrentStateResponseMessage(st) => err := s.WriteInt(st.Value(), ModemStateLen);
    case ErrorMessage(e) => err := s.WriteInt(e.Value(), ErrorIdLen);
    case AttentionEventMessage(at) => err := s.WriteInt(at.Value(), AttentionEventLen);
    case DfuInitResponseMessage(st) => err := s.WriteInt(st.Value(), DfuStatusLen);
    case DfuPageCreateRequestMessage(ps) => err := s.WriteInt(ps, RequestedPageSizeLen);
    case DfuPageCreateResponseMessage(st) => err := s.WriteInt(st.Value(), DfuStatusLen);
    case DfuPageStoreResponseMessage(st) => err := s.WriteInt(st.Value(), DfuStatusLen);
    case DfuStateResponseMessage(st) => err := s.WriteInt(st.Value(), DfuPreValidationStatusLen);
  }

  /** The `while length >= 2` loop of the model-identifier lists' `deserialize`. */
  method ReadModelIdList(ids0: seq<ModelID>, length0: int, s: BytesIO) returns (r: Result<seq<ModelID>, Exception>)
    requires s.Valid()
    modifies s
    ensures s.Valid()
    ensures WithCursor(r, s.View()) == ReadModelIds(ids0, length0, old(s.View()))
  {
    var length := length0;
    var ids := ids0;
    while length >= ModelIdLen
      invariant s.Valid()
      invariant ReadModelIds(ids, length, s.View()) == ReadModelIds(ids0, length0, old(s.View()))
      decreases length
    {
      var v := s.ReadInt(ModelIdLen);
      var id := ModelIDFromValue(v);
      if id.None? {
        return Failure(ValueError);
      }
      length := length - ModelIdLen;
      ids := ids + [id.value];
    }
    if length != 0 {
      return Failure(InvalidLen);
    }
    r := Success(ids);
  }

  /** The `while length >= 2` loop of CreateInstancesRequest's `deserialize`. */
  method ReadModelDescList(ds0: seq<ModelDesc>, length0: int, s: BytesIO) returns (r: Result<seq<ModelDesc>, Exception>)
    requires s.Valid()
    modifies s
    ensures s.Valid()
    ensures WithCursor(r, s.View()) == ReadModelDescs(ds0, length0, old(s.View()))
  {
    var length := length0;
    var ds := ds0;
    while length >= ModelIdLen
      invariant s.Valid()
      invariant ReadModelDescs(ds, length, s.View()) == ReadModelDescs(ds0, length0, old(s.View()))
      decreases length
    {
      var d := ReadModelDesc(s);
      if d.Failure? {
        return Failure(d.error);
      }
      length := length - d.value.GetLength();
      ds := ds + [d.value];
    }
    if length != 0 {
      return Failure(InvalidLen);
    }
    r := Success(ds);
  }

  /**
    `self.deserialize(stream)`: the object read, or the exception raised, as `Deserialize`
    says; on success the stream is left where `Deserialize` leaves its cursor.
  */
  method ReadMessage(self: Message, s: BytesIO) returns (r: Result<Message, Exception>)
    requires s.Valid()
    modifies s
    ensures s.Valid()
    ensures WithCursor(r, s.View()) == Deserialize(self, old(s.View()))
  {
    if self.GenericMessage? {
      return Failure(AssertionError);
    }
    var length := s.ReadInt(LengthLen);
    var opcode := s.ReadInt(CmdLen);
    if opcode != Type(self).Value() {
      return Failure(InvalidOpcode);
    }
    r := ReadFields(self, length, s);
  }

  /** `E.from_bytes(stream.read(width), byteorder='little')` for an IntEnum E: ValueError for a non-member. */
  method ReadEnumValue<E>(width: nat, fromValue: int -> Option<E>, s: BytesIO) returns (r: Result<E, Exception>)
    requires s.Valid()
    modifies s
    ensures s.Valid()
    ensures WithCursor(r, s.View()) == ReadEnum(old(s.View()), width, fromValue)
  {
    var v := s.ReadInt(width);
    var e := fromValue(v);
    r := if e.None? then Failure(ValueError) else Success(e.value);
  }

  /** PingRequestMessage's `deserialize`: LEN bytes of data, all of which must be there. */
  method ReadPingRequestFields(length: int, s: BytesIO) returns (r: Result<Message, Exception>)
    requires s.Valid()
    modifies s
    ensures s.Valid()
    ensures WithCursor(r, s.View()) == PingRequestFields(length, old(s.View()))
  {
    var data := s.Read(length);
    r := if length != |data| then Failure(InvalidLen) else Success(PingRequestMessage(data));
  }

  /** PongResponseMessage's `deserialize`: LEN bytes of data, all of which must be there. */
  method ReadPongResponseFields(length: int, s: BytesIO) returns (r: Result<Message, Exception>)
    requires s.Valid()
    modifies s
    ensures s.Valid()
    ensures WithCursor(r, s.View()) == PongResponseFields(length, old(s.View()))
  {
    var data := s.Read(length);
    r := if length != |data| then Failure(InvalidLen) else Success(PongResponseMessage(data));
  }

  /** MeshMessageRequestMessage's `deserialize`: three integer fields, then the rest of LEN as the mesh command. */
  method ReadMeshMessageRequestFields(length: int, s: BytesIO) returns (r: Result<Message, Exception>)
    requires s.Valid()
    modifies s
    ensures s.Valid()
    ensures WithCursor(r, s.View()) == MeshMessageRequestFields(length, old(s.View()))
  {
    var ii := s.ReadInt(InstanceIndexLen);
    var si := s.ReadInt(SubIndexLen);
    var op := s.ReadInt(MeshOpcodeLen);
    var rest := length - (InstanceIndexLen + SubIndexLen + MeshOpcodeLen);
    var cmd := s.Read(rest);
    r := if rest != |cmd| then Failure(InvalidLen) else Success(MeshMessageRequestMessage(ii, si, op, cmd));
  }

  /** MeshMessageResponseMessage's `deserialize`: two integer fields, then the length check. */
  method ReadMeshMessageResponseFields(length: int, s: BytesIO) returns (r: Result<Message, Exception>)
    requires s.Valid()
    modifies s
    ensures s.Valid()
    ensures WithCursor(r, s.View()) == MeshMessageResponseFields(length, old(s.View()))
  {
    var ii := s.ReadInt(InstanceIndexLen);
    var si := s.ReadInt(SubIndexLen);
    r := if length - InstanceIndexLen - SubIndexLen != 0 then Failure(InvalidLen)
         else Success(MeshMessageResponseMessage(ii, si));
  }

  /** CurrentStateResponseMessage's `deserialize`: one enum field, then the length check. */
  method ReadCurrentStateResponseFields(length: int, s: BytesIO) returns (r: Result<Message, Exception>)
    requires s.Valid()
    modifies s
    ensures s.Valid()
    ensures WithCursor(r, s.View()) == CurrentStateResponseFields(length, old(s.View()))
  {
    var st := ReadEnumValue(ModemStateLen, ModemStateFromValue, s);
    r := if st.Failure? then Failure(st.error)
         else if length - ModemStateLen != 0 then Failure(InvalidLen)
         else Success(CurrentStateResponseMessage(st.value));
  }

  /** ErrorMessage's `deserialize`: one enum field, then the length check. */
  method ReadErrorFields(length: int, s: BytesIO) returns (r: Result<Message, Exception>)
    requires s.Valid()
    modifies s
    ensures s.Valid()
    ensures WithCursor(r, s.View()) == ErrorFields(length, old(s.View()))
  {
    var err := ReadEnumValue(ErrorIdLen, ErrorCodes.ErrorFromValue, s);
    r := if err.Failure? then Failure(err.error)
         else if length - ErrorIdLen != 0 then Failure(InvalidLen)
         else Success(ErrorMessage(err.value));
  }

  /** FirmwareVersionResponseMessage's `deserialize`: InvalidLen on an empty payload, otherwise up to LEN bytes. */
  method ReadFirmwareVersionResponseFields(length: int, s: BytesIO) returns (r: Result<Message, Exception>)
    requires s.Valid()
    modifies s
    ensures s.Valid()
    ensures WithCursor(r, s.View()) == FirmwareVersionResponseFields(length, old(s.View()))
  {
    if length == 0 {
      return Failure(InvalidLen);
    }
    var v := s.Read(length);
    r := Success(FirmwareVersionResponseMessage(v));
  }

  /** SensorUpdateRequestMessage's `deserialize`: two integer fields, then the rest of LEN as data. */
  method ReadSensorUpdateRequestFields(length: int, s: BytesIO) returns (r: Result<Message, Exception>)
    requires s.Valid()
    modifies s
    ensures s.Valid()
    ensures WithCursor(r, s.View()) == SensorUpdateRequestFields(length, old(s.View()))
  {
    var ii := s.ReadInt(InstanceIndexLen);
    var pid := s.ReadInt(PropertyIdLen);
    var rest := length - (InstanceIndexLen + PropertyIdLen);
    var data := s.Read(rest);
    r := if rest != |data| then Failure(InvalidLen) else Success(SensorUpdateRequestMessage(ii, pid, data));
  }

  /** AttentionEventMessage's `deserialize`: one enum field, then the length check. */
  method ReadAttentionEventFields(length: int, s: BytesIO) returns (r: Result<Message, Exception>)
    requires s.Valid()
    modifies s
    ensures s.Valid()
    ensures WithCursor(r, s.View()) == AttentionEventFields(length, old(s.View()))
  {
    var at := ReadEnumValue(AttentionEventLen, AttentionEventFromValue, s);
    r := if at.Failure? then Failure(at.error)
         else if length - AttentionEventLen != 0 then Failure(InvalidLen)
         else Success(AttentionEventMessage(at.value));
  }

  /** DeviceUUIDResponseMessage's `deserialize`: 16 bytes, then both length checks. */
  method ReadDeviceUUIDResponseFields(length: int, s: BytesIO) returns (r: Result<Message, Exception>)
    requires s.Valid()
    modifies s
    ensures s.Valid()
    ensures WithCursor(r, s.View()) == DeviceUUIDResponseFields(length, old(s.View()))
  {
    var u := s.Read(UuidLen);
    r := if length - UuidLen != 0 then Failure(InvalidLen)
         else if |u| - UuidLen != 0 then Failure(InvalidLen)
         else Success(DeviceUUIDResponseMessage(u));
  }

  /** DfuInitRequestMessage's `deserialize`: fixed fields, the inner length check, then the application data. */
  method ReadDfuInitRequestFields(length: int, s: BytesIO) returns (r: Result<Message, Exception>)
    requires s.Valid()
    modifies s
    ensures s.Valid()
    ensures WithCursor(r, s.View()) == DfuInitRequestFields(length, old(s.View()))
  {
    var fs := s.ReadInt(DfuFirmwareSizeLen);
    var sha := s.Read(DfuFirmwareSha256Len);
    var adl := s.ReadInt(DfuAppDataLengthLen);
    var rest := length - (DfuFirmwareSizeLen + DfuFirmwareSha256Len + DfuAppDataLengthLen);
    if rest != adl {
      return Failure(InvalidLen);
    }
    var ad := s.Read(rest);
    r := if adl != |ad| then Failure(InvalidLen) else Success(DfuInitRequestMessage(fs, sha, adl, ad));
  }

  /** DfuInitResponseMessage's `deserialize`: one enum field, then the length check. */
  method ReadDfuInitResponseFields(length: int, s: BytesIO) returns (r: Result<Message, Exception>)
    requires s.Valid()
    modifies s
    ensures s.Valid()
    ensures WithCursor(r, s.View()) == DfuInitResponseFields(length, old(s.View()))
  {
    var st := ReadEnumValue(DfuStatusLen, DFUStatusFromValue, s);
    r := if st.Failure? then Failure(st.error)
         else if length - DfuStatusLen != 0 then Failure(InvalidLen)
         else Success(DfuInitResponseMessage(st.value));
  }

  /** DfuStatusResponseMessage's `deserialize`: a status, three integer fields, then the length check. */
  method ReadDfuStatusResponseFields(length: int, s: BytesIO) returns (r: Result<Message, Exception>)
    requires s.Valid()
    modifies s
    ensures s.Valid()
    ensures WithCursor(r, s.View()) == DfuStatusResponseFields(length, old(s.View()))
  {
    var st := ReadEnumValue(DfuStatusLen, DFUStatusFromValue, s);
    if st.Failure? {
      return Failure(st.error);
    }
    var ps := s.ReadInt(DfuSupportedPageSizeLen);
    var off := s.ReadInt(DfuFirmwareOffsetLen);
    var crc := s.ReadInt(DfuFirmwareCrcLen);
    r := if length - DfuStatusLen - DfuSupportedPageSizeLen - DfuFirmwareOffsetLen - DfuFirmwareCrcLen != 0
         then Failure(InvalidLen)
         else Success(DfuStatusResponseMessage(st.value, ps, off, crc));
  }

  /** DfuPageCreateRequestMessage's `deserialize`: the requested page size, then the length check. */
  method ReadDfuPageCreateRequestFields(length: int, s: BytesIO) returns (r: Result<Message, Exception>)
    requires s.Valid()
    modifies s
    ensures s.Valid()
    ensures WithCursor(r, s.View()) == DfuPageCreateRequestFields(length, old(s.View()))
  {
    var ps := s.ReadInt(RequestedPageSizeLen);
    r := if length - RequestedPageSizeLen != 0 then Failure(InvalidLen) else Success(DfuPageCreateRequestMessage(ps));
  }

  /** DfuPageCreateResponseMessage's `deserialize`: one enum field, then the length check. */
  method ReadDfuPageCreateResponseFields(length: int, s: BytesIO) returns (r: Result<Message, Exception>)
    requires s.Valid()
    modifies s
    ensures s.Valid()
    ensures WithCursor(r, s.View()) == DfuPageCreateResponseFields(length, old(s.View()))
  {
    var st := ReadEnumValue(DfuStatusLen, DFUStatusFromValue, s);
    r := if st.Failure? then Failure(st.error)
         else if length - DfuStatusLen != 0 then Failure(InvalidLen)
         else Success(DfuPageCreateResponseMessage(st.value));
  }

  /** DfuWriteDataEventMessage's `deserialize`: the inner length, its check, then the data. */
  method ReadDfuWriteDataEventFields(length: int, s: BytesIO) returns (r: Result<Message, Exception>)
    requires s.Valid()
    modifies s
    ensures s.Valid()
    ensures WithCursor(r, s.View()) == DfuWriteDataEventFields(length, old(s.View()))
  {
    var dl := s.ReadInt(DfuDataLengthLen);
    var rest := length - DfuDataLengthLen;
    if rest != dl {
      return Failure(InvalidLen);
    }
    var data := s.Read(rest);
    r := if dl != |data| then Failure(InvalidLen) else Success(DfuWriteDataEventMessage(dl, data));
  }

  /** DfuPageStoreResponseMessage's `deserialize`: one enum field, then the length check. */
  method ReadDfuPageStoreResponseFields(length: int, s: BytesIO) returns (r: Result<Message, Exception>)
    requires s.Valid()
    modifies s
    ensures s.Valid()
    ensures WithCursor(r, s.View()) == DfuPageStoreResponseFields(length, old(s.View()))
  {
    var st := ReadEnumValue(DfuStatusLen, DFUStatusFromValue, s);
    r := if st.Failure? then Failure(st.error)
         else if length - DfuStatusLen != 0 then Failure(InvalidLen)
         else Success(DfuPageStoreResponseMessage(st.value));
  }

  /** DfuStateResponseMessage's `deserialize`: one enum field, then the length check. */
  method ReadDfuStateResponseFields(length: int, s: BytesIO) returns (r: Result<Message, Exception>)
    requires s.Valid()
    modifies s
    ensures s.Valid()
    ensures WithCursor(r, s.View()) == DfuStateResponseFields(length, old(s.View()))
  {
    var st := ReadEnumValue(DfuPreValidationStatusLen, DfuStatusFromValue, s);
    r := if st.Failure? then Failure(st.error)
         else if length - DfuPreValidationStatusLen != 0 then Failure(InvalidLen)
         else Success(DfuStateResponseMessage(st.value));
  }

  /** StartTestRequest's `deserialize`: three integer fields, then the length check. */
  method ReadStartTestRequestFields(length: int, s: BytesIO) returns (r: Result<Message, Exception>)
    requires s.Valid()
    modifies s
    ensures s.Valid()
    ensures WithCursor(r, s.View()) == StartTestRequestFields(length, old(s.View()))
  {
    var cid := s.ReadInt(CompanyIdLen);
    var tid := s.ReadInt(TestIdLen);
    var ii := s.ReadInt(InstanceIndexLen);
    var rest := length - (CompanyIdLen + TestIdLen + InstanceIndexLen);
    r := if rest != 0 then Failure(InvalidLen) else Success(Message.StartTestRequest(cid, tid, ii));
  }

  /** The part of each class's `deserialize` after `deserialize_common_part` returned LEN. */
  method ReadFields(self: Message, length: int, s: BytesIO) returns (r: Result<Message, Exception>)
    requires s.Valid()
    modifies s
    ensures s.Valid()
    ensures WithCursor(r, s.View()) == DeserializeFields(self, length, old(s.View()))
  {
    if IsSequenceClass(self) {
      r := ReadSequenceFields(self, length, s);
    } else if IsRecordClass(self) {
      r := ReadRecordFields(self, length, s);
    } else if IsScalarClass(self) {
      r := ReadScalarFields(self, length, s);
    } else if self.GenericMessage? {
      r := Failure(AssertionError);
    } else {
      r := if length != 0 then Failure(InvalidLen) else Success(self);
    }
  }

  /** `deserialize` of the classes whose fields are byte strings or lists, after the common part. */
  method ReadSequenceFields(self: Message, length: int, s: BytesIO) returns (r: Result<Message, Exception>)
    requires IsSequenceClass(self)
    requires s.Valid()
    modifies s
    ensures s.Valid()
    ensures WithCursor(r, s.View()) == DeserializeSequenceFields(self, length, old(s.View()))
  {
    match self
    case PingRequestMessage(_) => r := ReadPingRequestFields(length, s);
    case PongResponseMessage(_) => r := ReadPongResponseFields(length, s);
    case InitDeviceEventMessage(ids0) =>
      var ids := ReadModelIdList(ids0, length, s);
      r := if ids.Failure? then Failure(ids.error) else Success(InitDeviceEventMessage(ids.value));
    case CreateInstancesRequestMessage(ds0) =>
      var ds := ReadModelDescList(ds0, length, s);
      r := if ds.Failure? then Failure(ds.error) else Success(CreateInstancesRequestMessage(ds.value));
    case CreateInstancesResponseMessage(ids0) =>
      var ids := ReadModelIdList(ids0, length, s);
      r := if ids.Failure? then Failure(ids.error) else Success(CreateInstancesResponseMessage(ids.value));
    case InitNodeEventMessage(ids0) =>
      var ids := ReadModelIdList(ids0, length, s);
      r := if ids.Failure? then Failure(ids.error) else Success(InitNodeEventMessage(ids.value));
    case FirmwareVersionResponseMessage(_) => r := ReadFirmwareVersionResponseFields(length, s);
    case DeviceUUIDResponseMessage(_) => r := ReadDeviceUUIDResponseFields(length, s);
  }

  /** `deserialize` of the classes with several fields, after the common part. */
  method ReadRecordFields(self: Message, length: int, s: BytesIO) returns (r: Result<Message, Exception>)
    requires IsRecordClass(self)
    requires s.Valid()
    modifies s
    ensures s.Valid()
    ensures WithCursor(r, s.View()) == DeserializeRecordFields(self, length, old(s.View()))
  {
    match self
    case MeshMessageRequestMessage(_, _, _, _) => r := ReadMeshMessageRequestFields(length, s);
    case MeshMessageResponseMessage(_, _) => r := ReadMeshMessageResponseFields(length, s);
    case SensorUpdateRequestMessage(_, _, _) => r := ReadSensorUpdateRequestFields(length, s);
    case DfuInitRequestMessage(_, _, _, _) => r := ReadDfuInitRequestFields(length, s);
    case DfuStatusResponseMessage(_, _, _, _) => r := ReadDfuStatusResponseFields(length, s);
    case DfuWriteDataEventMessage(_, _) => r := ReadDfuWriteDataEventFields(length, s);
    case StartTestRequest(_, _, _) => r := ReadStartTestRequestFields(length, s);
  }

  /** `deserialize` of the classes with a single integer or enum field, after the common part. */
  method ReadScalarFields(self: Message, length: int, s: BytesIO) returns (r: Result<Message, Exception>)
    requires IsScalarClass(self)
    requires s.Valid()
    modifies s
    ensures s.Valid()
    ensures WithCursor(r, s.View()) == DeserializeScalarFields(self, length, old(s.View()))
  {
    match self
    case CurrentStateResponseMessage(_) => r := ReadCurrentStateResponseFields(length, s);
    case ErrorMessage(_) => r := ReadErrorFields(length, s);
    case AttentionEventMessage(_) => r := ReadAttentionEventFields(length, s);
    case DfuInitResponseMessage(_) => r := ReadDfuInitResponseFields(length, s);
    case DfuPageCreateRequestMessage(_) => r := ReadDfuPageCreateRequestFields(length, s);
    case DfuPageCreateResponseMessage(_) => r := ReadDfuPageCreateResponseFields(length, s);
    case DfuPageStoreResponseMessage(_) => r := ReadDfuPageStoreResponseFields(length, s);
    case DfuStateResponseMessage(_) => r := ReadDfuStateResponseFields(length, s);
  }
}
