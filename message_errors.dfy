/**
  How each class's `deserialize` reacts to every LEN and every stream, after the common part:
  which LEN values raise InvalidLen, which bytes must be present, and which absent bytes are
  silently read as zero (`int.from_bytes(b'')` is 0 and `read` returns what is left).
*/
module MessageErrors {
  import opened Wrappers
  import opened Bytes
  import opened ByteStream
  import opened MessageTypes
  import opened Messages
  import ErrorCodes

  // ---------------------------------------------------------------------------------------
  // Classes with a single enum field: ValueError for a non-member, then InvalidLen unless
  // LEN is the field's width. The byte is not checked to be present.

  lemma CurrentStateResponseLenCheck(self: Message, length: int, c: Cursor)
    requires self.CurrentStateResponseMessage?
    ensures var r := DeserializeFields(self, length, c);
            var (v, c1) := c.ReadInt(ModemStateLen);
            && (ModemStateFromValue(v).None? ==> r == Failure(ValueError))
            && (ModemStateFromValue(v).Some? ==>
                  if length == ModemStateLen then r == Success((CurrentStateResponseMessage(ModemStateFromValue(v).value), c1))
                  else r == Failure(InvalidLen))
  {
  }

  lemma ErrorLenCheck(self: Message, length: int, c: Cursor)
    requires self.ErrorMessage?
    ensures var r := DeserializeFields(self, length, c);
            var (v, c1) := c.ReadInt(ErrorIdLen);
            && (ErrorCodes.ErrorFromValue(v).None? ==> r == Failure(ValueError))
            && (ErrorCodes.ErrorFromValue(v).Some? ==>
                  if length == ErrorIdLen then r == Success((ErrorMessage(ErrorCodes.ErrorFromValue(v).value), c1))
                  else r == Failure(InvalidLen))
  {
  }

  lemma AttentionEventLenCheck(self: Message, length: int, c: Cursor)
    requires self.AttentionEventMessage?
    ensures var r := DeserializeFields(self, length, c);
            var (v, c1) := c.ReadInt(AttentionEventLen);
            && (AttentionEventFromValue(v).None? ==> r == Failure(ValueError))
            && (AttentionEventFromValue(v).Some? ==>
                  if length == AttentionEventLen then r == Success((AttentionEventMessage(AttentionEventFromValue(v).value), c1))
                  else r == Failure(InvalidLen))
  {
  }

  lemma DfuInitResponseLenCheck(self: Message, length: int, c: Cursor)
    requires self.DfuInitResponseMessage?
    ensures var r := DeserializeFields(self, length, c);
            var (v, c1) := c.ReadInt(DfuStatusLen);
            && (DFUStatusFromValue(v).None? ==> r == Failure(ValueError))
            && (DFUStatusFromValue(v).Some? ==>
                  if length == DfuStatusLen then r == Success((DfuInitResponseMessage(DFUStatusFromValue(v).value), c1))
                  else r == Failure(InvalidLen))
  {
  }

  lemma DfuPageCreateResponseLenCheck(self: Message, length: int, c: Cursor)
    requires self.DfuPageCreateResponseMessage?
    ensures var r := DeserializeFields(self, length, c);
            var (v, c1) := c.ReadInt(DfuStatusLen);
            && (DFUStatusFromValue(v).None? ==> r == Failure(ValueError))
            && (DFUStatusFromValue(v).Some? ==>
                  if length == DfuStatusLen then r == Success((DfuPageCreateResponseMessage(DFUStatusFromValue(v).value), c1))
                  else r == Failure(InvalidLen))
  {
  }

  lemma DfuPageStoreResponseLenCheck(self: Message, length: int, c: Cursor)
    requires self.DfuPageStoreResponseMessage?
    ensures var r := DeserializeFields(self, length, c);
            var (v, c1) := c.ReadInt(DfuStatusLen);
            && (DFUStatusFromValue(v).None? ==> r == Failure(ValueError))
            && (DFUStatusFromValue(v).Some? ==>
                  if length == DfuStatusLen then r == Success((DfuPageStoreResponseMessage(DFUStatusFromValue(v).value), c1))
                  else r == Failure(InvalidLen))
  {
  }

  lemma DfuStateResponseLenCheck(self: Message, length: int, c: Cursor)
    requires self.DfuStateResponseMessage?
    ensures var r := DeserializeFields(self, length, c);
            var (v, c1) := c.ReadInt(DfuPreValidationStatusLen);
            && (DfuStatusFromValue(v).None? ==> r == Failure(ValueError))
            && (DfuStatusFromValue(v).Some? ==>
                  if length == DfuPreValidationStatusLen then r == Success((DfuStateResponseMessage(DfuStatusFromValue(v).value), c1))
                  else r == Failure(InvalidLen))
  {
  }

  /**
    A modem state whose byte is missing reads as the state with value 0, InitDevice: the
    stream `02 0F` with nothing after it decodes.
  */
  lemma CurrentStateResponseFromNothing(self: Message, c: Cursor)
    requires self.CurrentStateResponseMessage? && c.Remaining() == 0
    ensures DeserializeFields(self, ModemStateLen, c) == Success((CurrentStateResponseMessage(InitDevice), c))
  {
  }

  // ---------------------------------------------------------------------------------------
  // Classes of fixed size: InvalidLen exactly when LEN is not that size. The fields are read
  // from whatever the stream still holds; missing bytes are not an error.

  /** DfuStatusResponse: the status enum first, then InvalidLen unless LEN is 13. */
  lemma DfuStatusResponseLenCheck(self: Message, length: int, c: Cursor)
    requires self.DfuStatusResponseMessage?
    ensures var r := DeserializeFields(self, length, c);
            var size := DfuStatusLen + DfuSupportedPageSizeLen + DfuFirmwareOffsetLen + DfuFirmwareCrcLen;
            && (DFUStatusFromValue(c.ReadInt(DfuStatusLen).0).None? ==> r == Failure(ValueError))
            && (DFUStatusFromValue(c.ReadInt(DfuStatusLen).0).Some? ==>
                  && (r.Failure? <==> length != size)
                  && (r.Failure? ==> r.error == InvalidLen)
                  && (r.Success? ==> r.value.1 == Cursor(c.data, c.pos + Min(size, c.Remaining()))))
  {
  }

  /** DfuPageCreateRequest: InvalidLen unless LEN is 4; the page size is the 4 bytes read. */
  lemma DfuPageCreateRequestLenCheck(self: Message, length: int, c: Cursor)
    requires self.DfuPageCreateRequestMessage?
    ensures var r := DeserializeFields(self, length, c);
            && (r.Failure? <==> length != RequestedPageSizeLen)
            && (r.Failure? ==> r.error == InvalidLen)
            && (r.Success? ==> r.value == (DfuPageCreateRequestMessage(c.ReadInt(RequestedPageSizeLen).0),
                                           Cursor(c.data, c.pos + Min(RequestedPageSizeLen, c.Remaining()))))
  {
  }

  /** MeshMessageResponse: InvalidLen unless LEN is 2. */
  lemma MeshMessageResponseLenCheck(self: Message, length: int, c: Cursor)
    requires self.MeshMessageResponseMessage?
    ensures var r := DeserializeFields(self, length, c);
            var size := InstanceIndexLen + SubIndexLen;
            && (r.Failure? <==> length != size)
            && (r.Failure? ==> r.error == InvalidLen)
            && (r.Success? ==> r.value.1 == Cursor(c.data, c.pos + Min(size, c.Remaining())))
  {
  }

  /** StartTestRequest: InvalidLen unless LEN is 4. */
  lemma StartTestRequestLenCheck(self: Message, length: int, c: Cursor)
    requires self.StartTestRequest?
    ensures var r := DeserializeFields(self, length, c);
            var size := CompanyIdLen + TestIdLen + InstanceIndexLen;
            && (r.Failure? <==> length != size)
            && (r.Failure? ==> r.error == InvalidLen)
            && (r.Success? ==> r.value.1 == Cursor(c.data, c.pos + Min(size, c.Remaining())))
  {
  }

  /** DeviceUUIDResponse: InvalidLen unless LEN is 16 and the stream still holds 16 bytes. */
  lemma DeviceUUIDResponseLenCheck(self: Message, length: int, c: Cursor)
    requires self.DeviceUUIDResponseMessage?
    ensures var r := DeserializeFields(self, length, c);
            && (r.Failure? <==> length != UuidLen || c.Remaining() < UuidLen)
            && (r.Failure? ==> r.error == InvalidLen)
            && (r.Success? ==> r.value == (DeviceUUIDResponseMessage(c.data[c.pos..c.pos + UuidLen]),
                                           Cursor(c.data, c.pos + UuidLen)))
  {
  }

  /**
    FirmwareVersionResponse: only LEN 0 raises InvalidLen; the version is whatever `read(LEN)`
    returns, which is shorter than LEN when the stream runs out (and everything left for a
    negative LEN).
  */
  lemma FirmwareVersionResponseLenCheck(self: Message, length: int, c: Cursor)
    requires self.FirmwareVersionResponseMessage?
    ensures var r := DeserializeFields(self, length, c);
            && (r.Failure? <==> length == 0)
            && (r.Failure? ==> r.error == InvalidLen)
            && (r.Success? ==> |r.value.0.firmwareVersion| == if length < 0 then c.Remaining() else Min(length, c.Remaining()))
  {
  }

  // ---------------------------------------------------------------------------------------
  // Classes with a fixed part and a trailing byte string of LEN minus that part: InvalidLen
  // when that remainder is negative, or positive and not all present. The fixed part itself
  // is not checked to be present when the remainder is 0.

  /** PingRequest: the payload is LEN bytes, all of which must be present. */
  lemma PingRequestLenCheck(self: Message, length: int, c: Cursor)
    requires self.PingRequestMessage?
    ensures var r := DeserializeFields(self, length, c);
            && (r.Failure? <==> length < 0 || c.Remaining() < length)
            && (r.Failure? ==> r.error == InvalidLen)
            && (r.Success? ==> r.value.0.PingRequestMessage? && r.value.1 == Cursor(c.data, c.pos + length))
            && (r.Success? && c.pos <= |c.data| ==> r.value.0.data == c.data[c.pos..c.pos + length])
  {
  }

  /** PongResponse: the payload is LEN bytes, all of which must be present. */
  lemma PongResponseLenCheck(self: Message, length: int, c: Cursor)
    requires self.PongResponseMessage?
    ensures var r := DeserializeFields(self, length, c);
            && (r.Failure? <==> length < 0 || c.Remaining() < length)
            && (r.Failure? ==> r.error == InvalidLen)
            && (r.Success? ==> r.value.0.PongResponseMessage? && r.value.1 == Cursor(c.data, c.pos + length))
            && (r.Success? && c.pos <= |c.data| ==> r.value.0.data == c.data[c.pos..c.pos + length])
  {
  }

  /** MeshMessageRequest: 4 fixed bytes, then a mesh command of LEN - 4 bytes. */
  lemma MeshMessageRequestLenCheck(self: Message, length: int, c: Cursor)
    requires self.MeshMessageRequestMessage?
    ensures var r := DeserializeFields(self, length, c);
            var fixed := InstanceIndexLen + SubIndexLen + MeshOpcodeLen;
            var rest := length - fixed;
            && (r.Failure? <==> rest < 0 || (rest > 0 && c.Remaining() < length))
            && (r.Failure? ==> r.error == InvalidLen)
            && (r.Success? ==> r.value.1 == Cursor(c.data, c.pos + Min(fixed, c.Remaining()) + rest))
  {
  }

  /** SensorUpdateRequest: 3 fixed bytes, then sensor data of LEN - 3 bytes. */
  lemma SensorUpdateRequestLenCheck(self: Message, length: int, c: Cursor)
    requires self.SensorUpdateRequestMessage?
    ensures var r := DeserializeFields(self, length, c);
            var fixed := InstanceIndexLen + PropertyIdLen;
            var rest := length - fixed;
            && (r.Failure? <==> rest < 0 || (rest > 0 && c.Remaining() < length))
            && (r.Failure? ==> r.error == InvalidLen)
            && (r.Success? ==> r.value.1 == Cursor(c.data, c.pos + Min(fixed, c.Remaining()) + rest))
  {
  }

  // ---------------------------------------------------------------------------------------
  // Classes that carry their own data length: InvalidLen when it is not LEN minus the fixed
  // part, or when the data is not all present. A length byte that is missing reads as 0.

  /** DfuInitRequest: 37 fixed bytes, the last of which is the app data length. */
  lemma DfuInitRequestLenCheck(self: Message, length: int, c: Cursor)
    requires self.DfuInitRequestMessage?
    ensures var r := DeserializeFields(self, length, c);
            var fixed := DfuFirmwareSizeLen + DfuFirmwareSha256Len + DfuAppDataLengthLen;
            var rest := length - fixed;
            var adl := if c.Remaining() >= fixed then FromLittleEndian(c.data[c.pos + fixed - 1..c.pos + fixed]) else 0;
            && (r.Success? <==> rest == adl && (rest == 0 || c.Remaining() >= length))
            && (r.Failure? ==> r.error == InvalidLen)
  {
  }

  /** DfuWriteDataEvent: 1 fixed byte, the data length. */
  lemma DfuWriteDataEventLenCheck(self: Message, length: int, c: Cursor)
    requires self.DfuWriteDataEventMessage?
    ensures var r := DeserializeFields(self, length, c);
            var fixed := DfuDataLengthLen;
            var rest := length - fixed;
            var dl := if c.Remaining() >= fixed then FromLittleEndian(c.data[c.pos..c.pos + fixed]) else 0;
            && (r.Success? <==> rest == dl && (rest == 0 || c.Remaining() >= length))
            && (r.Failure? ==> r.error == InvalidLen)
  {
  }
}
