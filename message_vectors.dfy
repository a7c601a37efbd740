/**
  Concrete byte strings from the examples that accompany `messages.py`, read and written by
  the model: each shows one class's `deserialize` or `serialize` on a known input.
*/
module MessageVectors {
  import opened Wrappers
  import opened Bytes
  import opened ByteStream
  import opened MessageTypes
  import opened UartCommands
  import opened Messages
  import opened MessageProperties

  /** A ping carrying 0xBB is written as LEN 1, opcode 1, then 0xBB. */
  lemma PingWrite()
    ensures Serialize(PingRequestMessage([0xBB]), Out([], None)) == Out([0x01, 0x01, 0xBB], None)
  {
    SerializeHeader(PingRequestMessage([0xBB]), []);
  }

  /** A pong carrying 0xBB is written as LEN 1, opcode 2, then 0xBB. */
  lemma PongWrite()
    ensures Serialize(PongResponseMessage([0xBB]), Out([], None)) == Out([0x01, 0x02, 0xBB], None)
  {
    SerializeHeader(PongResponseMessage([0xBB]), []);
  }

  /** `01 01 AA` reads as a ping carrying 0xAA. */
  lemma PingRead()
    ensures var data: seq<uint8> := [0x01, 0x01, 0xAA];
            Deserialize(PingRequestMessage([]), Cursor(data, 0)) == Success((PingRequestMessage([0xAA]), Cursor(data, 3)))
  {
    var data: seq<uint8> := [0x01, 0x01, 0xAA];
    DeserializeHeader(PingRequestMessage([]), 1, data, 0);
    assert data[2..3] == [0xAA];
  }

  /** `03 01 AA BB`: LEN announces 3 bytes but the stream holds 2, so InvalidLen. */
  lemma PingShort()
    ensures Deserialize(PingRequestMessage([]), Cursor([0x03, 0x01, 0xAA, 0xBB], 0)) == Failure(InvalidLen)
  {
    var data: seq<uint8> := [0x03, 0x01, 0xAA, 0xBB];
    DeserializeHeader(PingRequestMessage([]), 3, data, 0);
  }

  /** `01 AB AA`: the opcode is not the ping's, so InvalidOpcode. */
  lemma PingWrongOpcode()
    ensures Deserialize(PingRequestMessage([]), Cursor([0x01, 0xAB, 0xAA], 0)) == Failure(InvalidOpcode)
  {
    WrongOpcode(PingRequestMessage([]), Cursor([0x01, 0xAB, 0xAA], 0));
  }

  /** The identifiers of the InitDeviceEvent examples, each as 2 little-endian bytes. */
  lemma IdBytes()
    ensures ToLittleEndian(GenOnOffClientID.Value(), 2) == [0x01, 0x10]
    ensures ToLittleEndian(GenLevelClientID.Value(), 2) == [0x03, 0x10]
    ensures ToLittleEndian(GenPowerOnOffClientID.Value(), 2) == [0x08, 0x10]
  {
    OneByte(0x10);
    assert ToLittleEndian(0x1001, 2) == [0x01] + ToLittleEndian(0x10, 1);
    assert ToLittleEndian(0x1003, 2) == [0x03] + ToLittleEndian(0x10, 1);
    assert ToLittleEndian(0x1008, 2) == [0x08] + ToLittleEndian(0x10, 1);
  }

  /** The last identifier alone, then the last two, then all three, on the wire. */
  lemma ThreeIdsBytes()
    ensures ModelIdsBytes([GenPowerOnOffClientID]) == [0x08, 0x10]
    ensures ModelIdsBytes([GenLevelClientID, GenPowerOnOffClientID]) == [0x03, 0x10, 0x08, 0x10]
    ensures ModelIdsBytes([GenOnOffClientID, GenLevelClientID]) == [0x01, 0x10, 0x03, 0x10]
    ensures ModelIdsBytes([GenOnOffClientID, GenLevelClientID, GenPowerOnOffClientID])
            == [0x01, 0x10, 0x03, 0x10, 0x08, 0x10]
  {
    IdBytes();
    var ids := [GenOnOffClientID, GenLevelClientID, GenPowerOnOffClientID];
    ModelIdsBytesCons([GenPowerOnOffClientID]);
    assert [GenPowerOnOffClientID][1..] == [];
    ModelIdsBytesCons([GenLevelClientID, GenPowerOnOffClientID]);
    assert [GenLevelClientID, GenPowerOnOffClientID][1..] == [GenPowerOnOffClientID];
    ModelIdsBytesCons(ids);
    assert ids[1..] == [GenLevelClientID, GenPowerOnOffClientID];
    ModelIdsBytesCons([GenOnOffClientID, GenLevelClientID]);
    assert [GenOnOffClientID, GenLevelClientID][1..] == [GenLevelClientID];
    ModelIdsBytesCons([GenLevelClientID]);
    assert [GenLevelClientID][1..] == [];
  }

  /** The identifier bytes of `06 03 01 10 03 10 08 10` read as the three identifiers. */
  lemma ThreeIdsRead(data: seq<uint8>)
    requires data == [0x06, 0x03, 0x01, 0x10, 0x03, 0x10, 0x08, 0x10]
    ensures ReadModelIds([], 6, Cursor(data, 2))
            == Success(([GenOnOffClientID, GenLevelClientID, GenPowerOnOffClientID], Cursor(data, 8)))
  {
    var ids := [GenOnOffClientID, GenLevelClientID, GenPowerOnOffClientID];
    ThreeIdsBytes();
    assert data[2..] == ModelIdsBytes(ids) + [];
    ReadModelIdsBack([], ids, Cursor(data, 2), []);
    assert [] + ids == ids;
  }

  /** `06 03 01 10 03 10 08 10` reads as InitDeviceEvent with three identifiers. */
  lemma InitDeviceEventRead(data: seq<uint8>)
    requires data == [0x06, 0x03, 0x01, 0x10, 0x03, 0x10, 0x08, 0x10]
    ensures Deserialize(InitDeviceEventMessage([]), Cursor(data, 0))
            == Success((InitDeviceEventMessage([GenOnOffClientID, GenLevelClientID, GenPowerOnOffClientID]), Cursor(data, 8)))
  {
    DeserializeHeader(InitDeviceEventMessage([]), 6, data, 0);
    IdListFields(InitDeviceEventMessage([]), 6, Cursor(data, 2));
    ThreeIdsRead(data);
  }

  /** The identifier bytes `01 10 03 10 08 10` under LEN 5 or 7 leave one byte over: InvalidLen. */
  lemma OddIdsRead(data: seq<uint8>, len: int)
    requires |data| == 8 && data[2..] == [0x01, 0x10, 0x03, 0x10, 0x08, 0x10] && (len == 5 || len == 7)
    ensures ReadModelIds([], len, Cursor(data, 2)) == Failure(InvalidLen)
  {
    ThreeIdsBytes();
    if len == 7 {
      var ids := [GenOnOffClientID, GenLevelClientID, GenPowerOnOffClientID];
      assert data[2..] == ModelIdsBytes(ids) + [];
      ReadModelIdsOdd([], ids, Cursor(data, 2), []);
    } else {
      var ids := [GenOnOffClientID, GenLevelClientID];
      assert data[2..] == ModelIdsBytes(ids) + [0x08, 0x10];
      ReadModelIdsOdd([], ids, Cursor(data, 2), [0x08, 0x10]);
    }
  }


  /** `07 03 ...`: an odd LEN leaves one byte after the identifiers, so InvalidLen. */
  lemma InitDeviceEventOddLen(data: seq<uint8>)
    requires data == [0x07, 0x03, 0x01, 0x10, 0x03, 0x10, 0x08, 0x10]
    ensures Deserialize(InitDeviceEventMessage([]), Cursor(data, 0)) == Failure(InvalidLen)
  {
    DeserializeHeader(InitDeviceEventMessage([]), 7, data, 0);
    IdListFields(InitDeviceEventMessage([]), 7, Cursor(data, 2));
    assert data[2..] == [0x01, 0x10, 0x03, 0x10, 0x08, 0x10];
    OddIdsRead(data, 7);
  }


  /** `05 03 ...`: LEN 5 covers two identifiers and one byte more, so InvalidLen. */
  lemma InitDeviceEventShortLen(data: seq<uint8>)
    requires data == [0x05, 0x03, 0x01, 0x10, 0x03, 0x10, 0x08, 0x10]
    ensures Deserialize(InitDeviceEventMessage([]), Cursor(data, 0)) == Failure(InvalidLen)
  {
    DeserializeHeader(InitDeviceEventMessage([]), 5, data, 0);
    IdListFields(InitDeviceEventMessage([]), 5, Cursor(data, 2));
    assert data[2..] == [0x01, 0x10, 0x03, 0x10, 0x08, 0x10];
    OddIdsRead(data, 5);
  }


  /** `00 09` reads as StartNodeRequest; `02 09 AA BB` announces fields it has none of, so InvalidLen. */
  lemma StartNodeRequestRead()
    ensures Deserialize(StartNodeRequestMessage, Cursor([0x00, 0x09], 0))
            == Success((StartNodeRequestMessage, Cursor([0x00, 0x09], 2)))
    ensures Deserialize(StartNodeRequestMessage, Cursor([0x02, 0x09, 0xAA, 0xBB], 0)) == Failure(InvalidLen)
  {
    DeserializeHeader(StartNodeRequestMessage, 0, [0x00, 0x09], 0);
    ZeroPayloadLen(StartNodeRequestMessage, 0, Cursor([0x00, 0x09], 2));
    DeserializeHeader(StartNodeRequestMessage, 2, [0x02, 0x09, 0xAA, 0xBB], 0);
    ZeroPayloadLen(StartNodeRequestMessage, 2, Cursor([0x02, 0x09, 0xAA, 0xBB], 2));
  }

  /** The mesh opcode 0xDDCC travels as `CC DD`. */
  lemma MeshOpcodeBytes()
    ensures ToLittleEndian(0xDDCC, 2) == [0xCC, 0xDD]
  {
    OneByte(0xDD);
    assert ToLittleEndian(0xDDCC, 2) == [0xCC] + ToLittleEndian(0xDD, 1);
  }

  /** MeshMessageRequest(0xAA, 0xBB, 0xDDCC, `12 34`) is written as `06 07 AA BB CC DD 12 34`. */
  lemma MeshMessageRequestWrite()
    ensures Serialize(MeshMessageRequestMessage(0xAA, 0xBB, 0xDDCC, [0x12, 0x34]), Out([], None))
            == Out([0x06, 0x07, 0xAA, 0xBB, 0xCC, 0xDD, 0x12, 0x34], None)
  {
    var m := MeshMessageRequestMessage(0xAA, 0xBB, 0xDDCC, [0x12, 0x34]);
    OneByte(0xAA);
    OneByte(0xBB);
    MeshOpcodeBytes();
    SerializeHeader(m, []);
  }

  /** `06 07 AA BB CC DD 12 34` reads back as the same message; the opcode is little-endian. */
  lemma MeshMessageRequestRead()
    ensures var data: seq<uint8> := [0x06, 0x07, 0xAA, 0xBB, 0xCC, 0xDD, 0x12, 0x34];
            Deserialize(MeshMessageRequestMessage(0, 0, 0, []), Cursor(data, 0))
            == Success((MeshMessageRequestMessage(0xAA, 0xBB, 0xDDCC, [0x12, 0x34]), Cursor(data, 8)))
  {
    var data: seq<uint8> := [0x06, 0x07, 0xAA, 0xBB, 0xCC, 0xDD, 0x12, 0x34];
    var m := MeshMessageRequestMessage(0xAA, 0xBB, 0xDDCC, [0x12, 0x34]);
    var self := MeshMessageRequestMessage(0, 0, 0, []);
    MeshMessageRequestWrite();
    assert WellFormed(m);
    MeshMessageRequestRoundTrip(m, [] + [GetLength(m) as uint8, Type(m).Value() as uint8], []);
    assert NewMessage(Type(m)).value == self;
    RoundTripThrough(m, self, [], []);
    assert data + [] == data;
  }

  /** `08 07 ...`: LEN 8 asks for a 4-byte command but only 2 bytes follow, so InvalidLen. */
  lemma MeshMessageRequestLongLen()
    ensures Deserialize(MeshMessageRequestMessage(0, 0, 0, []), Cursor([0x08, 0x07, 0xAA, 0xBB, 0xCC, 0xDD, 0x12, 0x34], 0))
            == Failure(InvalidLen)
  {
    DeserializeHeader(MeshMessageRequestMessage(0, 0, 0, []), 8, [0x08, 0x07, 0xAA, 0xBB, 0xCC, 0xDD, 0x12, 0x34], 0);
  }
}
