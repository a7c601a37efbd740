/**
  What the message classes of `messages.py` promise about their wire form `LEN | OP | FIELDS`:
  when `serialize` succeeds and what it writes, how `deserialize` reacts to a wrong opcode or
  a wrong LEN, and that reading back what a well-formed message wrote gives that message.
*/
module MessageProperties {
  import opened Wrappers
  import opened Bytes
  import opened ByteStream
  import opened MessageTypes
  import opened UartCommands
  import opened Messages
  import ErrorCodes

  // ---------------------------------------------------------------------------------------
  // Which messages can be written and read back

  /** Every integer field fits the number of bytes its class writes it in. */
  predicate FieldsFit(m: Message)
  {
    match m
    case MeshMessageRequestMessage(ii, si, op, _) =>
      FitsUnsigned(ii, InstanceIndexLen) && FitsUnsigned(si, SubIndexLen) && FitsUnsigned(op, MeshOpcodeLen)
    case MeshMessageResponseMessage(ii, si) =>
      FitsUnsigned(ii, InstanceIndexLen) && FitsUnsigned(si, SubIndexLen)
    case SensorUpdateRequestMessage(ii, pid, _) =>
      FitsUnsigned(ii, InstanceIndexLen) && FitsUnsigned(pid, PropertyIdLen)
    case DfuInitRequestMessage(fs, _, adl, _) =>
      FitsUnsigned(fs, DfuFirmwareSizeLen) && FitsUnsigned(adl, DfuAppDataLengthLen)
    case DfuStatusResponseMessage(_, ps, off, crc) =>
      FitsUnsigned(ps, DfuSupportedPageSizeLen) && FitsUnsigned(off, DfuFirmwareOffsetLen)
      && FitsUnsigned(crc, DfuFirmwareCrcLen)
    case DfuPageCreateRequestMessage(ps) => FitsUnsigned(ps, RequestedPageSizeLen)
    case DfuWriteDataEventMessage(dl, _) => FitsUnsigned(dl, DfuDataLengthLen)
    case StartTestRequest(cid, tid, ii) =>
      FitsUnsigned(cid, CompanyIdLen) && FitsUnsigned(tid, TestIdLen) && FitsUnsigned(ii, InstanceIndexLen)
    case _ => true
  }

  /**
    The fields agree with what `get_length` counts and with the checks `deserialize` makes:
    well-formed model descriptions, a non-empty firmware version, a 16-byte UUID, a 32-byte
    hash, and inner lengths equal to the data they describe.
  */
  predicate FieldsConsistent(m: Message)
  {
    match m
    case CreateInstancesRequestMessage(ds) => DescsWellFormed(ds)
    case FirmwareVersionResponseMessage(v) => |v| > 0
    case DeviceUUIDResponseMessage(u) => |u| == UuidLen
    case DfuInitRequestMessage(_, sha, adl, ad) => |sha| == DfuFirmwareSha256Len && adl == |ad|
    case DfuWriteDataEventMessage(dl, data) => dl == |data|
    case _ => true
  }

  /** A message that `serialize` writes and `deserialize` reads back unchanged. */
  predicate WellFormed(m: Message)
  {
    !m.GenericMessage? && GetLength(m) < 256 && FieldsFit(m) && FieldsConsistent(m)
  }

  // ---------------------------------------------------------------------------------------
  // serialize

  /** `to_bytes(1, 'little')` of a byte value is that byte. */
  lemma OneByte(v: int)
    requires 0 <= v < 256
    ensures ToLittleEndian(v, 1) == [v as uint8]
  {
    assert ToLittleEndian(v, 1) == [v % 256] + ToLittleEndian(v / 256, 0);
  }

  /**
    `serialize` succeeds exactly when the message is not the generic one, its `get_length`
    fits LEN's single byte and every integer field fits its width; otherwise it raises.
  */
  lemma SerializeSucceedsIff(m: Message, p: seq<uint8>)
    ensures Serialize(m, Out(p, None)).error.None? <==>
            !m.GenericMessage? && GetLength(m) < 256 && FieldsFit(m)
  {
    if !m.GenericMessage? {
      var o := SerializeCommonPart(m, Out(p, None));
      assert o.error.None? <==> GetLength(m) < 256;
      if o.error.None? {
        FieldsErrorIff(m, o);
      } else {
        FieldsKeepError(m, o);
      }
    }
  }

  /** Writing the fields raises exactly when one of them does not fit its width. */
  lemma FieldsErrorIff(m: Message, o: Out)
    requires o.error.None?
    ensures SerializeFields(m, o).error.None? <==> FieldsFit(m)
  {
  }

  /** Once an exception has been raised, writing the fields leaves it raised. */
  lemma FieldsKeepError(m: Message, o: Out)
    requires o.error.Some?
    ensures SerializeFields(m, o).error.Some?
  {
  }

  /** A LEN above 255 raises OverflowError before a single byte is written. */
  lemma SerializeOverflow(m: Message, p: seq<uint8>)
    requires !m.GenericMessage? && GetLength(m) >= 256
    ensures Serialize(m, Out(p, None)) == Out(p, Some(OverflowError))
  {
  }

  /** The generic message writes nothing and raises AssertionError. */
  lemma SerializeGeneric(p: seq<uint8>)
    ensures Serialize(GenericMessage, Out(p, None)) == Out(p, Some(AssertionError))
  {
  }

  // ---------------------------------------------------------------------------------------
  // The list encodings, read from the front

  /** The identifier list's bytes are its first identifier's bytes, then the rest's. */
  lemma {:induction false} ModelIdsBytesCons(ids: seq<ModelID>)
    requires ids != []
    ensures ModelIdsBytes(ids) == ToLittleEndian(ids[0].Value(), ModelIdLen) + ModelIdsBytes(ids[1..])
    decreases |ids|
  {
    if |ids| > 1 {
      var init := ids[..|ids| - 1];
      ModelIdsBytesCons(init);
      assert init[1..] == ids[1..][..|ids[1..]| - 1];
    } else {
      assert ids[1..] == [];
    }
  }

  /** Each identifier takes 2 bytes. */
  lemma {:induction false} ModelIdsBytesLength(ids: seq<ModelID>)
    ensures |ModelIdsBytes(ids)| == ModelIdLen * |ids|
    decreases |ids|
  {
    if ids != [] {
      ModelIdsBytesLength(ids[..|ids| - 1]);
    }
  }

  /** The description list's bytes are its first description's bytes, then the rest's. */
  lemma {:induction false} ModelDescsBytesCons(ds: seq<ModelDesc>)
    requires ds != []
    ensures ModelDescsBytes(ds) == ModelDescBytes(ds[0]) + ModelDescsBytes(ds[1..])
    ensures DescsLength(ds) == ds[0].GetLength() + DescsLength(ds[1..])
    decreases |ds|
  {
    if |ds| > 1 {
      var init := ds[..|ds| - 1];
      ModelDescsBytesCons(init);
      assert init[1..] == ds[1..][..|ds[1..]| - 1];
    } else {
      assert ds[1..] == [];
    }
  }

  /** Appending the head of xs, then its tail, is appending xs. */
  lemma AppendHeadTail<T>(acc: seq<T>, xs: seq<T>)
    requires xs != []
    ensures acc + [xs[0]] + xs[1..] == acc + xs
  {
  }

  /** The identifier whose bytes come next is read, and the rest of the list's bytes follow it. */
  lemma ReadModelIdAt(ids: seq<ModelID>, c: Cursor, rest: seq<uint8>)
    requires ids != []
    requires c.pos <= |c.data| && c.data[c.pos..] == ModelIdsBytes(ids) + rest
    ensures ReadModelID(c) == Success((ids[0], Cursor(c.data, c.pos + ModelIdLen)))
    ensures c.data[c.pos + ModelIdLen..] == ModelIdsBytes(ids[1..]) + rest
    ensures ModelIdLen * |ids| - ModelIdLen == ModelIdLen * |ids[1..]|
  {
    ModelIdsBytesCons(ids);
    var tail := ModelIdsBytes(ids[1..]) + rest;
    assert c.data[c.pos..] == ToLittleEndian(ids[0].Value(), ModelIdLen) + tail;
    ReadIntBack(c, ids[0].Value(), ModelIdLen, tail);
    ModelIDValueRoundTrip(ids[0]);
  }

  /**
    The `while length >= 2` loop of the identifier lists reads back, after whatever the list
    already held, exactly the identifiers whose bytes the stream holds next.
  */
  lemma {:induction false} ReadModelIdsBack(acc: seq<ModelID>, ids: seq<ModelID>, c: Cursor, rest: seq<uint8>)
    requires c.pos <= |c.data| && c.data[c.pos..] == ModelIdsBytes(ids) + rest
    ensures ReadModelIds(acc, ModelIdLen * |ids|, c) == Success((acc + ids, Cursor(c.data, c.pos + ModelIdLen * |ids|)))
    decreases |ids|
  {
    if ids == [] {
      assert acc + ids == acc;
    } else {
      var c1 := Cursor(c.data, c.pos + ModelIdLen);
      ReadModelIdAt(ids, c, rest);
      ReadModelIdsBack(acc + [ids[0]], ids[1..], c1, rest);
      AppendHeadTail(acc, ids);
    }
  }

  /** When LEN is odd, the byte left over after the identifiers raises InvalidLen. */
  lemma {:induction false} ReadModelIdsOdd(acc: seq<ModelID>, ids: seq<ModelID>, c: Cursor, rest: seq<uint8>)
    requires c.pos <= |c.data| && c.data[c.pos..] == ModelIdsBytes(ids) + rest
    ensures ReadModelIds(acc, ModelIdLen * |ids| + 1, c) == Failure(InvalidLen)
    decreases |ids|
  {
    if ids != [] {
      var c1 := Cursor(c.data, c.pos + ModelIdLen);
      ReadModelIdAt(ids, c, rest);
      ReadModelIdsOdd(acc + [ids[0]], ids[1..], c1, rest);
    }
  }

  /** Every description in the list is well formed. */
  predicate DescsWellFormed(ds: seq<ModelDesc>)
  {
    forall i :: 0 <= i < |ds| ==> ds[i].WellFormed()
  }

  /** Well-formed descriptions take `DescsLength` bytes in all. */
  lemma {:induction false} ModelDescsBytesLength(ds: seq<ModelDesc>)
    requires DescsWellFormed(ds)
    ensures |ModelDescsBytes(ds)| == DescsLength(ds)
    decreases |ds|
  {
    if ds != [] {
      var d := ds[|ds| - 1];
      assert d.WellFormed();
      ModelDescsBytesLength(ds[..|ds| - 1]);
    }
  }

  /** The description whose bytes come next is read, and the rest of the list's bytes follow it. */
  lemma ReadModelDescAt(ds: seq<ModelDesc>, c: Cursor, rest: seq<uint8>)
    requires ds != [] && ds[0].WellFormed()
    requires c.pos <= |c.data| && c.data[c.pos..] == ModelDescsBytes(ds) + rest
    ensures DescsLength(ds) == ds[0].GetLength() + DescsLength(ds[1..]) >= ModelIdLen
    ensures DeserializeModelDesc(c) == Success((ds[0], Cursor(c.data, c.pos + ds[0].GetLength())))
    ensures c.pos + ds[0].GetLength() <= |c.data|
    ensures c.data[c.pos + ds[0].GetLength()..] == ModelDescsBytes(ds[1..]) + rest
  {
    ModelDescsBytesCons(ds);
    var tail := ModelDescsBytes(ds[1..]) + rest;
    assert c.data[c.pos..] == ModelDescBytes(ds[0]) + tail;
    ModelDescRoundTrip(ds[0], c, tail);
    assert c.data[c.pos + ds[0].GetLength()..] == c.data[c.pos..][|ModelDescBytes(ds[0])|..];
  }

  lemma TailWellFormed(ds: seq<ModelDesc>)
    requires ds != [] && DescsWellFormed(ds)
    ensures DescsWellFormed(ds[1..])
  {
    assert forall i :: 0 <= i < |ds[1..]| ==> ds[1..][i] == ds[i + 1];
  }

  /**
    The `while length >= 2` loop of CreateInstancesRequest reads back, after whatever the list
    already held, exactly the well-formed descriptions whose bytes the stream holds next.
  */
  lemma {:induction false} ReadModelDescsBack(acc: seq<ModelDesc>, ds: seq<ModelDesc>, c: Cursor, rest: seq<uint8>)
    requires DescsWellFormed(ds)
    requires c.pos <= |c.data| && c.data[c.pos..] == ModelDescsBytes(ds) + rest
    ensures ReadModelDescs(acc, DescsLength(ds), c) == Success((acc + ds, Cursor(c.data, c.pos + DescsLength(ds))))
    decreases |ds|
  {
    if ds == [] {
      assert acc + ds == acc;
    } else {
      var c1 := Cursor(c.data, c.pos + ds[0].GetLength());
      ReadModelDescAt(ds, c, rest);
      TailWellFormed(ds);
      ReadModelDescsBack(acc + [ds[0]], ds[1..], c1, rest);
      ReadModelDescsFrom(acc, ds, c);
    }
  }

  /** The first turn of the loop, followed by the turns that read the rest of the list. */
  lemma ReadModelDescsFrom(acc: seq<ModelDesc>, ds: seq<ModelDesc>, c: Cursor)
    requires ds != []
    requires DescsLength(ds) == ds[0].GetLength() + DescsLength(ds[1..]) >= ModelIdLen
    requires var c1 := Cursor(c.data, c.pos + ds[0].GetLength());
             && DeserializeModelDesc(c) == Success((ds[0], c1))
             && ReadModelDescs(acc + [ds[0]], DescsLength(ds[1..]), c1) ==
                Success((acc + [ds[0]] + ds[1..], Cursor(c.data, c1.pos + DescsLength(ds[1..]))))
    ensures ReadModelDescs(acc, DescsLength(ds), c) == Success((acc + ds, Cursor(c.data, c.pos + DescsLength(ds))))
  {
    var c1 := Cursor(c.data, c.pos + ds[0].GetLength());
    ReadModelDescsStep(acc, DescsLength(ds), c, ds[0], c1, DescsLength(ds[1..]));
    AppendHeadTail(acc, ds);
  }

  /** One turn of the loop: the description read is appended and its length taken off LEN. */
  lemma ReadModelDescsStep(acc: seq<ModelDesc>, length: int, c: Cursor, d: ModelDesc, c1: Cursor, left: int)
    requires length >= ModelIdLen && DeserializeModelDesc(c) == Success((d, c1))
    requires left == length - d.GetLength()
    ensures ReadModelDescs(acc, length, c) == ReadModelDescs(acc + [d], left, c1)
  {
  }

  // ---------------------------------------------------------------------------------------
  // Round trip, class by class

  /**
    Writing m's fields after b appends exactly `get_length()` bytes, and the class's
    `deserialize`, given LEN = `get_length()` and positioned after b, reads m back from them
    and stops right after them, whatever follows.
  */
  predicate FieldsRoundTrip(m: Message, self: Message, b: seq<uint8>, tail: seq<uint8>)
  {
    var o := SerializeFields(m, Out(b, None));
    o.error.None? && |o.bytes| == |b| + GetLength(m) && o.bytes[..|b|] == b &&
    DeserializeFields(self, GetLength(m), Cursor(o.bytes + tail, |b|))
      == Success((m, Cursor(o.bytes + tail, |o.bytes|)))
  }

  lemma BlobRoundTrip(m: Message, b: seq<uint8>, tail: seq<uint8>)
    requires m.PingRequestMessage? || m.PongResponseMessage? || m.FirmwareVersionResponseMessage?
    requires WellFormed(m)
    ensures FieldsRoundTrip(m, NewMessage(Type(m)).value, b, tail)
  {
    var d := if m.FirmwareVersionResponseMessage? then m.firmwareVersion else m.data;
    var data := b + d + tail;
    assert SerializeFields(m, Out(b, None)) == Out(b + d, None);
    assert data[|b|..] == d + tail;
    ReadBack(Cursor(data, |b|), d, tail);
  }

  /** What follows b in b + x + tail. */
  lemma After<T>(b: seq<T>, x: seq<T>, tail: seq<T>)
    ensures (b + x + tail)[|b|..] == x + tail
  {
  }

  /** The identifier list a message writes after b is read back into an empty list. */
  lemma ModelIdsBack(ids: seq<ModelID>, b: seq<uint8>, tail: seq<uint8>)
    ensures var enc := ModelIdsBytes(ids); var data := b + enc + tail;
            ReadModelIds([], |enc|, Cursor(data, |b|)) == Success((ids, Cursor(data, |b| + |enc|)))
  {
    var enc := ModelIdsBytes(ids);
    var data := b + enc + tail;
    ModelIdsBytesLength(ids);
    assert data[|b|..] == enc + tail;
    ReadModelIdsBack([], ids, Cursor(data, |b|), tail);
    assert [] + ids == ids;
  }

  lemma ModelIdListRoundTrip(m: Message, b: seq<uint8>, tail: seq<uint8>)
    requires IsModelIdList(m)
    requires WellFormed(m)
    ensures FieldsRoundTrip(m, NewMessage(Type(m)).value, b, tail)
  {
    assert NewMessage(Type(m)).value == m.(modelIds := []);
    ModelIdListInto(m, m.(modelIds := []), b, tail);
  }

  /** The identifier lists read back into an object of their class whose list is empty. */
  lemma ModelIdListInto(m: Message, self: Message, b: seq<uint8>, tail: seq<uint8>)
    requires IsModelIdList(m) && self == m.(modelIds := [])
    ensures FieldsRoundTrip(m, self, b, tail)
  {
    var enc := ModelIdsBytes(m.modelIds);
    var data := b + enc + tail;
    ModelIdsBytesLength(m.modelIds);
    assert SerializeFields(m, Out(b, None)) == Out(b + enc, None);
    ModelIdsBack(m.modelIds, b, tail);
    assert DeserializeFields(self, |enc|, Cursor(data, |b|)) == Success((m, Cursor(data, |b| + |enc|)));
    assert (b + enc)[..|b|] == b;
  }

  /** The description list a message writes after b is read back into an empty list. */
  lemma ModelDescsBack(ds: seq<ModelDesc>, b: seq<uint8>, tail: seq<uint8>)
    requires DescsWellFormed(ds)
    ensures |ModelDescsBytes(ds)| == DescsLength(ds)
    ensures var data := b + ModelDescsBytes(ds) + tail;
            ReadModelDescs([], DescsLength(ds), Cursor(data, |b|)) == Success((ds, Cursor(data, |b| + DescsLength(ds))))
  {
    ModelDescsBytesLength(ds);
    After(b, ModelDescsBytes(ds), tail);
    ReadModelDescsAll(ds, Cursor(b + ModelDescsBytes(ds) + tail, |b|), tail);
  }

  /** The loop, started on an empty list, reads back exactly the descriptions whose bytes come next. */
  lemma ReadModelDescsAll(ds: seq<ModelDesc>, c: Cursor, rest: seq<uint8>)
    requires DescsWellFormed(ds)
    requires c.pos <= |c.data| && c.data[c.pos..] == ModelDescsBytes(ds) + rest
    ensures ReadModelDescs([], DescsLength(ds), c) == Success((ds, Cursor(c.data, c.pos + DescsLength(ds))))
  {
    ReadModelDescsBack([], ds, c, rest);
    assert [] + ds == ds;
  }

  lemma ModelDescListRoundTrip(m: Message, b: seq<uint8>, tail: seq<uint8>)
    requires m.CreateInstancesRequestMessage?
    requires WellFormed(m)
    ensures FieldsRoundTrip(m, NewMessage(Type(m)).value, b, tail)
  {
    assert NewMessage(Type(m)).value == CreateInstancesRequestMessage([]);
    ModelDescListInto(m, b, tail);
  }

  /** The description list reads back into an object whose list is empty. */
  lemma ModelDescListInto(m: Message, b: seq<uint8>, tail: seq<uint8>)
    requires m.CreateInstancesRequestMessage?
    requires DescsWellFormed(m.modelDescs)
    ensures FieldsRoundTrip(m, CreateInstancesRequestMessage([]), b, tail)
  {
    var ds := m.modelDescs;
    var enc := ModelDescsBytes(ds);
    var data := b + enc + tail;
    assert SerializeFields(m, Out(b, None)) == Out(b + enc, None);
    ModelDescsBack(ds, b, tail);
    assert DeserializeFields(CreateInstancesRequestMessage([]), |enc|, Cursor(data, |b|))
           == Success((m, Cursor(data, |b| + |enc|)));
    assert (b + enc)[..|b|] == b;
  }


  lemma MeshMessageRequestRoundTrip(m: Message, b: seq<uint8>, tail: seq<uint8>)
    requires m.MeshMessageRequestMessage?
    requires WellFormed(m)
    ensures FieldsRoundTrip(m, NewMessage(Type(m)).value, b, tail)
  {
    MeshMessageRequestFieldsRoundTrip(m, b, tail);
    assert Type(m) == UartCommand.MeshMessageRequest;
  }

  /** The mesh request's fields read back through the object `MeshMessageRequestMessage()` builds. */
  lemma MeshMessageRequestFieldsRoundTrip(m: Message, b: seq<uint8>, tail: seq<uint8>)
    requires m.MeshMessageRequestMessage?
    requires WellFormed(m)
    ensures FieldsRoundTrip(m, MeshMessageRequestMessage(0, 0, 0, []), b, tail)
  {
    var e1 := ToLittleEndian(m.instanceIndex, InstanceIndexLen);
    var e2 := ToLittleEndian(m.subIndex, SubIndexLen);
    var e3 := ToLittleEndian(m.meshOpcode, MeshOpcodeLen);
    var o := b + e1 + e2 + e3 + m.meshCommand;
    MeshMessageRequestWrite(m, b);
    MeshMessageRequestFieldsBack(m, o + tail, |b|, tail);
    assert GetLength(m) == 4 + |m.meshCommand|;
    assert o[..|b|] == b;
  }

  lemma MeshMessageRequestWrite(m: Message, b: seq<uint8>)
    requires m.MeshMessageRequestMessage? && FieldsFit(m)
    ensures SerializeFields(m, Out(b, None))
            == Out(b + ToLittleEndian(m.instanceIndex, InstanceIndexLen) + ToLittleEndian(m.subIndex, SubIndexLen)
                     + ToLittleEndian(m.meshOpcode, MeshOpcodeLen) + m.meshCommand, None)
  {
    var o1 := Out(b, None).PutInt(m.instanceIndex, InstanceIndexLen);
    assert o1 == Out(b + ToLittleEndian(m.instanceIndex, InstanceIndexLen), None);
    var o2 := o1.PutInt(m.subIndex, SubIndexLen);
    assert o2 == Out(o1.bytes + ToLittleEndian(m.subIndex, SubIndexLen), None);
    var o3 := o2.PutInt(m.meshOpcode, MeshOpcodeLen);
    assert o3 == Out(o2.bytes + ToLittleEndian(m.meshOpcode, MeshOpcodeLen), None);
  }

  /** The mesh request's fields, written from `pos` on, read back as themselves. */
  lemma MeshMessageRequestFieldsBack(m: Message, data: seq<uint8>, pos: nat, tail: seq<uint8>)
    requires m.MeshMessageRequestMessage? && WellFormed(m)
    requires pos <= |data|
    requires data == data[..pos] + ToLittleEndian(m.instanceIndex, InstanceIndexLen) + ToLittleEndian(m.subIndex, SubIndexLen)
                     + ToLittleEndian(m.meshOpcode, MeshOpcodeLen) + m.meshCommand + tail
    ensures MeshMessageRequestFields(4 + |m.meshCommand|, Cursor(data, pos))
            == Success((m, Cursor(data, pos + 4 + |m.meshCommand|)))
  {
    var e1 := ToLittleEndian(m.instanceIndex, InstanceIndexLen);
    var e2 := ToLittleEndian(m.subIndex, SubIndexLen);
    var e3 := ToLittleEndian(m.meshOpcode, MeshOpcodeLen);
    var cmd := m.meshCommand;
    assert data[pos..] == e1 + (e2 + (e3 + (cmd + tail)));
    ReadIntBack(Cursor(data, pos), m.instanceIndex, InstanceIndexLen, e2 + (e3 + (cmd + tail)));
    ReadIntBack(Cursor(data, pos + 1), m.subIndex, SubIndexLen, e3 + (cmd + tail));
    ReadIntBack(Cursor(data, pos + 2), m.meshOpcode, MeshOpcodeLen, cmd + tail);
    ReadBack(Cursor(data, pos + 4), cmd, tail);
  }

  lemma MeshMessageResponseRoundTrip(m: Message, b: seq<uint8>, tail: seq<uint8>)
    requires m.MeshMessageResponseMessage?
    requires WellFormed(m)
    ensures FieldsRoundTrip(m, NewMessage(Type(m)).value, b, tail)
  {
    var e1 := ToLittleEndian(m.instanceIndex, InstanceIndexLen);
    var e2 := ToLittleEndian(m.subIndex, SubIndexLen);
    var data := b + e1 + e2 + tail;
    assert SerializeFields(m, Out(b, None)) == Out(b + e1 + e2, None);
    assert data[|b|..] == e1 + (e2 + tail);
    ReadIntBack(Cursor(data, |b|), m.instanceIndex, InstanceIndexLen, e2 + tail);
    ReadIntBack(Cursor(data, |b| + 1), m.subIndex, SubIndexLen, tail);
  }

  lemma SensorUpdateRequestRoundTrip(m: Message, b: seq<uint8>, tail: seq<uint8>)
    requires m.SensorUpdateRequestMessage?
    requires WellFormed(m)
    ensures FieldsRoundTrip(m, NewMessage(Type(m)).value, b, tail)
  {
    SensorUpdateRequestFieldsRoundTrip(m, b, tail);
    assert Type(m) == UartCommand.SensorUpdateRequest;
  }

  /** The sensor update's fields read back through the object `SensorUpdateRequestMessage()` builds. */
  lemma SensorUpdateRequestFieldsRoundTrip(m: Message, b: seq<uint8>, tail: seq<uint8>)
    requires m.SensorUpdateRequestMessage?
    requires WellFormed(m)
    ensures FieldsRoundTrip(m, SensorUpdateRequestMessage(0, 0, []), b, tail)
  {
    var e1 := ToLittleEndian(m.instanceIndex, InstanceIndexLen);
    var e2 := ToLittleEndian(m.propertyId, PropertyIdLen);
    var d := m.data;
    var o := b + e1 + e2 + d;
    SensorUpdateRequestWrite(m, b);
    SensorUpdateRequestFieldsBack(m, o + tail, |b|, tail);
    assert GetLength(m) == 3 + |d|;
    assert o[..|b|] == b;
  }

  lemma SensorUpdateRequestWrite(m: Message, b: seq<uint8>)
    requires m.SensorUpdateRequestMessage? && FieldsFit(m)
    ensures SerializeFields(m, Out(b, None))
            == Out(b + ToLittleEndian(m.instanceIndex, InstanceIndexLen) + ToLittleEndian(m.propertyId, PropertyIdLen)
                     + m.data, None)
  {
    var o1 := Out(b, None).PutInt(m.instanceIndex, InstanceIndexLen);
    assert o1 == Out(b + ToLittleEndian(m.instanceIndex, InstanceIndexLen), None);
    var o2 := o1.PutInt(m.propertyId, PropertyIdLen);
    assert o2 == Out(o1.bytes + ToLittleEndian(m.propertyId, PropertyIdLen), None);
  }

  /** The sensor update's fields, written from `pos` on, read back as themselves. */
  lemma SensorUpdateRequestFieldsBack(m: Message, data: seq<uint8>, pos: nat, tail: seq<uint8>)
    requires m.SensorUpdateRequestMessage? && WellFormed(m)
    requires pos <= |data|
    requires data == data[..pos] + ToLittleEndian(m.instanceIndex, InstanceIndexLen)
                     + ToLittleEndian(m.propertyId, PropertyIdLen) + m.data + tail
    ensures SensorUpdateRequestFields(3 + |m.data|, Cursor(data, pos))
            == Success((m, Cursor(data, pos + 3 + |m.data|)))
  {
    var e1 := ToLittleEndian(m.instanceIndex, InstanceIndexLen);
    var e2 := ToLittleEndian(m.propertyId, PropertyIdLen);
    var d := m.data;
    assert data[pos..] == e1 + (e2 + (d + tail));
    ReadIntBack(Cursor(data, pos), m.instanceIndex, InstanceIndexLen, e2 + (d + tail));
    ReadIntBack(Cursor(data, pos + 1), m.propertyId, PropertyIdLen, d + tail);
    ReadBack(Cursor(data, pos + 3), d, tail);
  }

  lemma DeviceUUIDResponseRoundTrip(m: Message, b: seq<uint8>, tail: seq<uint8>)
    requires m.DeviceUUIDResponseMessage?
    requires WellFormed(m)
    ensures FieldsRoundTrip(m, NewMessage(Type(m)).value, b, tail)
  {
    var u := m.uuid;
    var data := b + u + tail;
    assert SerializeFields(m, Out(b, None)) == Out(b + u, None);
    assert data[|b|..] == u + tail;
    ReadBack(Cursor(data, |b|), u, tail);
  }

  lemma DfuInitRequestRoundTrip(m: Message, b: seq<uint8>, tail: seq<uint8>)
    requires m.DfuInitRequestMessage?
    requires WellFormed(m)
    ensures FieldsRoundTrip(m, NewMessage(Type(m)).value, b, tail)
  {
    DfuInitRequestFieldsRoundTrip(m, b, tail);
    assert Type(m) == UartCommand.DfuInitRequest;
  }

  /** The DFU init request's fields read back through the object `DfuInitRequestMessage()` builds. */
  lemma DfuInitRequestFieldsRoundTrip(m: Message, b: seq<uint8>, tail: seq<uint8>)
    requires m.DfuInitRequestMessage?
    requires WellFormed(m)
    ensures FieldsRoundTrip(m, DfuInitRequestMessage(0, Zeros(DfuFirmwareSha256Len), 0, []), b, tail)
  {
    var e1 := ToLittleEndian(m.firmwareSize, DfuFirmwareSizeLen);
    var e3 := ToLittleEndian(m.appDataLength, DfuAppDataLengthLen);
    var o := b + e1 + m.firmwareSha256 + e3 + m.appData;
    DfuInitRequestWrite(m, b);
    DfuInitRequestFieldsBack(m, o + tail, |b|, tail);
    assert GetLength(m) == 37 + |m.appData|;
    assert o[..|b|] == b;
  }

  lemma DfuInitRequestWrite(m: Message, b: seq<uint8>)
    requires m.DfuInitRequestMessage? && FieldsFit(m)
    ensures SerializeFields(m, Out(b, None))
            == Out(b + ToLittleEndian(m.firmwareSize, DfuFirmwareSizeLen) + m.firmwareSha256
                     + ToLittleEndian(m.appDataLength, DfuAppDataLengthLen) + m.appData, None)
  {
    var o1 := Out(b, None).PutInt(m.firmwareSize, DfuFirmwareSizeLen);
    assert o1 == Out(b + ToLittleEndian(m.firmwareSize, DfuFirmwareSizeLen), None);
    var o2 := o1.PutBytes(m.firmwareSha256);
    var o3 := o2.PutInt(m.appDataLength, DfuAppDataLengthLen);
    assert o3 == Out(o2.bytes + ToLittleEndian(m.appDataLength, DfuAppDataLengthLen), None);
  }

  /** The DFU init request's fields, written from `pos` on, read back as themselves. */
  lemma DfuInitRequestFieldsBack(m: Message, data: seq<uint8>, pos: nat, tail: seq<uint8>)
    requires m.DfuInitRequestMessage? && WellFormed(m)
    requires pos <= |data|
    requires data == data[..pos] + ToLittleEndian(m.firmwareSize, DfuFirmwareSizeLen) + m.firmwareSha256
                     + ToLittleEndian(m.appDataLength, DfuAppDataLengthLen) + m.appData + tail
    ensures DfuInitRequestFields(37 + |m.appData|, Cursor(data, pos))
            == Success((m, Cursor(data, pos + 37 + |m.appData|)))
  {
    var e1 := ToLittleEndian(m.firmwareSize, DfuFirmwareSizeLen);
    var sha := m.firmwareSha256;
    var e3 := ToLittleEndian(m.appDataLength, DfuAppDataLengthLen);
    var ad := m.appData;
    assert data[pos..] == e1 + (sha + (e3 + (ad + tail)));
    ReadIntBack(Cursor(data, pos), m.firmwareSize, DfuFirmwareSizeLen, sha + (e3 + (ad + tail)));
    ReadBack(Cursor(data, pos + 4), sha, e3 + (ad + tail));
    ReadIntBack(Cursor(data, pos + 36), m.appDataLength, DfuAppDataLengthLen, ad + tail);
    ReadBack(Cursor(data, pos + 37), ad, tail);
  }

  /** The bytes DfuStatusResponse's fields are written as, once they fit. */
  function DfuStatusResponseBytes(m: Message): seq<uint8>
    requires m.DfuStatusResponseMessage? && FieldsFit(m)
  {
    [m.status.Value() as uint8]
    + ToLittleEndian(m.supportedPageSize, DfuSupportedPageSizeLen)
    + ToLittleEndian(m.firmwareOffset, DfuFirmwareOffsetLen)
    + ToLittleEndian(m.firmwareCrc, DfuFirmwareCrcLen)
  }

  lemma DfuStatusResponseWrite(m: Message, b: seq<uint8>)
    requires m.DfuStatusResponseMessage? && FieldsFit(m)
    ensures SerializeFields(m, Out(b, None)) == Out(b + DfuStatusResponseBytes(m), None)
  {
    OneByte(m.status.Value());
    var o1 := Out(b, None).PutInt(m.status.Value(), DfuStatusLen);
    assert o1 == Out(b + [m.status.Value() as uint8], None);
    var o2 := o1.PutInt(m.supportedPageSize, DfuSupportedPageSizeLen);
    assert o2 == Out(o1.bytes + ToLittleEndian(m.supportedPageSize, DfuSupportedPageSizeLen), None);
    var o3 := o2.PutInt(m.firmwareOffset, DfuFirmwareOffsetLen);
    assert o3 == Out(o2.bytes + ToLittleEndian(m.firmwareOffset, DfuFirmwareOffsetLen), None);
    var o4 := o3.PutInt(m.firmwareCrc, DfuFirmwareCrcLen);
    assert o4 == Out(o3.bytes + ToLittleEndian(m.firmwareCrc, DfuFirmwareCrcLen), None);
  }

  /** DfuStatusResponse's fields, read back from the bytes it writes. */
  lemma DfuStatusResponseBack(m: Message, b: seq<uint8>, tail: seq<uint8>)
    requires m.DfuStatusResponseMessage? && FieldsFit(m)
    ensures var data := b + DfuStatusResponseBytes(m) + tail;
            DfuStatusResponseFields(13, Cursor(data, |b|)) == Success((m, Cursor(data, |b| + 13)))
  {
    var e1 := [m.status.Value() as uint8];
    var e2 := ToLittleEndian(m.supportedPageSize, DfuSupportedPageSizeLen);
    var e3 := ToLittleEndian(m.firmwareOffset, DfuFirmwareOffsetLen);
    var e4 := ToLittleEndian(m.firmwareCrc, DfuFirmwareCrcLen);
    var data := b + DfuStatusResponseBytes(m) + tail;
    assert data[|b|..] == e1 + (e2 + (e3 + (e4 + tail)));
    ReadEnumBack(DFUStatusFromValue, m.status, m.status.Value(), Cursor(data, |b|), e2 + (e3 + (e4 + tail)));
    ReadIntBack(Cursor(data, |b| + 1), m.supportedPageSize, DfuSupportedPageSizeLen, e3 + (e4 + tail));
    ReadIntBack(Cursor(data, |b| + 5), m.firmwareOffset, DfuFirmwareOffsetLen, e4 + tail);
    ReadIntBack(Cursor(data, |b| + 9), m.firmwareCrc, DfuFirmwareCrcLen, tail);
  }

  lemma DfuStatusResponseRoundTrip(m: Message, b: seq<uint8>, tail: seq<uint8>)
    requires m.DfuStatusResponseMessage?
    requires WellFormed(m)
    ensures FieldsRoundTrip(m, NewMessage(Type(m)).value, b, tail)
  {
    var enc := DfuStatusResponseBytes(m);
    DfuStatusResponseWrite(m, b);
    DfuStatusResponseBack(m, b, tail);
    assert (b + enc)[..|b|] == b;
  }

  lemma DfuPageCreateRequestRoundTrip(m: Message, b: seq<uint8>, tail: seq<uint8>)
    requires m.DfuPageCreateRequestMessage?
    requires WellFormed(m)
    ensures FieldsRoundTrip(m, NewMessage(Type(m)).value, b, tail)
  {
    var e1 := ToLittleEndian(m.requestedPageSize, RequestedPageSizeLen);
    var data := b + e1 + tail;
    assert SerializeFields(m, Out(b, None)) == Out(b + e1, None);
    assert data[|b|..] == e1 + tail;
    ReadIntBack(Cursor(data, |b|), m.requestedPageSize, RequestedPageSizeLen, tail);
  }

  /** DfuWriteDataEvent's fields, read back from the bytes it writes. */
  lemma DfuWriteDataEventBack(m: Message, b: seq<uint8>, tail: seq<uint8>)
    requires m.DfuWriteDataEventMessage? && FieldsFit(m) && m.dataLen == |m.data|
    ensures var data := b + ToLittleEndian(m.dataLen, DfuDataLengthLen) + m.data + tail;
            DfuWriteDataEventFields(1 + |m.data|, Cursor(data, |b|))
              == Success((m, Cursor(data, |b| + 1 + |m.data|)))
  {
    var e1 := ToLittleEndian(m.dataLen, DfuDataLengthLen);
    var d := m.data;
    var data := b + e1 + d + tail;
    assert data[|b|..] == e1 + (d + tail);
    ReadIntBack(Cursor(data, |b|), m.dataLen, DfuDataLengthLen, d + tail);
    ReadBack(Cursor(data, |b| + 1), d, tail);
  }

  lemma DfuWriteDataEventRoundTrip(m: Message, b: seq<uint8>, tail: seq<uint8>)
    requires m.DfuWriteDataEventMessage?
    requires WellFormed(m)
    ensures FieldsRoundTrip(m, NewMessage(Type(m)).value, b, tail)
  {
    DfuWriteDataEventFieldsRoundTrip(m, b, tail);
    assert Type(m) == UartCommand.DfuWriteDataEvent;
  }

  /** The write data event's fields read back through the object `DfuWriteDataEventMessage()` builds. */
  lemma DfuWriteDataEventFieldsRoundTrip(m: Message, b: seq<uint8>, tail: seq<uint8>)
    requires m.DfuWriteDataEventMessage?
    requires WellFormed(m)
    ensures FieldsRoundTrip(m, DfuWriteDataEventMessage(0, []), b, tail)
  {
    var e1 := ToLittleEndian(m.dataLen, DfuDataLengthLen);
    DfuWriteDataEventWrite(m, b);
    DfuWriteDataEventBack(m, b, tail);
    assert GetLength(m) == 1 + |m.data|;
    assert (b + e1 + m.data)[..|b|] == b;
  }

  lemma DfuWriteDataEventWrite(m: Message, b: seq<uint8>)
    requires m.DfuWriteDataEventMessage? && FieldsFit(m)
    ensures SerializeFields(m, Out(b, None))
            == Out(b + ToLittleEndian(m.dataLen, DfuDataLengthLen) + m.data, None)
  {
    var o1 := Out(b, None).PutInt(m.dataLen, DfuDataLengthLen);
    assert o1 == Out(b + ToLittleEndian(m.dataLen, DfuDataLengthLen), None);
  }

  lemma StartTestRequestRoundTrip(m: Message, b: seq<uint8>, tail: seq<uint8>)
    requires m.StartTestRequest?
    requires WellFormed(m)
    ensures FieldsRoundTrip(m, NewMessage(Type(m)).value, b, tail)
  {
    var e1 := ToLittleEndian(m.companyId, CompanyIdLen);
    var e2 := ToLittleEndian(m.testId, TestIdLen);
    var e3 := ToLittleEndian(m.instanceIndex, InstanceIndexLen);
    var data := b + e1 + e2 + e3 + tail;
    assert SerializeFields(m, Out(b, None)) == Out(b + e1 + e2 + e3, None);
    assert data[|b|..] == e1 + (e2 + (e3 + tail));
    ReadIntBack(Cursor(data, |b|), m.companyId, CompanyIdLen, e2 + (e3 + tail));
    ReadIntBack(Cursor(data, |b| + 2), m.testId, TestIdLen, e3 + tail);
    ReadIntBack(Cursor(data, |b| + 3), m.instanceIndex, InstanceIndexLen, tail);
  }

  /** A member's byte reads back as that member, and the stream stops right after it. */
  lemma ReadEnumBack<E>(fromValue: int -> Option<E>, e: E, v: int, c: Cursor, rest: seq<uint8>)
    requires 0 <= v < 256 && fromValue(v) == Some(e)
    requires c.pos <= |c.data| && c.data[c.pos..] == [v as uint8] + rest
    ensures ReadEnum(c, 1, fromValue) == Success((e, Cursor(c.data, c.pos + 1)))
  {
    OneByte(v);
    ReadIntBack(c, v, 1, rest);
  }

  lemma CurrentStateResponseRoundTrip(m: Message, b: seq<uint8>, tail: seq<uint8>)
    requires m.CurrentStateResponseMessage? && WellFormed(m)
    ensures FieldsRoundTrip(m, NewMessage(Type(m)).value, b, tail)
  {
    var v := m.state.Value();
    OneByte(v);
    var data := b + [v as uint8] + tail;
    assert SerializeFields(m, Out(b, None)) == Out(b + [v as uint8], None);
    assert data[|b|..] == [v as uint8] + tail;
    ReadEnumBack(ModemStateFromValue, m.state, v, Cursor(data, |b|), tail);
  }

  lemma ErrorRoundTrip(m: Message, b: seq<uint8>, tail: seq<uint8>)
    requires m.ErrorMessage? && WellFormed(m)
    ensures FieldsRoundTrip(m, NewMessage(Type(m)).value, b, tail)
  {
    var v := m.error.Value();
    OneByte(v);
    var data := b + [v as uint8] + tail;
    assert SerializeFields(m, Out(b, None)) == Out(b + [v as uint8], None);
    assert data[|b|..] == [v as uint8] + tail;
    ReadEnumBack(ErrorCodes.ErrorFromValue, m.error, v, Cursor(data, |b|), tail);
  }

  lemma AttentionEventRoundTrip(m: Message, b: seq<uint8>, tail: seq<uint8>)
    requires m.AttentionEventMessage? && WellFormed(m)
    ensures FieldsRoundTrip(m, NewMessage(Type(m)).value, b, tail)
  {
    var v := m.attention.Value();
    OneByte(v);
    var data := b + [v as uint8] + tail;
    assert SerializeFields(m, Out(b, None)) == Out(b + [v as uint8], None);
    assert data[|b|..] == [v as uint8] + tail;
    ReadEnumBack(AttentionEventFromValue, m.attention, v, Cursor(data, |b|), tail);
  }

  lemma DfuInitResponseRoundTrip(m: Message, b: seq<uint8>, tail: seq<uint8>)
    requires m.DfuInitResponseMessage? && WellFormed(m)
    ensures FieldsRoundTrip(m, NewMessage(Type(m)).value, b, tail)
  {
    var v := m.status.Value();
    OneByte(v);
    var data := b + [v as uint8] + tail;
    assert SerializeFields(m, Out(b, None)) == Out(b + [v as uint8], None);
    assert data[|b|..] == [v as uint8] + tail;
    ReadEnumBack(DFUStatusFromValue, m.status, v, Cursor(data, |b|), tail);
  }

  lemma DfuPageCreateResponseRoundTrip(m: Message, b: seq<uint8>, tail: seq<uint8>)
    requires m.DfuPageCreateResponseMessage? && WellFormed(m)
    ensures FieldsRoundTrip(m, NewMessage(Type(m)).value, b, tail)
  {
    var v := m.status.Value();
    OneByte(v);
    var data := b + [v as uint8] + tail;
    assert SerializeFields(m, Out(b, None)) == Out(b + [v as uint8], None);
    assert data[|b|..] == [v as uint8] + tail;
    ReadEnumBack(DFUStatusFromValue, m.status, v, Cursor(data, |b|), tail);
  }

  lemma DfuPageStoreResponseRoundTrip(m: Message, b: seq<uint8>, tail: seq<uint8>)
    requires m.DfuPageStoreResponseMessage? && WellFormed(m)
    ensures FieldsRoundTrip(m, NewMessage(Type(m)).value, b, tail)
  {
    var v := m.status.Value();
    OneByte(v);
    var data := b + [v as uint8] + tail;
    assert SerializeFields(m, Out(b, None)) == Out(b + [v as uint8], None);
    assert data[|b|..] == [v as uint8] + tail;
    ReadEnumBack(DFUStatusFromValue, m.status, v, Cursor(data, |b|), tail);
  }

  lemma DfuStateResponseRoundTrip(m: Message, b: seq<uint8>, tail: seq<uint8>)
    requires m.DfuStateResponseMessage? && WellFormed(m)
    ensures FieldsRoundTrip(m, NewMessage(Type(m)).value, b, tail)
  {
    var v := m.preValidationStatus.Value();
    OneByte(v);
    var data := b + [v as uint8] + tail;
    assert SerializeFields(m, Out(b, None)) == Out(b + [v as uint8], None);
    assert data[|b|..] == [v as uint8] + tail;
    ReadEnumBack(DfuStatusFromValue, m.preValidationStatus, v, Cursor(data, |b|), tail);
  }

  lemma ZeroPayloadRoundTrip(m: Message, b: seq<uint8>, tail: seq<uint8>)
    requires IsZeroPayload(m) && WellFormed(m)
    ensures FieldsRoundTrip(m, NewMessage(Type(m)).value, b, tail)
  {
    ZeroPayloadFacts(m);
    ZeroPayloadNew(m);
    assert SerializeFields(m, Out(b, None)) == Out(b, None);
    assert b + [] == b;
    var data := b + [] + tail;
    assert DeserializeFields(m, 0, Cursor(data, |b|)) == CheckLen(false, m, Cursor(data, |b|));
    assert b[..|b|] == b;
  }

  /** The classes without fields are outside every group of classes with fields. */
  lemma ZeroPayloadFacts(m: Message)
    requires IsZeroPayload(m)
    ensures !IsSequenceClass(m) && !IsRecordClass(m) && !IsScalarClass(m) && !m.GenericMessage?
    ensures GetLength(m) == 0
  {
  }

  /** A new object of a class without fields is the message itself. */
  lemma ZeroPayloadNew(m: Message)
    requires IsZeroPayload(m)
    ensures NewMessage(Type(m)) == Some(m)
  {
  }
  /** Every well-formed message's fields read back through a new object of its class. */
  lemma FieldsRoundTripAll(m: Message, b: seq<uint8>, tail: seq<uint8>)
    requires WellFormed(m)
    ensures FieldsRoundTrip(m, NewMessage(Type(m)).value, b, tail)
  {
    match m
    case PingRequestMessage(_) => BlobRoundTrip(m, b, tail);
    case PongResponseMessage(_) => BlobRoundTrip(m, b, tail);
    case FirmwareVersionResponseMessage(_) => BlobRoundTrip(m, b, tail);
    case InitDeviceEventMessage(_) => ModelIdListRoundTrip(m, b, tail);
    case CreateInstancesResponseMessage(_) => ModelIdListRoundTrip(m, b, tail);
    case InitNodeEventMessage(_) => ModelIdListRoundTrip(m, b, tail);
    case CreateInstancesRequestMessage(_) => ModelDescListRoundTrip(m, b, tail);
    case MeshMessageRequestMessage(_, _, _, _) => MeshMessageRequestRoundTrip(m, b, tail);
    case MeshMessageResponseMessage(_, _) => MeshMessageResponseRoundTrip(m, b, tail);
    case SensorUpdateRequestMessage(_, _, _) => SensorUpdateRequestRoundTrip(m, b, tail);
    case DeviceUUIDResponseMessage(_) => DeviceUUIDResponseRoundTrip(m, b, tail);
    case DfuInitRequestMessage(_, _, _, _) => DfuInitRequestRoundTrip(m, b, tail);
    case DfuStatusResponseMessage(_, _, _, _) => DfuStatusResponseRoundTrip(m, b, tail);
    case DfuPageCreateRequestMessage(_) => DfuPageCreateRequestRoundTrip(m, b, tail);
    case DfuWriteDataEventMessage(_, _) => DfuWriteDataEventRoundTrip(m, b, tail);
    case StartTestRequest(_, _, _) => StartTestRequestRoundTrip(m, b, tail);
    case CurrentStateResponseMessage(_) => CurrentStateResponseRoundTrip(m, b, tail);
    case ErrorMessage(_) => ErrorRoundTrip(m, b, tail);
    case AttentionEventMessage(_) => AttentionEventRoundTrip(m, b, tail);
    case DfuInitResponseMessage(_) => DfuInitResponseRoundTrip(m, b, tail);
    case DfuPageCreateResponseMessage(_) => DfuPageCreateResponseRoundTrip(m, b, tail);
    case DfuPageStoreResponseMessage(_) => DfuPageStoreResponseRoundTrip(m, b, tail);
    case DfuStateResponseMessage(_) => DfuStateResponseRoundTrip(m, b, tail);
    case StartNodeRequestMessage => ZeroPayloadRoundTrip(m, b, tail);
    case StartNodeResponseMessage => ZeroPayloadRoundTrip(m, b, tail);
    case FactoryResetRequestMessage => ZeroPayloadRoundTrip(m, b, tail);
    case FactoryResetResponseMessage => ZeroPayloadRoundTrip(m, b, tail);
    case FactoryResetEventMessage => ZeroPayloadRoundTrip(m, b, tail);
    case CurrentStateRequestMessage => ZeroPayloadRoundTrip(m, b, tail);
    case FirmwareVersionRequestMessage => ZeroPayloadRoundTrip(m, b, tail);
    case SoftResetRequestMessage => ZeroPayloadRoundTrip(m, b, tail);
    case SoftResetResponseMessage => ZeroPayloadRoundTrip(m, b, tail);
    case SensorUpdateResponseMessage => ZeroPayloadRoundTrip(m, b, tail);
    case DeviceUUIDRequestMessage => ZeroPayloadRoundTrip(m, b, tail);
    case DfuStatusRequestMessage => ZeroPayloadRoundTrip(m, b, tail);
    case DfuPageStoreRequestMessage => ZeroPayloadRoundTrip(m, b, tail);
    case DfuStateRequestMessage => ZeroPayloadRoundTrip(m, b, tail);
    case DfuCancelRequestMessage => ZeroPayloadRoundTrip(m, b, tail);
    case DfuCancelResponseMessage => ZeroPayloadRoundTrip(m, b, tail);
    case StartTestResponse => ZeroPayloadRoundTrip(m, b, tail);
  }

  /** A message that can be written writes LEN and its opcode, then its fields. */
  lemma SerializeHeader(m: Message, p: seq<uint8>)
    requires !m.GenericMessage? && GetLength(m) < 256
    ensures Serialize(m, Out(p, None))
            == SerializeFields(m, Out(p + [GetLength(m) as uint8, Type(m).Value() as uint8], None))
  {
    var len, op := GetLength(m), Type(m).Value();
    OneByte(len);
    OneByte(op);
    var o1 := Out(p, None).PutInt(len, LengthLen);
    assert o1 == Out(p + [len as uint8], None);
    assert o1.PutInt(op, CmdLen) == Out(p + [len as uint8, op as uint8], None);
    assert SerializeCommonPart(m, Out(p, None)) == Out(p + [len as uint8, op as uint8], None);
  }

  /** Reading LEN and the class's own opcode hands LEN on to the class's fields. */
  lemma DeserializeHeader(self: Message, len: int, data: seq<uint8>, pos: nat)
    requires !self.GenericMessage? && 0 <= len < 256 && pos + 2 <= |data|
    requires data[pos] == len as uint8 && data[pos + 1] == Type(self).Value() as uint8
    ensures Deserialize(self, Cursor(data, pos)) == DeserializeFields(self, len, Cursor(data, pos + 2))
  {
    var t := Type(self);
    OneByte(len);
    OneByte(t.Value());
    ReadIntBack(Cursor(data, pos), len, 1, data[pos + 1..]);
    ReadIntBack(Cursor(data, pos + 1), t.Value(), 1, data[pos + 2..]);
  }

  /** The whole-message round trip, from the fields' round trip through the receiver `self`. */
  lemma RoundTripThrough(m: Message, self: Message, p: seq<uint8>, tail: seq<uint8>)
    requires !m.GenericMessage? && GetLength(m) < 256
    requires !self.GenericMessage? && Type(self) == Type(m)
    requires FieldsRoundTrip(m, self, p + [GetLength(m) as uint8, Type(m).Value() as uint8], tail)
    ensures var o := Serialize(m, Out(p, None));
            o.error.None? && |o.bytes| == |p| + 2 + GetLength(m) && o.bytes[..|p|] == p
            && o.bytes[|p|] == GetLength(m) as uint8 && o.bytes[|p| + 1] == Type(m).Value() as uint8
            && Deserialize(self, Cursor(o.bytes + tail, |p|)) == Success((m, Cursor(o.bytes + tail, |o.bytes|)))
  {
    var len := GetLength(m);
    var h := p + [len as uint8, Type(m).Value() as uint8];
    SerializeHeader(m, p);
    var o := SerializeFields(m, Out(h, None));
    HeaderBytes(p, len as uint8, Type(m).Value() as uint8, o.bytes, tail);
    DeserializeHeader(self, len, o.bytes + tail, |p|);
  }

  /** Bytes that start with p and then two header bytes still show them once more follows. */
  lemma HeaderBytes(p: seq<uint8>, a: uint8, b: uint8, bytes: seq<uint8>, tail: seq<uint8>)
    requires |bytes| >= |p| + 2 && bytes[..|p| + 2] == p + [a, b]
    ensures bytes[..|p|] == p
    ensures (bytes + tail)[|p|] == a && (bytes + tail)[|p| + 1] == b
  {
    assert bytes[..|p|] == bytes[..|p| + 2][..|p|];
    assert bytes[|p|] == bytes[..|p| + 2][|p|];
    assert bytes[|p| + 1] == bytes[..|p| + 2][|p| + 1];
  }

  /** The classes without fields read nothing more, and raise InvalidLen exactly when LEN is not 0. */
  lemma ZeroPayloadLen(self: Message, len: int, c: Cursor)
    requires IsZeroPayload(self)
    ensures DeserializeFields(self, len, c).Failure? <==> len != 0
    ensures DeserializeFields(self, len, c).Failure? ==> DeserializeFields(self, len, c).error == InvalidLen
    ensures DeserializeFields(self, len, c).Success? ==> DeserializeFields(self, len, c).value == (self, c)
  {
  }

  /**
    `deserialize` on an identifier-list object whose list is not empty keeps what it held and
    appends the identifiers it reads: the loop never clears the list first.
  */
  lemma ModelIdListAppends(acc: seq<ModelID>, ids: seq<ModelID>, c: Cursor, rest: seq<uint8>)
    requires c.pos <= |c.data| && c.data[c.pos..] == ModelIdsBytes(ids) + rest
    ensures DeserializeFields(InitNodeEventMessage(acc), ModelIdLen * |ids|, c)
            == Success((InitNodeEventMessage(acc + ids), Cursor(c.data, c.pos + ModelIdLen * |ids|)))
  {
    ReadModelIdsBack(acc, ids, c, rest);
    IdListFields(InitNodeEventMessage(acc), ModelIdLen * |ids|, c);
  }

  /** The identifier-list classes hand LEN to the `while length >= 2` loop over their own list. */
  lemma IdListFields(self: Message, length: int, c: Cursor)
    requires IsModelIdList(self)
    ensures DeserializeFields(self, length, c) ==
            match ReadModelIds(self.modelIds, length, c)
            case Failure(e) => Failure(e)
            case Success((ids, c1)) => Success((self.(modelIds := ids), c1))
  {
    assert IsSequenceClass(self);
    assert DeserializeFields(self, length, c) == DeserializeSequenceFields(self, length, c);
  }

  /** An opcode other than the class's own raises InvalidOpcode before any field is read. */
  lemma WrongOpcode(self: Message, c: Cursor)
    requires !self.GenericMessage? && c.pos + 2 <= |c.data|
    requires c.data[c.pos + 1] as int != Type(self).Value()
    ensures Deserialize(self, c) == Failure(InvalidOpcode)
  {
    OneByte(c.data[c.pos + 1] as int);
    ReadIntBack(Cursor(c.data, c.pos + 1), c.data[c.pos + 1] as int, 1, c.data[c.pos + 2..]);
  }

  /**
    The round trip of a whole message: `serialize` of a well-formed message succeeds and
    writes LEN = `get_length()`, the opcode and the fields; `deserialize` on a new object of
    its class, as `deserialize_message` makes, reads the same message back and stops right
    after it, whatever follows in the stream.
  */
  lemma RoundTrip(m: Message, p: seq<uint8>, tail: seq<uint8>)
    requires WellFormed(m)
    ensures var o := Serialize(m, Out(p, None));
            o.error.None? && |o.bytes| == |p| + 2 + GetLength(m) && o.bytes[..|p|] == p
            && o.bytes[|p|] as int == GetLength(m) && o.bytes[|p| + 1] as int == Type(m).Value()
            && Deserialize(NewMessage(Type(m)).value, Cursor(o.bytes + tail, |p|))
               == Success((m, Cursor(o.bytes + tail, |o.bytes|)))
  {
    var self := NewMessage(Type(m)).value;
    NewMessageType(Type(m));
    FieldsRoundTripAll(m, p + [GetLength(m) as uint8, Type(m).Value() as uint8], tail);
    RoundTripThrough(m, self, p, tail);
  }
}
