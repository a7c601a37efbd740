/**
  The frame checksum: CRC-16 with polynomial 0x8005 (0x18005 with the implicit top bit),
  initial register 0xFFFF, no reflection of input or output and no final XOR (the
  parameter set catalogued as CRC-16/CMS). The repository obtains it from a table-driven
  library; the model defines it bit by bit, which is the definition of those parameters.
*/
module Crc {
  import opened Bytes

  const InitialRegister: bv16 := 0xFFFF

  /**
    One bit step of the shift register: shift left, and subtract (xor) the polynomial 0x8005
    when a 1 falls out of the top.
  */
  function ShiftBit(crc: bv16): bv16
  {
    if crc & 0x8000 != 0 then (crc << 1) ^ 0x8005 else crc << 1
  }

  /** Feeds one byte, most significant bit first, into the top of the register. */
  function UpdateByte(crc: bv16, b: uint8): bv16
  {
    var r := crc ^ ((b as bv8 as bv16) << 8);
    ShiftBit(ShiftBit(ShiftBit(ShiftBit(ShiftBit(ShiftBit(ShiftBit(ShiftBit(r))))))))
  }

  function Update(crc: bv16, data: seq<uint8>): bv16
    decreases |data|
  {
    if data == [] then crc else Update(UpdateByte(crc, data[0]), data[1..])
  }

  /** The low and the high half of the register, as bytes. */
  function LowHalf(x: bv16): uint8
  {
    ((x & 0xFF) as bv8) as int
  }

  function HighHalf(x: bv16): uint8
  {
    ((x >> 8) as bv8) as int
  }

  /** `calculate_crc_bytes`: the checksum as 2 bytes, little-endian (low half first). */
  function CrcBytes(data: seq<uint8>): (r: seq<uint8>)
    ensures |r| == 2
  {
    var reg := Update(InitialRegister, data);
    [LowHalf(reg), HighHalf(reg)]
  }

  /** `calculate_crc`: the checksum of a byte string, an integer below 2^16 whose little-endian bytes are `CrcBytes`. */
  function Crc16(data: seq<uint8>): (r: nat)
    ensures r < Pow256(2)
    ensures r == FromLittleEndian(CrcBytes(data))
  {
    var c := CrcBytes(data);
    assert Pow256(2) == 65536 by {
      assert Pow256(1) == 256 * Pow256(0);
    }
    assert FromLittleEndian(c) == c[0] as int + 256 * (c[1] as int + 256 * FromLittleEndian([])) by {
      assert c[1..] == [c[1]] && c[1..][1..] == [];
    }
    c[0] as int + 256 * (c[1] as int)
  }

  /** Feeding a concatenation is feeding its parts one after the other. */
  lemma {:induction false} UpdateAppend(crc: bv16, a: seq<uint8>, b: seq<uint8>)
    ensures Update(crc, a + b) == Update(Update(crc, a), b)
    decreases |a|
  {
    if a == [] {
      assert a + b == b;
    } else {
      assert (a + b)[0] == a[0];
      assert (a + b)[1..] == a[1..] + b;
      UpdateAppend(UpdateByte(crc, a[0]), a[1..], b);
    }
  }

  /** The reference frame `AA 55 01 01 22 DB 88` carries the checksum of `01 01 22`. */
  lemma ReferenceFrameChecksum()
    ensures Crc16([0x01, 0x01, 0x22]) == 0x88DB
    ensures CrcBytes([0x01, 0x01, 0x22]) == [0xDB, 0x88]
  {
    var c1 := UpdateByte(InitialRegister, 0x01);
    var c2 := UpdateByte(c1, 0x01);
    var c3 := UpdateByte(c2, 0x22);
    assert Update(c3, []) == c3;
    assert c3 == 0x88DB;
  }
}
