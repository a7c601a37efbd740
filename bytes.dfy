/**
  Unsigned bytes and the two integer conversions the repository uses everywhere:
  `int.to_bytes(width, byteorder='little', signed=False)` and
  `int.from_bytes(b, byteorder='little')`.
*/
module Bytes {

  type uint8 = x: int | 0 <= x < 256

  /** 256 to the power n: the number of values that fit in n bytes. */
  function Pow256(n: nat): (r: nat)
    ensures r >= 1
  {
    if n == 0 then 1 else 256 * Pow256(n - 1)
  }

  lemma {:induction false} Pow256Monotone(a: nat, b: nat)
    requires a <= b
    ensures Pow256(a) <= Pow256(b)
  {
    if a < b { Pow256Monotone(a, b - 1); }
  }

  /** `to_bytes(width, signed=False)` succeeds exactly for these values; otherwise Python raises OverflowError. */
  predicate FitsUnsigned(v: int, width: nat)
  {
    0 <= v < Pow256(width)
  }

  /** `v.to_bytes(width, byteorder='little', signed=False)` for a value that fits. */
  function ToLittleEndian(v: nat, width: nat): (r: seq<uint8>)
    requires v < Pow256(width)
    ensures |r| == width
  {
    if width == 0 then [] else [v % 256] + ToLittleEndian(v / 256, width - 1)
  }

  /** `int.from_bytes(b, byteorder='little')`; the empty sequence gives 0. */
  function FromLittleEndian(b: seq<uint8>): (r: nat)
    ensures r < Pow256(|b|)
  {
    if b == [] then 0 else b[0] + 256 * FromLittleEndian(b[1..])
  }

  /** Decoding what `to_bytes` produced gives the value back. */
  lemma {:induction false} FromToLittleEndian(v: nat, width: nat)
    requires v < Pow256(width)
    ensures FromLittleEndian(ToLittleEndian(v, width)) == v
  {
    if width > 0 {
      var t := ToLittleEndian(v, width);
      assert t[1..] == ToLittleEndian(v / 256, width - 1);
      FromToLittleEndian(v / 256, width - 1);
    }
  }

  /** Encoding the value of any byte string at its own width gives the byte string back. */
  lemma {:induction false} ToFromLittleEndian(b: seq<uint8>)
    ensures ToLittleEndian(FromLittleEndian(b), |b|) == b
  {
    if b != [] {
      ToFromLittleEndian(b[1..]);
      var v := FromLittleEndian(b);
      assert v % 256 == b[0] && v / 256 == FromLittleEndian(b[1..]);
    }
  }
}
