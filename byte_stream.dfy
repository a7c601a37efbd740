/**
  The `io.BytesIO` stream every serializer writes to and every deserializer reads from,
  and the exceptions those operations raise.

  Reading is specified on `Cursor`, an immutable view (bytes plus position); the class
  `BytesIO` holds the same two things as mutable fields and its methods are proved to
  behave as the cursor functions say. Writing is specified on `Out`, the bytes written
  so far plus the exception that stopped the writer, if any.
*/
module ByteStream {
  import opened Wrappers
  import opened Bytes

  /**
    What a codec operation can raise: InvalidOpcode and InvalidLen are the repository's own
    exceptions; ValueError comes from converting a byte to an IntEnum that has no such member,
    OverflowError from `int.to_bytes` on a value that does not fit, AssertionError from the
    `assert False` of the generic message.
  */
  datatype Exception = InvalidOpcode | InvalidLen | ValueError | OverflowError | AssertionError

  function Min(a: int, b: int): int { if a <= b then a else b }

  /** A read position in an immutable byte string. */
  datatype Cursor = Cursor(data: seq<uint8>, pos: nat) {

    /** Bytes between the position and the end (none once the position is past the end). */
    function Remaining(): nat
    {
      if pos <= |data| then |data| - pos else 0
    }

    /**
      `BytesIO.read(n)`: returns min(n, remaining) bytes, or everything that is left when n is
      negative, and advances the position by the number of bytes returned. Never fails.
    */
    function Read(n: int): (r: (seq<uint8>, Cursor))
      ensures |r.0| == if n < 0 then Remaining() else Min(n, Remaining())
      ensures r.1 == Cursor(data, pos + |r.0|)
      ensures pos <= |data| ==> r.0 == data[pos..pos + |r.0|]
    {
      var k := if n < 0 then Remaining() else Min(n, Remaining());
      if k == 0 then ([], this) else (data[pos..pos + k], Cursor(data, pos + k))
    }

    /** `int.from_bytes(stream.read(width), byteorder='little')`. */
    function ReadInt(width: nat): (r: (int, Cursor))
      ensures 0 <= r.0 < Pow256(width)
      ensures r.1.data == data && r.1.pos == pos + Min(width, Remaining())
      ensures pos <= |data| ==> r.0 == FromLittleEndian(data[pos..r.1.pos])
      ensures Remaining() == 0 ==> r.0 == 0
    {
      var (b, c) := Read(width);
      Pow256Monotone(|b|, width);
      (FromLittleEndian(b), c)
    }
  }

  /** Reading back bytes that were written: `read(len(x))` where the stream holds x next returns x. */
  lemma ReadBack(c: Cursor, x: seq<uint8>, rest: seq<uint8>)
    requires c.pos <= |c.data| && c.data[c.pos..] == x + rest
    ensures c.Read(|x|) == (x, Cursor(c.data, c.pos + |x|))
    ensures c.data[c.pos + |x|..] == rest
  {
    assert c.data[c.pos..c.pos + |x|] == c.data[c.pos..][..|x|] == x;
    assert c.data[c.pos + |x|..] == c.data[c.pos..][|x|..] == rest;
  }

  /** Reading back an integer written as `width` little-endian bytes returns that integer. */
  lemma ReadIntBack(c: Cursor, v: int, width: nat, rest: seq<uint8>)
    requires FitsUnsigned(v, width)
    requires c.pos <= |c.data| && c.data[c.pos..] == ToLittleEndian(v, width) + rest
    ensures c.ReadInt(width) == (v, Cursor(c.data, c.pos + width))
    ensures c.data[c.pos + width..] == rest
  {
    ReadBack(c, ToLittleEndian(v, width), rest);
    FromToLittleEndian(v, width);
  }

  /**
    The outcome of a read operation as the stream sees it: the value read together with the
    cursor after it, or the exception raised (after which the stream is abandoned).
  */
  function WithCursor<T>(r: Result<T, Exception>, c: Cursor): Result<(T, Cursor), Exception>
  {
    match r
    case Success(v) => Success((v, c))
    case Failure(e) => Failure(e)
  }

  /** What a serializer has written to the stream so far, and the exception that stopped it. */
  datatype Out = Out(bytes: seq<uint8>, error: Option<Exception>) {

    /** `stream.write(b)`; nothing happens once an exception has been raised. */
    function PutBytes(b: seq<uint8>): Out
    {
      if error.Some? then this else Out(bytes + b, None)
    }

    /**
      `stream.write(v.to_bytes(width, byteorder='little', signed=False))`: `to_bytes` raises
      OverflowError before anything is written when v is negative or needs more than width bytes.
    */
    function PutInt(v: int, width: nat): (r: Out)
      ensures error.None? && FitsUnsigned(v, width) ==>
                && r.error.None? && |r.bytes| == |bytes| + width && r.bytes[..|bytes|] == bytes
                && FromLittleEndian(r.bytes[|bytes|..]) == v
      ensures error.None? && !FitsUnsigned(v, width) ==> r == Out(bytes, Some(OverflowError))
      ensures error.Some? ==> r == this
    {
      if error.Some? then this
      else if FitsUnsigned(v, width) then
        FromToLittleEndian(v, width);
        assert (bytes + ToLittleEndian(v, width))[|bytes|..] == ToLittleEndian(v, width);
        Out(bytes + ToLittleEndian(v, width), None)
      else Out(bytes, Some(OverflowError))
    }

    /** Raise e; nothing is written. */
    function Raise(e: Exception): Out
    {
      if error.Some? then this else Out(bytes, Some(e))
    }
  }

  /** The mutable stream: its buffer and its position. */
  class BytesIO {
    var buf: seq<uint8>
    var pos: nat

    ghost predicate Valid()
      reads this
    {
      pos <= |buf|
    }

    /** The stream's state as a cursor, for stating what a read does. */
    function View(): Cursor
      reads this
    {
      Cursor(buf, pos)
    }

    /** `io.BytesIO(initial)`: positioned at the start. */
    constructor (initial: seq<uint8>)
      ensures Valid() && buf == initial && pos == 0
    {
      buf := initial;
      pos := 0;
    }

    /** True for a fresh `io.BytesIO()` and after every write that reached the end. */
    predicate AtEnd()
      reads this
    {
      pos == |buf|
    }

    /** `stream.read(n)`. */
    method Read(n: int) returns (b: seq<uint8>)
      requires Valid()
      modifies this
      ensures Valid() && (b, View()) == old(View()).Read(n)
    {
      var k := if n < 0 then |buf| - pos else Min(n, |buf| - pos);
      b := buf[pos..pos + k];
      pos := pos + k;
    }

    /** `int.from_bytes(stream.read(width), byteorder='little')`. */
    method ReadInt(width: nat) returns (v: int)
      requires Valid()
      modifies this
      ensures Valid() && (v, View()) == old(View()).ReadInt(width)
    {
      var b := Read(width);
      v := FromLittleEndian(b);
    }

    /** `stream.write(b)`: overwrites from the position on, extending the buffer as needed. */
    method Write(b: seq<uint8>)
      requires Valid()
      modifies this
      ensures Valid() && pos == old(pos) + |b|
      ensures buf == old(buf[..pos]) + b + old(if pos + |b| < |buf| then buf[pos + |b|..] else [])
      ensures old(AtEnd()) ==> AtEnd() && buf == old(buf) + b
    {
      buf := buf[..pos] + b + (if pos + |b| < |buf| then buf[pos + |b|..] else []);
      pos := pos + |b|;
    }

    /** `stream.write(v.to_bytes(width, byteorder='little', signed=False))`, raising OverflowError. */
    method WriteInt(v: int, width: nat) returns (err: Option<Exception>)
      requires Valid() && AtEnd()
      modifies this
      ensures Valid() && AtEnd()
      ensures Out(buf, err) == Out(old(buf), None).PutInt(v, width)
    {
      if FitsUnsigned(v, width) {
        Write(ToLittleEndian(v, width));
        err := None;
      } else {
        err := Some(OverflowError);
      }
    }

    /** `stream.getvalue()`. */
    function GetValue(): seq<uint8>
      reads this
    {
      buf
    }
  }
}
