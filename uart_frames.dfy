/**
  The UART wire framing of `uart_common_classes.py`: a frame on the wire is
  `AA 55 | LEN | OPCODE | PAYLOAD (LEN bytes) | CRC (2 bytes, little-endian)`, the CRC taken
  over `LEN | OPCODE | PAYLOAD`. What the adapter hands on is a frame without its preamble
  and CRC: `LEN | OPCODE | PAYLOAD`, a serialized message.
*/
module UartFrames {
  import opened Bytes
  import opened Crc

  /** `UART_PREAMBLE`. */
  const Preamble: seq<uint8> := [0xAA, 0x55]

  /** The preamble begins at position i. */
  predicate PreambleAt(data: seq<uint8>, i: int)
  {
    0 <= i && i + 2 <= |data| && data[i] == 0xAA && data[i + 1] == 0x55
  }

  /** A preamble begins at or after position 1 of `data` exactly when one begins in `data[1..]`. */
  lemma PreambleShift(data: seq<uint8>)
    requires |data| > 0
    ensures forall i :: 1 <= i < |data| ==> (PreambleAt(data, i) <==> PreambleAt(data[1..], i - 1))
    ensures forall j :: 0 <= j < |data| - 1 ==> (PreambleAt(data[1..], j) <==> PreambleAt(data, j + 1))
  {
  }

  /** `a` ends `b`. */
  predicate IsSuffix(a: seq<uint8>, b: seq<uint8>)
  {
    |a| <= |b| && a == b[|b| - |a|..]
  }

  lemma SuffixTransitive(a: seq<uint8>, b: seq<uint8>, c: seq<uint8>)
    requires IsSuffix(a, b) && IsSuffix(b, c)
    ensures IsSuffix(a, c)
  {
    assert c[|c| - |a|..] == c[|c| - |b|..][|b| - |a|..];
  }

  /** The suffix of `data` from its first preamble on, or [] when it has none. */
  function FromFirstPreamble(data: seq<uint8>): (r: seq<uint8>)
    ensures |r| <= |data|
    decreases |data|
  {
    if |data| == 0 then []
    else if PreambleAt(data, 0) then data
    else FromFirstPreamble(data[1..])
  }

  /**
    `FromFirstPreamble` is a suffix of its input, empty exactly when the input has no
    preamble, and otherwise starting at a preamble with none before it.
  */
  lemma {:induction false} FromFirstPreambleSpec(data: seq<uint8>)
    ensures var r := FromFirstPreamble(data);
            && r == data[|data| - |r|..]
            && (r == [] <==> forall i :: 0 <= i < |data| ==> !PreambleAt(data, i))
            && (r != [] ==> PreambleAt(r, 0))
            && (forall i :: 0 <= i < |data| - |r| ==> !PreambleAt(data, i))
    decreases |data|
  {
    if |data| > 0 && !PreambleAt(data, 0) {
      FromFirstPreambleSpec(data[1..]);
      PreambleShift(data);
    }
  }

  /** What is skipped is a prefix. */
  lemma SkipToPreambleSuffix(data: seq<uint8>)
    ensures IsSuffix(SkipToPreamble(data), data)
  {
    FromFirstPreambleSpec(data);
  }

  /**
    `eat_bytes_until_preamble`: the input from its first preamble on; the whole input when
    it holds no preamble.
  */
  function SkipToPreamble(data: seq<uint8>): (r: seq<uint8>)
    ensures |r| <= |data|
  {
    var s := FromFirstPreamble(data);
    if s == [] then data else s
  }

  /**
    What `eat_bytes_until_preamble` promises: it drops only bytes before the first preamble,
    and keeps everything when there is none.
  */
  lemma SkipToPreambleSpec(data: seq<uint8>)
    ensures var r := SkipToPreamble(data);
            && r == data[|data| - |r|..]
            && ((exists i :: 0 <= i < |data| && PreambleAt(data, i)) ==>
                  PreambleAt(r, 0) && forall i :: 0 <= i < |data| - |r| ==> !PreambleAt(data, i))
            && ((forall i :: 0 <= i < |data| ==> !PreambleAt(data, i)) ==> r == data)
  {
    FromFirstPreambleSpec(data);
  }

  /** Data that already begins with the preamble is kept whole. */
  lemma SkipAtPreamble(data: seq<uint8>)
    requires PreambleAt(data, 0)
    ensures SkipToPreamble(data) == data
  {
  }

  /**
    `eat_bytes_until_preamble` as written: pops bytes off the front into `orphaned` while the
    first two bytes are not the preamble, then returns what is left, or every byte popped
    when nothing is left.
  */
  method EatBytesUntilPreamble(bufferData: seq<uint8>) returns (r: seq<uint8>)
    ensures r == SkipToPreamble(bufferData)
  {
    var buf := bufferData;
    var orphaned: seq<uint8> := [];
    while |buf| > 0 && (if |buf| < 2 then buf else buf[..2]) != Preamble
      invariant orphaned + buf == bufferData
      invariant FromFirstPreamble(buf) == FromFirstPreamble(bufferData)
      decreases |buf|
    {
      assert !PreambleAt(buf, 0);
      orphaned := orphaned + [buf[0]];
      buf := buf[1..];
    }
    if |orphaned| > 0 && |buf| == 0 {
      return orphaned;
    }
    return buf;
  }

  // ---------------------------------------------------------------------------------------
  // Frames

  /** A frame as the adapter hands it on: LEN, the opcode, and exactly LEN payload bytes. */
  predicate ValidFrame(f: seq<uint8>)
  {
    |f| >= 2 && f[0] == |f| - 2
  }

  /** What non-raw `write_uart_frame` sends for frame f: preamble, f, then its CRC. */
  function WireFrame(f: seq<uint8>): (r: seq<uint8>)
    ensures |r| == |f| + 4 && PreambleAt(r, 0)
  {
    Preamble + f + CrcBytes(f)
  }

  /** Several frames sent one after the other. */
  function WireFrames(fs: seq<seq<uint8>>): seq<uint8>
  {
    if fs == [] then [] else WireFrame(fs[0]) + WireFrames(fs[1..])
  }

  /**
    `extract_frames`: aligns the data on its first preamble, then takes the frame there when
    it is complete. A frame whose CRC checks is kept and extraction goes on in the bytes after
    it; a frame whose CRC does not check is dropped together with everything read so far, and
    extraction stops. The result is the frames found and the bytes left over.

    The alignment is not checked again: data with no preamble is parsed from its first byte
    as though the first two bytes were one.
  */
  function ExtractFrames(raw: seq<uint8>): (r: (seq<seq<uint8>>, seq<uint8>))
    ensures |r.1| <= |raw|
    decreases |raw|
  {
    var data := SkipToPreamble(raw);
    if |data| < 6 then ([], data)
    else
      var dataLen := data[2] as int;
      if |data| < 6 + dataLen then ([], data)
      else
        var uartFrame := data[..4 + dataLen + 2];
        var remaining := data[6 + dataLen..];
        var expectedCrc := Crc16(uartFrame[2..4 + dataLen]);
        var actualCrc := FromLittleEndian(uartFrame[|uartFrame| - 2..]);
        var frame := uartFrame[2..|uartFrame| - 2];
        if expectedCrc == actualCrc then
          if |remaining| > 0 then
            var (more, rest) := ExtractFrames(remaining);
            ([frame] + more, rest)
          else ([frame], remaining)
        else ([], remaining)
  }

  /** Every frame extracted carries exactly the LEN bytes of payload its first byte announces. */
  lemma {:induction false} ExtractedFramesValid(raw: seq<uint8>)
    ensures forall k :: 0 <= k < |ExtractFrames(raw).0| ==> ValidFrame(ExtractFrames(raw).0[k])
    decreases |raw|
  {
    var data := SkipToPreamble(raw);
    if |data| >= 6 && |data| >= 6 + data[2] as int {
      var n := data[2] as int;
      var remaining := data[6 + n..];
      if |remaining| > 0 {
        ExtractedFramesValid(remaining);
      }
    }
  }

  /** Frame f followed by its own CRC bytes starts at position i of raw. */
  predicate CrcCheckedAt(raw: seq<uint8>, f: seq<uint8>, i: int)
  {
    0 <= i && i + |f| + 2 <= |raw| && raw[i..i + |f| + 2] == f + CrcBytes(f)
  }

  /** Frame f occurs somewhere in raw followed by its own CRC bytes. */
  ghost predicate CrcChecked(raw: seq<uint8>, f: seq<uint8>)
  {
    exists i :: CrcCheckedAt(raw, f, i)
  }

  /** Every frame of fs occurs somewhere in raw followed by its own CRC bytes. */
  ghost predicate AllCrcChecked(raw: seq<uint8>, fs: seq<seq<uint8>>)
  {
    forall k :: 0 <= k < |fs| ==> CrcChecked(raw, fs[k])
  }

  /**
    Every frame extracted was on the wire followed by the two CRC bytes computed over it:
    a frame is handed on only when the CRC checks.
  */
  lemma {:induction false} ExtractedFramesChecked(raw: seq<uint8>)
    ensures AllCrcChecked(raw, ExtractFrames(raw).0)
    decreases |raw|
  {
    var ok, frame, at, remaining := ExtractHead(raw);
    if ok {
      if |remaining| > 0 {
        ExtractedFramesChecked(remaining);
        CheckedCons(raw, frame, at, remaining, ExtractFrames(remaining).0);
      } else {
        CheckedCons(raw, frame, at, remaining, []);
        assert [frame] + [] == [frame];
      }
    }
  }

  /** A checked frame ahead of checked frames found further on. */
  lemma CheckedCons(raw: seq<uint8>, frame: seq<uint8>, at: int, remaining: seq<uint8>, more: seq<seq<uint8>>)
    requires CrcCheckedAt(raw, frame, at)
    requires |remaining| <= |raw| && remaining == raw[|raw| - |remaining|..]
    requires AllCrcChecked(remaining, more)
    ensures AllCrcChecked(raw, [frame] + more)
  {
    var fs := [frame] + more;
    forall k | 0 <= k < |fs| {
      CheckedAtIndex(raw, frame, at, remaining, more, k);
    }
  }

  lemma CheckedAtIndex(raw: seq<uint8>, frame: seq<uint8>, at: int, remaining: seq<uint8>, more: seq<seq<uint8>>, k: nat)
    requires CrcCheckedAt(raw, frame, at)
    requires |remaining| <= |raw| && remaining == raw[|raw| - |remaining|..]
    requires AllCrcChecked(remaining, more)
    requires k < 1 + |more|
    ensures CrcChecked(raw, ([frame] + more)[k])
  {
    var fs := [frame] + more;
    if k == 0 {
      assert CrcCheckedAt(raw, fs[k], at);
    } else {
      assert fs[k] == more[k - 1];
      var i :| CrcCheckedAt(remaining, more[k - 1], i);
      CheckedShift(raw, |raw| - |remaining|, more[k - 1], i);
      assert CrcCheckedAt(raw, fs[k], i + (|raw| - |remaining|));
    }
  }

  /**
    The first step of `extract_frames`: whether a frame whose CRC checks was found, that
    frame, where it starts in raw, and the bytes after its CRC, where extraction goes on.
  */
  lemma ExtractHead(raw: seq<uint8>) returns (ok: bool, frame: seq<uint8>, at: nat, remaining: seq<uint8>)
    ensures !ok ==> ExtractFrames(raw).0 == []
    ensures ok ==> && CrcCheckedAt(raw, frame, at)
                   && |remaining| < |raw| && remaining == raw[|raw| - |remaining|..]
                   && ExtractFrames(raw).0 == [frame] + (if |remaining| > 0 then ExtractFrames(remaining).0 else [])
  {
    var data := SkipToPreamble(raw);
    SkipToPreambleSuffix(raw);
    ok, frame, at, remaining := false, [], 0, [];
    if |data| >= 6 && |data| >= 6 + data[2] as int {
      var n := data[2] as int;
      var off := |raw| - |data|;
      FrameParts(data, n);
      frame := data[2..4 + n];
      remaining := data[6 + n..];
      if Crc16(frame) == FromLittleEndian(data[4 + n..6 + n]) {
        ok := true;
        at := off + 2;
        FoundFrame(raw, data, n);
        assert remaining == raw[|raw| - |remaining|..];
      }
    }
  }

  /** Two bytes whose little-endian value is the CRC of f are f's CRC bytes. */
  /** A frame found `off` bytes into raw, with its CRC after it, is CRC-checked there. */
  lemma FoundFrame(raw: seq<uint8>, data: seq<uint8>, n: nat)
    requires |data| <= |raw| && data == raw[|raw| - |data|..] && |data| >= 6 + n
    requires Crc16(data[2..4 + n]) == FromLittleEndian(data[4 + n..6 + n])
    ensures CrcCheckedAt(raw, data[2..4 + n], |raw| - |data| + 2)
  {
    var off := |raw| - |data|;
    var f := data[2..4 + n];
    CrcBytesOf(f, data[4 + n..6 + n]);
    assert data[2..6 + n] == f + CrcBytes(f);
    assert raw[off + 2..off + 6 + n] == data[2..6 + n];
  }

  lemma CrcBytesOf(f: seq<uint8>, b: seq<uint8>)
    requires |b| == 2 && FromLittleEndian(b) == Crc16(f)
    ensures b == CrcBytes(f)
  {
    ToFromLittleEndian(b);
    ToFromLittleEndian(CrcBytes(f));
  }

  lemma CheckedShift(raw: seq<uint8>, off: nat, f: seq<uint8>, i: int)
    requires off <= |raw| && CrcCheckedAt(raw[off..], f, i)
    ensures CrcCheckedAt(raw, f, i + off)
  {
    assert raw[off..][i..i + |f| + 2] == raw[i + off..i + off + |f| + 2];
  }

  /**
    A frame in the buffer is complete once its preamble, its LEN bytes of payload and its
    CRC have arrived; until then nothing is extracted and the buffer is kept whole.
  */
  lemma Incomplete(data: seq<uint8>)
    requires PreambleAt(data, 0)
    requires |data| < 6 || |data| < 6 + data[2] as int
    ensures ExtractFrames(data) == ([], data)
  {
    SkipAtPreamble(data);
  }

  /** A complete frame whose CRC does not check is dropped, and nothing after it is read. */
  lemma CrcMismatch(data: seq<uint8>)
    requires PreambleAt(data, 0) && |data| >= 3 && |data| >= 6 + data[2] as int
    requires FromLittleEndian(data[4 + data[2] as int..6 + data[2] as int]) != Crc16(data[2..4 + data[2] as int])
    ensures ExtractFrames(data) == ([], data[6 + data[2] as int..])
  {
    SkipAtPreamble(data);
    var n := data[2] as int;
    FrameParts(data, n);
    var uartFrame := data[..4 + n + 2];
    assert Crc16(uartFrame[2..4 + n]) != FromLittleEndian(uartFrame[|uartFrame| - 2..]);
  }

  /** The pieces `extract_frames` cuts out of the complete frame at the start of the data. */
  lemma FrameParts(data: seq<uint8>, n: nat)
    requires |data| >= 6 + n
    ensures var uartFrame := data[..4 + n + 2];
            && uartFrame[2..4 + n] == data[2..4 + n]
            && uartFrame[|uartFrame| - 2..] == data[4 + n..6 + n]
            && uartFrame[2..|uartFrame| - 2] == data[2..4 + n]
  {
  }

  /** A frame sent with `write_uart_frame` is extracted, and extraction goes on after it. */
  lemma ExtractWireFrame(f: seq<uint8>, tail: seq<uint8>)
    requires ValidFrame(f)
    ensures ExtractFrames(WireFrame(f) + tail) == ([f] + ExtractFrames(tail).0, ExtractFrames(tail).1)
  {
    var data := WireFrame(f) + tail;
    assert PreambleAt(data, 0);
    SkipAtPreamble(data);
    var n := data[2] as int;
    assert n == |f| - 2;
    var uartFrame := data[..6 + n];
    assert uartFrame == WireFrame(f);
    assert uartFrame[2..4 + n] == f;
    assert uartFrame[|uartFrame| - 2..] == CrcBytes(f);
    assert data[6 + n..] == tail;
    if tail == [] {
      assert ExtractFrames(tail) == ([], []);
      assert [f] + [] == [f];
    }
  }

  /** Frames sent one after the other are all extracted, in the order sent. */
  lemma {:induction false} ExtractWireFrames(fs: seq<seq<uint8>>, tail: seq<uint8>)
    requires forall f | f in fs :: ValidFrame(f)
    ensures ExtractFrames(WireFrames(fs) + tail) == (fs + ExtractFrames(tail).0, ExtractFrames(tail).1)
  {
    if fs == [] {
      assert WireFrames(fs) + tail == tail;
      assert fs + ExtractFrames(tail).0 == ExtractFrames(tail).0;
    } else {
      assert fs[0] in fs;
      ExtractWireFrames(fs[1..], tail);
      WireFramesCons(fs, tail);
      PrependFrame(fs[0], WireFrames(fs[1..]) + tail, fs[1..], ExtractFrames(tail));
      assert [fs[0]] + fs[1..] == fs;
    }
  }

  /** One frame more on the wire is one frame more extracted, ahead of the others. */
  lemma PrependFrame(f: seq<uint8>, rest: seq<uint8>, fs: seq<seq<uint8>>, t: (seq<seq<uint8>>, seq<uint8>))
    requires ValidFrame(f) && ExtractFrames(rest) == (fs + t.0, t.1)
    ensures ExtractFrames(WireFrame(f) + rest) == ([f] + fs + t.0, t.1)
  {
    ExtractWireFrame(f, rest);
    assert [f] + (fs + t.0) == [f] + fs + t.0;
  }

  lemma WireFramesCons(fs: seq<seq<uint8>>, tail: seq<uint8>)
    requires fs != []
    ensures WireFrames(fs) + tail == WireFrame(fs[0]) + (WireFrames(fs[1..]) + tail)
  {
  }

  /** Exactly one frame on the wire is extracted whole, with nothing left over. */
  lemma ExtractOneFrame(f: seq<uint8>)
    requires ValidFrame(f)
    ensures ExtractFrames(WireFrame(f)) == ([f], [])
  {
    ExtractWireFrame(f, []);
    assert WireFrame(f) + [] == WireFrame(f);
  }

  /**
    A frame that arrives in two pieces: the first piece, still incomplete, is kept as it is;
    once the rest arrives the frame is extracted.
  */
  lemma Reassembly(f: seq<uint8>, k: nat)
    requires ValidFrame(f) && k < |WireFrame(f)|
    ensures ExtractFrames(WireFrame(f)[..k]) == ([], WireFrame(f)[..k])
    ensures ExtractFrames(WireFrame(f)[..k] + WireFrame(f)[k..]) == ([f], [])
  {
    var w := WireFrame(f);
    if k < 2 {
      PartialPreamble(w[..k]);
    } else {
      assert PreambleAt(w[..k], 0);
      if k >= 3 {
        assert w[..k][2] == f[0];
      }
      Incomplete(w[..k]);
    }
    assert w[..k] + w[k..] == w;
    ExtractOneFrame(f);
  }

  /**
    Fewer than two bytes hold no preamble: `eat_bytes_until_preamble` hands them back through
    its orphaned-bytes return and nothing is extracted.
  */
  lemma PartialPreamble(data: seq<uint8>)
    requires |data| < 2
    ensures ExtractFrames(data) == ([], data)
  {
    FromFirstPreambleSpec(data);
  }

  /** The bytes left over are the tail of the input: extraction only ever consumes a prefix. */
  lemma {:induction false} LeftoverIsSuffix(raw: seq<uint8>)
    ensures IsSuffix(ExtractFrames(raw).1, raw)
    decreases |raw|
  {
    var data := SkipToPreamble(raw);
    SkipToPreambleSuffix(raw);
    if |data| < 6 || |data| < 6 + data[2] as int {
      assert ExtractFrames(raw).1 == data;
    } else {
      var n := data[2] as int;
      var uartFrame := data[..4 + n + 2];
      var remaining := data[6 + n..];
      assert IsSuffix(remaining, data);
      SuffixTransitive(remaining, data, raw);
      if Crc16(uartFrame[2..4 + n]) == FromLittleEndian(uartFrame[|uartFrame| - 2..]) && |remaining| > 0 {
        assert ExtractFrames(raw).1 == ExtractFrames(remaining).1;
        LeftoverIsSuffix(remaining);
        SuffixTransitive(ExtractFrames(remaining).1, remaining, raw);
      } else {
        assert ExtractFrames(raw).1 == remaining;
      }
    }
  }

  // ---------------------------------------------------------------------------------------
  // The reference frame `AA 55 01 01 22 DB 88`

  const ReferenceFrame: seq<uint8> := [0x01, 0x01, 0x22]

  /** The reference frame on the wire. */
  lemma ReferenceWire()
    ensures WireFrame(ReferenceFrame) == [0xAA, 0x55, 0x01, 0x01, 0x22, 0xDB, 0x88]
  {
    ReferenceFrameChecksum();
  }

  /** An empty buffer gives no frames and nothing left over. */
  lemma EmptyBuffer()
    ensures ExtractFrames([]) == ([], [])
  {
  }

  /** A whole reference frame and the first half of another: one frame, the half kept. */
  lemma OneAndHalfFrame()
    ensures ExtractFrames([0xAA, 0x55, 0x01, 0x01, 0x22, 0xDB, 0x88] + [0xAA, 0x55, 0x01, 0x01, 0x22])
            == ([ReferenceFrame], [0xAA, 0x55, 0x01, 0x01, 0x22])
  {
    ReferenceWire();
    var half: seq<uint8> := [0xAA, 0x55, 0x01, 0x01, 0x22];
    Incomplete(half);
    ExtractWireFrame(ReferenceFrame, half);
    assert [ReferenceFrame] + [] == [ReferenceFrame];
  }

  /** Two reference frames back to back: both frames, nothing left over. */
  lemma TwoFrames()
    ensures ExtractFrames([0xAA, 0x55, 0x01, 0x01, 0x22, 0xDB, 0x88] + [0xAA, 0x55, 0x01, 0x01, 0x22, 0xDB, 0x88])
            == ([ReferenceFrame, ReferenceFrame], [])
  {
    ReferenceWire();
    ExtractOneFrame(ReferenceFrame);
    ExtractWireFrame(ReferenceFrame, WireFrame(ReferenceFrame));
    assert [ReferenceFrame] + [ReferenceFrame] == [ReferenceFrame, ReferenceFrame];
  }

  /**
    The reference frame with its preamble replaced by two zero bytes is still extracted:
    without a preamble anywhere, the data is parsed as though it began with one.
  */
  lemma NoPreambleStillParsed()
    ensures ExtractFrames([0x00, 0x00, 0x01, 0x01, 0x22, 0xDB, 0x88]) == ([ReferenceFrame], [])
  {
    var data: seq<uint8> := [0x00, 0x00, 0x01, 0x01, 0x22, 0xDB, 0x88];
    FromFirstPreambleSpec(data);
    assert forall i :: 0 <= i < |data| ==> !PreambleAt(data, i);
    assert SkipToPreamble(data) == data;
    ReferenceFrameChecksum();
    var uartFrame := data[..7];
    assert uartFrame[2..5] == ReferenceFrame;
    assert uartFrame[|uartFrame| - 2..] == CrcBytes(ReferenceFrame);
    assert data[7..] == [];
  }
}
