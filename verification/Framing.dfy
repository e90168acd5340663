/** Big-endian integers, the length-prefixed frames of src/net/codec.cpp and the per-connection
    decoding loop of src/net/io_layer.cpp.

    Main result: whatever way a byte stream is cut into reads, the frames dispatched are those of
    the whole stream, in order, and exactly its incomplete tail stays buffered. */
module Framing {
  import opened Common

  type Buffer = seq<Byte>

  // ----- Big-endian integers -----

  function Pow256(n: nat): nat {
    if n == 0 then 1 else 0x100 * Pow256(n - 1)
  }

  function BigEndian(v: nat, n: nat): (bs: Buffer)
    ensures |bs| == n
  {
    if n == 0 then [] else BigEndian(v / 0x100, n - 1) + [v % 0x100]
  }

  function Value(bs: Buffer): nat {
    if bs == [] then 0 else 0x100 * Value(bs[..|bs| - 1]) + bs[|bs| - 1]
  }

  lemma {:induction false} ValueOfBigEndian(v: nat, n: nat)
    requires v < Pow256(n)
    ensures Value(BigEndian(v, n)) == v
  {
    if n > 0 {
      ValueOfBigEndian(v / 0x100, n - 1);
      assert BigEndian(v, n)[..n - 1] == BigEndian(v / 0x100, n - 1);
    }
  }

  lemma {:induction false} BigEndianOfValue(bs: Buffer)
    ensures Value(bs) < Pow256(|bs|) && BigEndian(Value(bs), |bs|) == bs
    decreases |bs|
  {
    if bs != [] {
      BigEndianOfValue(bs[..|bs| - 1]);
      assert bs == bs[..|bs| - 1] + [bs[|bs| - 1]];
    }
  }

  /** The shifts and masks of write_u16 and write_u32 are these digits. */
  function BytesOfU16(v: U16): Buffer {
    [v / 0x100 % 0x100, v % 0x100]
  }

  function BytesOfU32(v: U32): Buffer {
    [v / 0x100_0000 % 0x100, v / 0x1_0000 % 0x100, v / 0x100 % 0x100, v % 0x100]
  }

  lemma TwoBytes(v: nat)
    ensures BigEndian(v, 2) == [v / 0x100 % 0x100, v % 0x100]
  {
    assert BigEndian(v, 2) == BigEndian(v / 0x100, 1) + [v % 0x100];
    assert BigEndian(v / 0x100, 1) == BigEndian(v / 0x100 / 0x100, 0) + [v / 0x100 % 0x100];
  }

  lemma ShiftsCompose(w: nat)
    ensures w / 0x100 / 0x100 == w / 0x1_0000 && w / 0x100 / 0x100 / 0x100 == w / 0x100_0000
  {
  }

  lemma ShiftsAreBigEndian(v: U16, w: U32)
    ensures BytesOfU16(v) == BigEndian(v, 2)
    ensures BytesOfU32(w) == BigEndian(w, 4)
  {
    TwoBytes(v);
    TwoBytes(w / 0x100 / 0x100);
    ShiftsCompose(w);
    assert BigEndian(w, 4) == BigEndian(w / 0x100, 3) + [w % 0x100];
    assert BigEndian(w / 0x100, 3) == BigEndian(w / 0x100 / 0x100, 2) + [w / 0x100 % 0x100];
  }

  /** The byte loop of write_u64. */
  method BytesOfU64(v: U64) returns (out: Buffer)
    ensures out == BigEndian(v, 8)
  {
    out := [];
    var left: nat := v;
    for k := 0 to 8
      invariant |out| == k
      invariant BigEndian(left, 8 - k) + out == BigEndian(v, 8)
    {
      out := [left % 0x100] + out;
      left := left / 0x100;
    }
  }

  // ----- Frames -----

  const HEADER_SIZE: nat := 8

  datatype Frame = Frame(kind: U16, version: U16, payload: Buffer)

  /** Codec::encode; the length field is the payload size cast to 32 bits. */
  function EncodeFrame(f: Frame): Buffer {
    BytesOfU32(|f.payload| % U32_SIZE) + BytesOfU16(f.kind) + BytesOfU16(f.version) + f.payload
  }

  function LengthField(b: Buffer): nat
    requires HEADER_SIZE <= |b|
  {
    Value(b[..4])
  }

  predicate Complete(b: Buffer) {
    HEADER_SIZE <= |b| && HEADER_SIZE + LengthField(b) <= |b|
  }

  function FrameSize(b: Buffer): (n: nat)
    requires Complete(b)
    ensures HEADER_SIZE <= n <= |b|
  {
    HEADER_SIZE + LengthField(b)
  }

  function HeadFrame(b: Buffer): Frame
    requires Complete(b)
  {
    BigEndianOfValue(b[4..6]);
    BigEndianOfValue(b[6..8]);
    assert Pow256(2) == 0x1_0000 by { assert Pow256(1) == 0x100; }
    Frame(Value(b[4..6]), Value(b[6..8]), b[HEADER_SIZE..FrameSize(b)])
  }

  /** A number's bytes add up to it, the highest first. */
  lemma DigitsAddUp(v: U16, w: U32)
    ensures
      var b := BytesOfU16(v);
      b[0] as int * 0x100 + b[1] as int == v
    ensures
      var b := BytesOfU32(w);
      b[0] as int * 0x100_0000 + b[1] as int * 0x1_0000 + b[2] as int * 0x100 + b[3] as int == w
  {
  }

  lemma HeaderParts(length: Buffer, kind: Buffer, version: Buffer, payload: Buffer)
    requires |length| == 4 && |kind| == 2 && |version| == 2
    ensures
      var b := length + kind + version + payload;
      |b| == 8 + |payload| && b[..4] == length && b[4..6] == kind && b[6..8] == version && b[8..] == payload
  {
  }

  /** On the wire: four bytes of payload length, two of packet type and two of version, the highest
      first, and then the payload. */
  lemma FrameBytes(f: Frame)
    requires |f.payload| < 0x1_0000_0000
    ensures
      var b := EncodeFrame(f);
      && |b| == 8 + |f.payload|
      && b[..4] == BytesOfU32(|f.payload|) && b[4..6] == BytesOfU16(f.kind) && b[6..8] == BytesOfU16(f.version)
      && b[8..] == f.payload
  {
    HeaderParts(BytesOfU32(|f.payload|), BytesOfU16(f.kind), BytesOfU16(f.version), f.payload);
    hide BytesOfU16, BytesOfU32;
  }

  lemma TwoByteValue(b: Buffer)
    requires |b| == 2
    ensures Value(b) == b[0] as int * 0x100 + b[1] as int
  {
    assert b[..1][..0] == [] && Value([]) == 0;
    assert Value(b[..1]) == 0x100 * Value(b[..1][..0]) + b[0];
  }

  lemma FourByteValue(b: Buffer)
    requires |b| == 4
    ensures Value(b) == b[0] as int * 0x100_0000 + b[1] as int * 0x1_0000 + b[2] as int * 0x100 + b[3] as int
  {
    TwoByteValue(b[..2]);
    assert b[..3][..2] == b[..2];
    assert Value(b[..3]) == 0x100 * Value(b[..3][..2]) + b[2];
    assert Value(b) == 0x100 * Value(b[..3]) + b[3];
  }

  /** Off the wire: a frame is there exactly when its eight header bytes and as many more as the first
      four of them say are. */
  lemma HeadBytes(b: Buffer)
    requires 8 <= |b|
    ensures
      var n := b[0] as int * 0x100_0000 + b[1] as int * 0x1_0000 + b[2] as int * 0x100 + b[3] as int;
      && (Complete(b) <==> 8 + n <= |b|)
      && (Complete(b) ==>
            && FrameSize(b) == 8 + n
            && HeadFrame(b)
               == Frame(b[4] as int * 0x100 + b[5] as int, b[6] as int * 0x100 + b[7] as int, b[8..8 + n]))
  {
    FourByteValue(b[..4]);
    TwoByteValue(b[4..6]);
    TwoByteValue(b[6..8]);
    hide Value;
  }

  /** Without a whole header there is no frame. */
  lemma ShortIsIncomplete(b: Buffer)
    requires |b| < 8
    ensures !Complete(b) && Drain(b) == ([], b)
  {
  }

  /** All complete frames at the front of a buffer, and the incomplete rest. */
  function Drain(b: Buffer): (seq<Frame>, Buffer)
    decreases |b|
  {
    if !Complete(b) then ([], b)
    else
      var (frames, tail) := Drain(b[FrameSize(b)..]);
      ([HeadFrame(b)] + frames, tail)
  }

  /** One read after another through one decoder buffer. */
  function ReadAll(buffer: Buffer, chunks: seq<Buffer>): (seq<Frame>, Buffer)
    decreases |chunks|
  {
    if chunks == [] then ([], buffer)
    else
      var (frames, tail) := Drain(buffer + chunks[0]);
      var (more, last) := ReadAll(tail, chunks[1..]);
      (frames + more, last)
  }

  function Concat(bs: seq<Buffer>): Buffer {
    if bs == [] then [] else bs[0] + Concat(bs[1..])
  }

  lemma DrainStep(b: Buffer)
    ensures if Complete(b) then
              var (frames, tail) := Drain(b[FrameSize(b)..]);
              Drain(b) == ([HeadFrame(b)] + frames, tail)
            else Drain(b) == ([], b)
  {
  }

  // ----- Independence of the cuts -----

  lemma CompletePrefix(a: Buffer, b: Buffer)
    requires Complete(a)
    ensures Complete(a + b) && FrameSize(a + b) == FrameSize(a)
    ensures HeadFrame(a + b) == HeadFrame(a)
    ensures (a + b)[FrameSize(a)..] == a[FrameSize(a)..] + b
  {
    assert (a + b)[..4] == a[..4] && (a + b)[4..6] == a[4..6] && (a + b)[6..8] == a[6..8];
    assert (a + b)[HEADER_SIZE..FrameSize(a)] == a[HEADER_SIZE..FrameSize(a)];
  }

  lemma {:induction false} DrainExtends(a: Buffer, b: Buffer)
    ensures
      var (frames, tail) := Drain(a);
      var (more, last) := Drain(tail + b);
      !Complete(tail) && Drain(a + b) == (frames + more, last)
    decreases |a|
  {
    if Complete(a) {
      CompletePrefix(a, b);
      var rest := a[FrameSize(a)..];
      DrainExtends(rest, b);
      var (frames, tail) := Drain(rest);
      var more := Drain(tail + b).0;
      assert [HeadFrame(a)] + (frames + more) == [HeadFrame(a)] + frames + more;
    } else {
      assert [] + Drain(a + b).0 == Drain(a + b).0;
    }
  }

  /** Reads cut anywhere yield the frames and the tail of the concatenated bytes. */
  lemma {:induction false} CutsDoNotMatter(buffer: Buffer, chunks: seq<Buffer>)
    requires !Complete(buffer)
    ensures ReadAll(buffer, chunks) == Drain(buffer + Concat(chunks))
    decreases |chunks|
  {
    if chunks == [] {
      assert buffer + [] == buffer;
    } else {
      var (frames, tail) := Drain(buffer + chunks[0]);
      DrainExtends(buffer + chunks[0], Concat(chunks[1..]));
      CutsDoNotMatter(tail, chunks[1..]);
      assert buffer + Concat(chunks) == buffer + chunks[0] + Concat(chunks[1..]);
    }
  }

  // ----- Frames come back -----

  function EncodeAll(fs: seq<Frame>): Buffer {
    if fs == [] then [] else EncodeFrame(fs[0]) + EncodeAll(fs[1..])
  }

  lemma FieldsComeBack(v: U16, w: U32)
    ensures Value(BytesOfU16(v)) == v && Value(BytesOfU32(w)) == w
  {
    ShiftsAreBigEndian(v, w);
    Powers();
    ValueOfBigEndian(v, 2);
    ValueOfBigEndian(w, 4);
  }

  lemma FieldsMakeFrame(length: Buffer, kind: Buffer, version: Buffer, f: Frame, rest: Buffer)
    requires |f.payload| < U32_SIZE && |length| == 4 && |kind| == 2 && |version| == 2
    requires Value(length) == |f.payload| && Value(kind) == f.kind && Value(version) == f.version
    ensures
      var b := length + kind + version + f.payload + rest;
      Complete(b) && HeadFrame(b) == f && b[FrameSize(b)..] == rest
  {
    hide Value, Complete, HeadFrame, FrameSize;
    FieldSlices(length, kind, version, f.payload, rest);
    HeadIs(length + kind + version + f.payload + rest, f, rest);
  }

  lemma FieldSizes(v: U16, w: U32)
    ensures |BytesOfU16(v)| == 2 && |BytesOfU32(w)| == 4
  {
  }

  lemma FieldsOf(f: Frame) returns (length: Buffer, kind: Buffer, version: Buffer)
    requires |f.payload| < U32_SIZE
    ensures EncodeFrame(f) == length + kind + version + f.payload
    ensures |length| == 4 && |kind| == 2 && |version| == 2
    ensures Value(length) == |f.payload| && Value(kind) == f.kind && Value(version) == f.version
  {
    hide Value, BytesOfU16, BytesOfU32;
    FieldsComeBack(f.kind, |f.payload|);
    FieldsComeBack(f.version, 0);
    FieldSizes(f.kind, |f.payload|);
    FieldSizes(f.version, 0);
    assert |f.payload| % U32_SIZE == |f.payload|;
    length, kind, version := BytesOfU32(|f.payload|), BytesOfU16(f.kind), BytesOfU16(f.version);
  }

  lemma EncodedFrameIsComplete(f: Frame, rest: Buffer)
    requires |f.payload| < U32_SIZE
    ensures
      var b := EncodeFrame(f) + rest;
      Complete(b) && HeadFrame(b) == f && b[FrameSize(b)..] == rest
  {
    var length, kind, version := FieldsOf(f);
    FieldsMakeFrame(length, kind, version, f, rest);
    hide Value, Complete, HeadFrame, FrameSize, EncodeFrame;
  }

  lemma HeadIs(b: Buffer, f: Frame, rest: Buffer)
    requires |f.payload| < U32_SIZE && |b| == HEADER_SIZE + |f.payload| + |rest|
    requires Value(b[..4]) == |f.payload| && Value(b[4..6]) == f.kind && Value(b[6..8]) == f.version
    requires b[HEADER_SIZE..HEADER_SIZE + |f.payload|] == f.payload && b[HEADER_SIZE + |f.payload|..] == rest
    ensures Complete(b) && HeadFrame(b) == f && b[FrameSize(b)..] == rest
  {
    hide Value;
  }

  lemma FieldSlices(length: Buffer, kind: Buffer, version: Buffer, payload: Buffer, rest: Buffer)
    requires |length| == 4 && |kind| == 2 && |version| == 2
    ensures
      var b := length + kind + version + payload + rest;
      && b[..4] == length && b[4..6] == kind && b[6..8] == version
      && b[8..8 + |payload|] == payload && b[8 + |payload|..] == rest
  {
  }

  lemma Powers()
    ensures Pow256(2) == 0x1_0000 && Pow256(4) == 0x1_0000_0000 && Pow256(8) == 0x1_0000_0000_0000_0000
  {
    assert Pow256(1) == 0x100 * Pow256(0);
    assert Pow256(3) == 0x100 * Pow256(2);
    assert Pow256(5) == 0x100 * Pow256(4);
    assert Pow256(7) == 0x100 * Pow256(6);
  }

  lemma {:induction false} DrainOfEncoded(fs: seq<Frame>)
    requires forall f :: f in fs ==> |f.payload| < U32_SIZE
    ensures Drain(EncodeAll(fs)) == (fs, [])
  {
    if fs != [] {
      EncodedFrameIsComplete(fs[0], EncodeAll(fs[1..]));
      DrainOfEncoded(fs[1..]);
      assert [fs[0]] + fs[1..] == fs;
    }
  }

  /** A stream of encoded frames, however cut, yields those frames and leaves nothing behind. */
  lemma FramesSurviveAnyCut(fs: seq<Frame>, chunks: seq<Buffer>)
    requires forall f :: f in fs ==> |f.payload| < U32_SIZE
    requires Concat(chunks) == EncodeAll(fs)
    ensures ReadAll([], chunks) == (fs, [])
  {
    CutsDoNotMatter([], chunks);
    assert [] + Concat(chunks) == Concat(chunks);
    DrainOfEncoded(fs);
  }

  // ----- The decoder and pipeline objects -----

  class FrameDecoder {
    var buffer: Buffer

    constructor ()
      ensures buffer == []
    {
      buffer := [];
    }

    method Append(data: Buffer)
      modifies this
      ensures buffer == old(buffer) + data
    {
      buffer := buffer + data;
    }

    method NextFrame() returns (frame: Option<Frame>)
      modifies this
      ensures frame.Some? <==> Complete(old(buffer))
      ensures frame.Some? ==> frame.value == HeadFrame(old(buffer)) && buffer == old(buffer)[FrameSize(old(buffer))..]
      ensures frame.None? ==> buffer == old(buffer)
    {
      if |buffer| < HEADER_SIZE {
        return None;
      }
      var length := Value(buffer[..4]);
      if |buffer| < HEADER_SIZE + length {
        return None;
      }
      frame := Some(HeadFrame(buffer));
      buffer := buffer[HEADER_SIZE + length..];
    }
  }

  type ConnectionId = nat

  datatype Dispatch = Dispatch(connection: ConnectionId, frame: Frame)

  function Dispatches(c: ConnectionId, frames: seq<Frame>): seq<Dispatch> {
    seq(|frames|, i requires 0 <= i < |frames| => Dispatch(c, frames[i]))
  }

  /** `dispatched` records the calls of the dispatch function, in order. */
  class PacketPipeline {
    const hasDispatch: bool
    var decoders: map<ConnectionId, FrameDecoder>
    var dispatched: seq<Dispatch>

    ghost predicate Valid()
      reads this
    {
      forall c, d :: c in decoders && d in decoders && c != d ==> decoders[c] != decoders[d]
    }

    constructor (hasDispatch: bool)
      ensures Valid() && decoders == map[] && dispatched == [] && this.hasDispatch == hasDispatch
    {
      this.hasDispatch := hasDispatch;
      decoders, dispatched := map[], [];
    }

    method RegisterConnection(c: ConnectionId)
      requires Valid()
      modifies this
      ensures Valid() && decoders.Keys == old(decoders).Keys + {c} && dispatched == old(dispatched)
      ensures c !in old(decoders) ==> fresh(decoders[c]) && decoders[c].buffer == []
      ensures forall d :: d in old(decoders) ==> decoders[d] == old(decoders)[d]
    {
      if c !in decoders {
        var decoder := new FrameDecoder();
        decoders := decoders[c := decoder];
      }
    }

    method RemoveConnection(c: ConnectionId)
      requires Valid()
      modifies this
      ensures Valid() && decoders == old(decoders) - {c} && dispatched == old(dispatched)
    {
      decoders := decoders - {c};
    }

    /** One read: dispatch every frame it completes, keep the tail; other connections are not touched. */
    method OnRead(c: ConnectionId, data: Buffer)
      requires Valid()
      modifies this`dispatched, decoders.Values
      ensures Valid() && decoders == old(decoders)
      ensures forall d :: d in decoders && d != c ==> decoders[d].buffer == old(decoders[d].buffer)
      ensures c !in decoders ==> dispatched == old(dispatched)
      ensures c in decoders ==>
        var (frames, tail) := Drain(old(decoders[c].buffer) + data);
        && decoders[c].buffer == tail
        && dispatched == old(dispatched) + if hasDispatch then Dispatches(c, frames) else []
    {
      if c !in decoders {
        return;
      }
      var decoder := decoders[c];
      decoder.Append(data);
      DispatchAll(c, decoder);
    }

    /** The drain loop; every frame takes at least its header off the buffer. */
    method DispatchAll(c: ConnectionId, decoder: FrameDecoder)
      modifies this`dispatched, decoder
      ensures
        var (frames, tail) := Drain(old(decoder.buffer));
        && decoder.buffer == tail
        && dispatched == old(dispatched) + if hasDispatch then Dispatches(c, frames) else []
    {
      hide Value, HeadFrame, Complete, LengthField, Drain;
      ghost var (all, tail) := Drain(decoder.buffer);
      ghost var n := 0;
      while true
        modifies this`dispatched, decoder
        invariant n <= |all| && Drain(decoder.buffer) == (all[n..], tail)
        invariant dispatched == old(dispatched) + if hasDispatch then Dispatches(c, all[..n]) else []
        decreases |decoder.buffer|
      {
        DrainStep(decoder.buffer);
        var frame := decoder.NextFrame();
        if frame.None? {
          break;
        }
        assert all[n..] != [];
        assert all[n] == all[n..][0] == frame.value && all[n..][1..] == all[n + 1..];
        if hasDispatch {
          assert Dispatches(c, all[..n + 1]) == Dispatches(c, all[..n]) + [Dispatch(c, all[n])];
          dispatched := dispatched + [Dispatch(c, frame.value)];
        }
        n := n + 1;
      }
      assert all[..n] == all;
    }
  }
}
