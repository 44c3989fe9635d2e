/** Printing WAV files the way the fixture generator does
    (tests/fixtures/audio/generate_fixtures.py:25-79), and decoding them again. */
module WavRoundTrip {
  import opened Prelude
  import opened Signals
  import opened WavDecoding

  // ---- Printing -----------------------------------------------------------------------------------

  function Put16(n: nat): (bytes: seq<Byte>)
    requires n < 0x1_0000
    ensures |bytes| == 2 && U16(bytes, 0) == n
  {
    [n % 256, n / 256]
  }

  function Put32(n: nat): (bytes: seq<Byte>)
    requires n < 0x1_0000_0000
    ensures |bytes| == 4 && U32(bytes, 0) == n && U24(bytes[..3], 0) == n % 0x100_0000
  {
    var q1 := n / 256;
    var q2 := q1 / 256;
    [n % 256, q1 % 256, q2 % 256, q2 / 256]
  }

  datatype Chunk = Chunk(id: seq<Byte>, body: seq<Byte>)
  {
    /** A chunk a file can hold. */
    predicate Fits() {
      |id| == 4 && |body| < 0x1_0000_0000
    }
  }

  /** chunk: the id, the size, the body, and a zero byte behind an odd body. */
  function ChunkBytes(c: Chunk): seq<Byte>
    requires c.Fits()
  {
    c.id + Put32(|c.body|) + c.body + (if |c.body| % 2 == 1 then [0] else [])
  }

  predicate AllFit(chunks: seq<Chunk>) {
    forall i :: 0 <= i < |chunks| ==> chunks[i].Fits()
  }

  function Joined(chunks: seq<Chunk>): seq<Byte>
    requires AllFit(chunks)
  {
    if chunks == [] then [] else ChunkBytes(chunks[0]) + Joined(chunks[1..])
  }

  /** riff: the header and the chunks. */
  function RiffFile(chunks: seq<Chunk>): seq<Byte>
    requires AllFit(chunks) && |Joined(chunks)| + 4 < 0x1_0000_0000
  {
    RIFF + Put32(|Joined(chunks)| + 4) + WAVE + Joined(chunks)
  }

  /** Bytes per frame and per second. */
  function FrameSize(channels: nat, bits: nat): nat {
    channels * (bits / 8)
  }

  function ByteRate(rate: nat, channels: nat, bits: nat): nat {
    rate * FrameSize(channels, bits)
  }

  function FmtFields(tag: nat, channels: nat, rate: nat, byteRate: nat, align: nat, bits: nat): (fields: seq<Byte>)
    requires tag < 0x1_0000 && channels < 0x1_0000 && align < 0x1_0000 && bits < 0x1_0000
    requires rate < 0x1_0000_0000 && byteRate < 0x1_0000_0000
    ensures |fields| == 16
  {
    Put16(tag) + Put16(channels) + Put32(rate) + Put32(byteRate) + Put16(align) + Put16(bits)
  }

  /** The body of fmt_chunk, plain or extensible. */
  function FmtBody(tag: nat, channels: nat, rate: nat, bits: nat, extensible: Option<nat>): (body: seq<Byte>)
    requires tag < 0x1_0000 && FrameSize(channels, bits) < 0x1_0000 && channels < 0x1_0000 && bits < 0x1_0000
    requires rate < 0x1_0000_0000 && ByteRate(rate, channels, bits) < 0x1_0000_0000
    requires extensible.Some? ==> extensible.value < 0x1_0000
    ensures |body| == if extensible.Some? then 40 else 16
  {
    FmtFields(tag, channels, rate, ByteRate(rate, channels, bits), FrameSize(channels, bits), bits)
    + if extensible.Some? then Extension(bits, extensible.value) else []
  }

  function Extension(bits: nat, tag: nat): (extension: seq<Byte>)
    requires bits < 0x1_0000 && tag < 0x1_0000
    ensures |extension| == 24
  {
    Put16(22) + Put16(bits) + Put32(0) + Put16(tag) +
    [0x00, 0x00, 0x00, 0x00, 0x10, 0x00, 0x80, 0x00, 0x00, 0xAA, 0x00, 0x38, 0x9B, 0x71]
  }

  /** How a file holds its samples. */
  datatype Coding = Pcm8 | Pcm16 | Pcm24 | Pcm32 | Float32
  {
    function Bits(): nat {
      match this case Pcm8 => 8 case Pcm16 => 16 case Pcm24 => 24 case Pcm32 => 32 case Float32 => 32
    }

    function Tag(): nat {
      if Float32? then TAG_FLOAT else TAG_PCM
    }

    function Bytes(): nat {
      Bits() / 8
    }
  }

  /** One value: offset by 128 in eight bits, two's complement in more (pcm16, pcm24 and pcm32), and
      the 32-bit pattern of a float (f32). */
  function SampleBytes(v: int, coding: Coding): (bytes: seq<Byte>)
    requires InDepth(v, coding)
    ensures |bytes| == coding.Bytes()
  {
    var n := if v < 0 then v + 0x1_0000_0000 else v;
    match coding
    case Pcm8 => [v + 128]
    case Pcm16 => Put16(n % 0x1_0000)
    case Pcm24 => Put32(n)[..3]
    case _ => Put32(n)
  }

  predicate InDepth(v: int, coding: Coding) {
    match coding
    case Pcm8 => -0x80 <= v < 0x80
    case Pcm16 => -0x8000 <= v < 0x8000
    case Pcm24 => -0x80_0000 <= v < 0x80_0000
    case Pcm32 => -0x8000_0000 <= v < 0x8000_0000
    case Float32 => 0 <= v < 0x1_0000_0000
  }

  /** What a value stands for: a part of its depth's power of two, or the float with its pattern. */
  function Value(v: int, coding: Coding, float: nat -> Option<real>): real
    requires InDepth(v, coding)
  {
    match coding
    case Pcm8 => v as real / 128.0
    case Pcm16 => v as real / 32768.0
    case Pcm24 => v as real / 8388608.0
    case Pcm32 => v as real / 2147483648.0
    case Float32 => if float(v).Some? then float(v).value else 0.0
  }

  /** No sample is an infinity or not a number. */
  predicate Finite(v: int, coding: Coding, float: nat -> Option<real>)
    requires InDepth(v, coding)
  {
    coding.Float32? ==> float(v).Some?
  }

  predicate AllFinite(channels: seq<seq<int>>, n: nat, coding: Coding, float: nat -> Option<real>)
    requires IsSignal(channels, n, coding)
  {
    forall c, f :: 0 <= c < |channels| && 0 <= f < n ==> Finite(channels[c][f], coding, float)
  }

  /** The first c values of frame f of one or two channels, as interleave orders them. */
  function FrameBytesOf(channels: seq<seq<int>>, f: nat, c: nat, coding: Coding): (bytes: seq<Byte>)
    requires c <= |channels| && IsSignal(channels, f + 1, coding)
    ensures |bytes| == c * coding.Bytes()
  {
    if c == 0 then []
    else
      OneFrameLess(c, coding.Bytes());
      FrameBytesOf(channels, f, c - 1, coding) + SampleBytes(channels[c - 1][f], coding)
  }

  /** pcm(interleave(channels)) for the first n frames. */
  function PcmData(channels: seq<seq<int>>, n: nat, coding: Coding): (bytes: seq<Byte>)
    requires IsSignal(channels, n, coding)
    ensures |bytes| == n * (|channels| * coding.Bytes())
  {
    if n == 0 then []
    else
      OneFrameLess(n, |channels| * coding.Bytes());
      PcmData(channels, n - 1, coding) + FrameBytesOf(channels, n - 1, |channels|, coding)
  }

  /** Every channel has at least n values, all within the depth. */
  predicate IsSignal(channels: seq<seq<int>>, n: nat, coding: Coding) {
    forall c :: 0 <= c < |channels| ==> n <= |channels[c]| && forall f :: 0 <= f < n ==> InDepth(channels[c][f], coding)
  }

  // ---- The walk sees exactly the chunks -----------------------------------------------------------

  /** What the walk over a list of chunks finds. */
  function Scanned(chunks: seq<Chunk>, found: Found): Result<Found> {
    if chunks == [] then Success(found)
    else match Noticed(found, chunks[0].id, chunks[0].body)
      case Failure(status) => Failure(status)
      case Success(next) => Scanned(chunks[1..], next)
  }

  lemma {:induction false} WalkIsScan(bytes: seq<Byte>, end: nat, pos: nat, chunks: seq<Chunk>, found: Found)
    requires AllFit(chunks) && end <= |bytes| && pos <= end && bytes[pos..end] == Joined(chunks)
    ensures Walked(bytes, end, pos, found) == Scanned(chunks, found)
    decreases |chunks|
  {
    hide Walked, Put32, U32, Noticed;
    WalkStep(bytes, end, pos, found);
    if chunks != [] {
      var c := chunks[0];
      var size := |ChunkBytes(c)|;
      ChunkRead(bytes, end, pos, chunks);
      match Noticed(found, c.id, c.body)
      case Failure(_) =>
      case Success(next) => WalkIsScan(bytes, end, pos + size, chunks[1..], next);
    }
  }

  lemma ChunkLayout(c: Chunk)
    requires c.Fits()
    ensures
      var printed := ChunkBytes(c);
      && |printed| == 8 + |c.body| + |c.body| % 2
      && printed[..4] == c.id && printed[4..8] == Put32(|c.body|) && printed[8..8 + |c.body|] == c.body
  {
    hide Put32;
  }

  lemma SliceOfSlice(bytes: seq<Byte>, end: nat, pos: nat, from: nat, to: nat)
    requires pos + to <= end <= |bytes| && from <= to
    ensures bytes[pos + from..pos + to] == bytes[pos..end][from..to]
  {
    var a, b := bytes[pos + from..pos + to], bytes[pos..end][from..to];
    forall i | 0 <= i < |a| ensures a[i] == b[i] {
      assert bytes[pos..end][from + i] == bytes[pos + from + i];
    }
  }

  /** The first chunk of what is left, as the walk reads it. */
  lemma ChunkRead(bytes: seq<Byte>, end: nat, pos: nat, chunks: seq<Chunk>)
    requires AllFit(chunks) && chunks != [] && end <= |bytes| && pos <= end && bytes[pos..end] == Joined(chunks)
    ensures
      var c := chunks[0];
      var size := |ChunkBytes(c)|;
      && size == 8 + |c.body| + |c.body| % 2 && pos + size <= end
      && bytes[pos..pos + 4] == c.id && U32(bytes, pos + 4) == |c.body|
      && bytes[pos + 8..pos + 8 + |c.body|] == c.body
      && bytes[pos + size..end] == Joined(chunks[1..])
  {
    hide ChunkBytes, Put32, U32;
    var c := chunks[0];
    var printed, others := ChunkBytes(c), Joined(chunks[1..]);
    var size := |printed|;
    ChunkLayout(c);
    var rest := bytes[pos..end];
    assert rest == printed + others;
    SliceOfSlice(bytes, end, pos, 0, 4);
    SliceOfSlice(bytes, end, pos, 4, 8);
    SliceOfSlice(bytes, end, pos, 8, 8 + |c.body|);
    SliceOfSlice(bytes, end, pos, size, end - pos);
    assert rest[..size] == printed && rest[size..] == others;
    SliceOfSlice(rest, |rest|, 0, 0, 4);
    assert rest[0..4] == rest[..size][0..4] && rest[4..8] == rest[..size][4..8];
    assert rest[8..8 + |c.body|] == rest[..size][8..8 + |c.body|];
    SameWord(bytes, pos + 4, Put32(|c.body|), 0);
  }

  lemma SameWord(a: seq<Byte>, p: nat, b: seq<Byte>, q: nat)
    requires p + 4 <= |a| && q + 4 <= |b| && a[p..p + 4] == b[q..q + 4]
    ensures U32(a, p) == U32(b, q) && U24(a, p) == U24(b, q)
  {
    var x, y := a[p..p + 4], b[q..q + 4];
    assert a[p] == x[0] && a[p + 1] == x[1] && a[p + 2] == x[2] && a[p + 3] == x[3];
    assert b[q] == y[0] && b[q + 1] == y[1] && b[q + 2] == y[2] && b[q + 3] == y[3];
  }

  lemma SameHalf(a: seq<Byte>, p: nat, b: seq<Byte>, q: nat)
    requires p + 2 <= |a| && q + 2 <= |b| && a[p..p + 2] == b[q..q + 2]
    ensures U16(a, p) == U16(b, q)
  {
    var x, y := a[p..p + 2], b[q..q + 2];
    assert a[p] == x[0] && a[p + 1] == x[1] && b[q] == y[0] && b[q + 1] == y[1];
  }

  // ---- The format ---------------------------------------------------------------------------------

  lemma FieldsRead(
    tag: nat, channels: nat, rate: nat, byteRate: nat, align: nat, bits: nat, rest: seq<Byte>)
    requires tag < 0x1_0000 && channels < 0x1_0000 && align < 0x1_0000 && bits < 0x1_0000
    requires rate < 0x1_0000_0000 && byteRate < 0x1_0000_0000
    ensures
      var body := FmtFields(tag, channels, rate, byteRate, align, bits) + rest;
      && U16(body, 0) == tag && U16(body, 2) == channels && U32(body, 4) == rate
      && U16(body, 12) == align && U16(body, 14) == bits
  {
    hide Put16, Put32, U16, U24, U32;
    var body := FmtFields(tag, channels, rate, byteRate, align, bits) + rest;
    assert body[0..2] == Put16(tag)[0..2] && body[2..4] == Put16(channels)[0..2];
    assert body[4..8] == Put32(rate)[0..4];
    assert body[12..14] == Put16(align)[0..2] && body[14..16] == Put16(bits)[0..2];
    SameHalf(body, 0, Put16(tag), 0);
    SameHalf(body, 2, Put16(channels), 0);
    SameWord(body, 4, Put32(rate), 0);
    SameHalf(body, 12, Put16(align), 0);
    SameHalf(body, 14, Put16(bits), 0);
  }

  lemma FmtParses(channels: nat, rate: nat, bits: nat, tag: nat, extensible: bool)
    requires FrameSize(channels, bits) < 0x1_0000 && channels < 0x1_0000 && bits < 0x1_0000
    requires rate < 0x1_0000_0000 && ByteRate(rate, channels, bits) < 0x1_0000_0000
    requires tag < 0x1_0000 && tag != TAG_EXTENSIBLE
    ensures
      ParseFmt(if extensible then FmtBody(TAG_EXTENSIBLE, channels, rate, bits, Some(tag))
               else FmtBody(tag, channels, rate, bits, None)) ==
      Success(WavFormat(tag, channels, rate, FrameSize(channels, bits), bits))
  {
    hide Put16, Put32, U16, U24, U32, FmtFields, FrameSize, ByteRate;
    var first := if extensible then TAG_EXTENSIBLE else tag;
    var align, byteRate := FrameSize(channels, bits), ByteRate(rate, channels, bits);
    var body := FmtBody(first, channels, rate, bits, if extensible then Some(tag) else None);
    var fields := FmtFields(first, channels, rate, byteRate, align, bits);
    assert body == fields + body[16..];
    FieldsRead(first, channels, rate, byteRate, align, bits, body[16..]);
    if extensible {
      assert Extension(bits, tag)[8..10] == Put16(tag)[0..2];
      assert body[24..26] == Extension(bits, tag)[8..10];
      SameHalf(body, 24, Put16(tag), 0);
    }
  }

  // ---- The samples --------------------------------------------------------------------------------

  lemma Sample16Reads(bytes: seq<Byte>, p: nat, v: int)
    requires InDepth(v, Pcm16) && p + 2 <= |bytes| && bytes[p..p + 2] == SampleBytes(v, Pcm16)
    ensures Signed(U16(bytes, p), 0x1_0000) == v
  {
    hide Put16, Put32, U16;
    var n := if v < 0 then v + 0x1_0000_0000 else v;
    assert bytes[p..p + 2] == Put16(n % 0x1_0000)[0..2];
    SameHalf(bytes, p, Put16(n % 0x1_0000), 0);
  }

  lemma Sample24Reads(bytes: seq<Byte>, p: nat, v: int)
    requires InDepth(v, Pcm24) && p + 3 <= |bytes| && bytes[p..p + 3] == SampleBytes(v, Pcm24)
    ensures Signed(U24(bytes, p), 0x100_0000) == v
  {
    hide Put16, Put32, U16;
    var n := if v < 0 then v + 0x1_0000_0000 else v;
    var three := bytes[p..p + 3];
    assert three == Put32(n)[..3];
    assert U24(three, 0) == n % 0x100_0000;
    assert bytes[p] == three[0] && bytes[p + 1] == three[1] && bytes[p + 2] == three[2];
  }

  lemma Sample32Reads(bytes: seq<Byte>, p: nat, v: int)
    requires InDepth(v, Pcm32) && p + 4 <= |bytes| && bytes[p..p + 4] == SampleBytes(v, Pcm32)
    ensures Signed(U32(bytes, p), 0x1_0000_0000) == v
  {
    hide Put16, Put32, U32;
    var n := if v < 0 then v + 0x1_0000_0000 else v;
    assert bytes[p..p + 4] == Put32(n)[0..4];
    SameWord(bytes, p, Put32(n), 0);
  }

  lemma FloatReads(bytes: seq<Byte>, p: nat, v: int)
    requires InDepth(v, Float32) && p + 4 <= |bytes| && bytes[p..p + 4] == SampleBytes(v, Float32)
    ensures U32(bytes, p) == v
  {
    hide Put16, Put32, U32;
    assert bytes[p..p + 4] == Put32(v)[0..4];
    SameWord(bytes, p, Put32(v), 0);
  }

  lemma ByteReads(bytes: seq<Byte>, p: nat, v: int)
    requires InDepth(v, Pcm8) && p + 1 <= |bytes| && bytes[p..p + 1] == SampleBytes(v, Pcm8)
    ensures ByteAt(bytes, p) == v + 128
  {
    assert bytes[p] == bytes[p..p + 1][0];
  }

  /** The format says how the samples are held. */
  predicate Holds(format: WavFormat, coding: Coding) {
    format.tag == coding.Tag() && format.bits == coding.Bits()
  }

  lemma SampleReads(
    bytes: seq<Byte>, p: nat, v: int, format: WavFormat, coding: Coding, float: nat -> Option<real>)
    requires Holds(format, coding) && InDepth(v, coding) && Finite(v, coding, float)
    requires p + coding.Bytes() <= |bytes| && bytes[p..p + coding.Bytes()] == SampleBytes(v, coding)
    ensures ReadSample(bytes, p, format, float) == Some(Value(v, coding, float))
  {
    hide SampleBytes, U16, U24, U32, Signed;
    match coding
    case Pcm8 => ByteReads(bytes, p, v);
    case Pcm16 => Sample16Reads(bytes, p, v);
    case Pcm24 => Sample24Reads(bytes, p, v);
    case Pcm32 => Sample32Reads(bytes, p, v);
    case Float32 => FloatReads(bytes, p, v);
  }

  function ScaledFrame(
    channels: seq<seq<int>>, f: nat, c: nat, coding: Coding, float: nat -> Option<real>): Frame
    requires c <= |channels| && IsSignal(channels, f + 1, coding)
  {
    seq(c, i requires 0 <= i < c => Value(channels[i][f], coding, float))
  }

  function ScaledSamples(
    channels: seq<seq<int>>, n: nat, coding: Coding, float: nat -> Option<real>): Block
    requires IsSignal(channels, n, coding)
  {
    seq(n, f requires 0 <= f < n => ScaledFrame(channels, f, |channels|, coding, float))
  }

  lemma {:induction false} FrameReads(
    bytes: seq<Byte>, p: nat, channels: seq<seq<int>>, f: nat, c: nat, format: WavFormat, coding: Coding,
    float: nat -> Option<real>)
    requires Holds(format, coding) && c <= |channels| && IsSignal(channels, f + 1, coding)
    requires AllFinite(channels, f + 1, coding, float)
    requires p + c * (coding.Bytes()) <= |bytes|
    requires bytes[p..p + c * (coding.Bytes())] == FrameBytesOf(channels, f, c, coding)
    ensures ReadFrame(bytes, p, c, format, float) == Some(ScaledFrame(channels, f, c, coding, float))
  {
    hide SampleBytes, ReadSample;
    if c == 0 {
      assert ScaledFrame(channels, f, 0, coding, float) == [];
    } else {
      var size := coding.Bytes();
      OneFrameLess(c, size);
      var before, all := (c - 1) * size, c * size;
      var printed := FrameBytesOf(channels, f, c, coding);
      assert printed[..before] == FrameBytesOf(channels, f, c - 1, coding);
      assert printed[before..] == SampleBytes(channels[c - 1][f], coding);
      Part(bytes, p, all, 0, before);
      Part(bytes, p, all, before, all);
      FrameReads(bytes, p, channels, f, c - 1, format, coding, float);
      SampleReads(bytes, p + before, channels[c - 1][f], format, coding, float);
      assert ScaledFrame(channels, f, c, coding, float) ==
             ScaledFrame(channels, f, c - 1, coding, float) + [Value(channels[c - 1][f], coding, float)];
    }
  }

  lemma Part(bytes: seq<Byte>, p: nat, size: nat, from: nat, to: nat)
    requires p + size <= |bytes| && from <= to <= size
    ensures bytes[p + from..p + to] == bytes[p..p + size][from..to]
  {
    SliceOfSlice(bytes, p + size, p, from, to);
  }

  lemma {:induction false} FramesRead(
    data: seq<Byte>, channels: seq<seq<int>>, n: nat, format: WavFormat, coding: Coding, float: nat -> Option<real>)
    requires Holds(format, coding) && format.channels == |channels| && IsSignal(channels, n, coding)
    requires AllFinite(channels, n, coding, float)
    requires n * FrameBytes(format) <= |data| && data[..n * FrameBytes(format)] == PcmData(channels, n, coding)
    ensures ReadFrames(data, n, format, float) == Some(ScaledSamples(channels, n, coding, float))
  {
    hide FrameBytesOf, ReadFrame, ScaledFrame;
    if n == 0 {
      assert ScaledSamples(channels, 0, coding, float) == [];
    } else {
      var size := FrameBytes(format);
      OneFrameLess(n, size);
      var before, all := (n - 1) * size, n * size;
      var printed := PcmData(channels, n, coding);
      assert printed[..before] == PcmData(channels, n - 1, coding);
      assert printed[before..] == FrameBytesOf(channels, n - 1, |channels|, coding);
      Part(data, 0, all, 0, before);
      Part(data, 0, all, before, all);
      FramesRead(data, channels, n - 1, format, coding, float);
      FrameReads(data, before, channels, n - 1, |channels|, format, coding, float);
      assert ScaledSamples(channels, n, coding, float) ==
             ScaledSamples(channels, n - 1, coding, float) + [ScaledFrame(channels, n - 1, |channels|, coding, float)];
    }
  }

  // ---- The round trip -----------------------------------------------------------------------------

  function FirstBody(chunks: seq<Chunk>, id: seq<Byte>): Option<seq<Byte>> {
    if chunks == [] then None
    else if chunks[0].id == id then Some(chunks[0].body) else FirstBody(chunks[1..], id)
  }

  /** The walk keeps the first format and the first data chunk, whatever stands around them. */
  lemma {:induction false} ScanKeepsFirst(chunks: seq<Chunk>, found: Found, format: WavFormat)
    requires
      found.format.Some? || (FirstBody(chunks, FMT).Some? && ParseFmt(FirstBody(chunks, FMT).value) == Success(format))
    ensures
      Scanned(chunks, found) ==
      Success(Found(if found.format.Some? then found.format else Some(format),
                    if found.data.Some? then found.data else FirstBody(chunks, DATA)))
  {
    hide ParseFmt;
    if chunks != [] {
      var c := chunks[0];
      assert FMT != DATA by {
        assert FMT[0] != DATA[0];
      }
      var next := if c.id == FMT && found.format.None? then found.(format := Some(format))
                  else if c.id == DATA && found.data.None? then found.(data := Some(c.body)) else found;
      ScanKeepsFirst(chunks[1..], next, format);
    }
  }

  /** fmt_chunk's body for a signal. */
  function PcmFmt(channels: nat, rate: nat, coding: Coding, extensible: bool): (body: seq<Byte>)
    requires channels in {1, 2} && rate <= MAX_ASSET_RATE
    ensures |body| <= 40
  {
    SmallProduct(channels, coding, rate);
    if extensible then FmtBody(TAG_EXTENSIBLE, channels, rate, coding.Bits(), Some(coding.Tag()))
    else FmtBody(coding.Tag(), channels, rate, coding.Bits(), None)
  }

  lemma SmallProduct(channels: nat, coding: Coding, rate: nat)
    requires channels in {1, 2} && rate <= MAX_ASSET_RATE
    ensures 0 < FrameSize(channels, coding.Bits()) <= 8 && ByteRate(rate, channels, coding.Bits()) < 0x1_0000_0000
  {
  }

  /** Decoding undoes printing: in a file whose first format and data chunks are the generator's for
      a one- or two-channel signal, with any other chunks anywhere and anything behind the RIFF
      body, the decoder finds exactly the printed values. */
  lemma DecodingUndoesPrinting(
    signal: seq<seq<int>>, n: nat, rate: nat, coding: Coding, extensible: bool, chunks: seq<Chunk>, trailing: seq<Byte>,
    maxFrames: nat, float: nat -> Option<real>)
    requires |signal| in {1, 2} && 0 < rate <= MAX_ASSET_RATE
    requires IsSignal(signal, n, coding) && AllFinite(signal, n, coding, float) && 0 < n <= maxFrames
    requires AllFit(chunks) && |Joined(chunks)| + 4 < 0x1_0000_0000
    requires FirstBody(chunks, FMT) == Some(PcmFmt(|signal|, rate, coding, extensible))
    requires FirstBody(chunks, DATA) == Some(PcmData(signal, n, coding))
    ensures Decoded(RiffFile(chunks) + trailing, maxFrames, float) ==
            Success(AudioAsset(rate, |signal|, ScaledSamples(signal, n, coding, float)))
  {
    hide Joined, PcmData, ReadFrames, ScaledSamples, Walked, Scanned, FmtBody, ParseFmt, Put32, U32, IsSignal;
    SmallProduct(|signal|, coding, rate);
    var format := WavFormat(coding.Tag(), |signal|, rate, FrameSize(|signal|, coding.Bits()), coding.Bits());
    FmtParses(|signal|, rate, coding.Bits(), coding.Tag(), extensible);
    ScanKeepsFirst(chunks, Found(None, None), format);
    HeaderReads(chunks, trailing);
    var bytes := RiffFile(chunks) + trailing;
    WalkIsScan(bytes, |Joined(chunks)| + 12, 12, chunks, Found(None, None));
    var data := PcmData(signal, n, coding);
    ExactFrames(n, FrameBytes(format));
    assert data[..n * FrameBytes(format)] == data;
    FramesRead(data, signal, n, format, coding, float);
  }

  /** The generator's own files, a format chunk and then a data chunk, whenever the data fits the
      32-bit sizes. */
  lemma PlainFileDecodes(
    signal: seq<seq<int>>, n: nat, rate: nat, coding: Coding, extensible: bool, maxFrames: nat,
    float: nat -> Option<real>)
    requires |signal| in {1, 2} && 0 < rate <= MAX_ASSET_RATE
    requires IsSignal(signal, n, coding) && AllFinite(signal, n, coding, float) && 0 < n <= maxFrames
    requires |PcmData(signal, n, coding)| <= 0xFFFF_FFFF - 70
    ensures
      var chunks := [Chunk(FMT, PcmFmt(|signal|, rate, coding, extensible)), Chunk(DATA, PcmData(signal, n, coding))];
      && AllFit(chunks) && |Joined(chunks)| + 4 < 0x1_0000_0000
      && Decoded(RiffFile(chunks), maxFrames, float) ==
         Success(AudioAsset(rate, |signal|, ScaledSamples(signal, n, coding, float)))
  {
    hide PcmData, PcmFmt, ScaledSamples, IsSignal, Decoded, RiffFile, ChunkBytes;
    var format, data := Chunk(FMT, PcmFmt(|signal|, rate, coding, extensible)), Chunk(DATA, PcmData(signal, n, coding));
    var chunks := [format, data];
    assert FMT != DATA by {
      assert FMT[0] != DATA[0];
    }
    assert chunks[1..] == [data] && [data][1..] == [];
    ChunkLayout(format);
    ChunkLayout(data);
    assert Joined([data]) == ChunkBytes(data);
    assert Joined(chunks) == ChunkBytes(format) + ChunkBytes(data);
    assert FirstBody(chunks[1..], DATA) == Some(data.body);
    DecodingUndoesPrinting(signal, n, rate, coding, extensible, chunks, [], maxFrames, float);
    assert RiffFile(chunks) + [] == RiffFile(chunks);
  }

  lemma ExactFrames(n: nat, size: nat)
    requires size > 0
    ensures n * size % size == 0 && n * size / size == n
  {
    var q, r := n * size / size, n * size % size;
    assert n * size == size * q + r;
    assert (n - q) * size == r;
    WholeLaps(size, n - q);
    assert size * (n - q) == r;
  }

  lemma HeaderReads(chunks: seq<Chunk>, trailing: seq<Byte>)
    requires AllFit(chunks) && |Joined(chunks)| + 4 < 0x1_0000_0000
    ensures
      var bytes := RiffFile(chunks) + trailing;
      && |bytes| == 12 + |Joined(chunks)| + |trailing|
      && HasTag(bytes, 0, RIFF) && HasTag(bytes, 8, WAVE) && U32(bytes, 4) == |Joined(chunks)| + 4
      && bytes[12..12 + |Joined(chunks)|] == Joined(chunks)
  {
    hide Joined, Put32, U32;
    var bytes := RiffFile(chunks) + trailing;
    var size := Put32(|Joined(chunks)| + 4);
    assert bytes[0..4] == RIFF && bytes[8..12] == WAVE && bytes[4..8] == size == size[0..4];
    SameWord(bytes, 4, size, 0);
  }
}
