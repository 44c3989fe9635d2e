/** Decoding WAV files (src/lavanda/resources/decoders/wav_decoder.cc). RIFF chunks are those of IBM
    and Microsoft, Multimedia Programming Interface and Data Specifications 1.0, chapters 2 and 3.
    A float sample's value is a parameter: None stands for a non-finite one. */
module WavDecoding {
  import opened Prelude
  import opened Signals
  import opened Blocks

  type Byte = b: int | 0 <= b < 256

  const RIFF: seq<Byte> := [0x52, 0x49, 0x46, 0x46]
  const WAVE: seq<Byte> := [0x57, 0x41, 0x56, 0x45]
  const FMT: seq<Byte> := [0x66, 0x6D, 0x74, 0x20]
  const DATA: seq<Byte> := [0x64, 0x61, 0x74, 0x61]

  const TAG_PCM: nat := 0x0001
  const TAG_FLOAT: nat := 0x0003
  const TAG_EXTENSIBLE: nat := 0xFFFE
  const MAX_ASSET_CHANNELS: nat := 2

  // ---- Reading bytes ------------------------------------------------------------------------------

  function ByteAt(bytes: seq<Byte>, p: nat): (n: int)
    requires p < |bytes|
    ensures 0 <= n < 256
  {
    bytes[p]
  }

  function U16(bytes: seq<Byte>, p: nat): (n: nat)
    requires p + 2 <= |bytes|
    ensures n < 0x1_0000
  {
    ByteAt(bytes, p) + 0x100 * ByteAt(bytes, p + 1)
  }

  function U24(bytes: seq<Byte>, p: nat): (n: nat)
    requires p + 3 <= |bytes|
    ensures n < 0x100_0000
  {
    ByteAt(bytes, p) + 0x100 * ByteAt(bytes, p + 1) + 0x1_0000 * ByteAt(bytes, p + 2)
  }

  function U32(bytes: seq<Byte>, p: nat): (n: nat)
    requires p + 4 <= |bytes|
    ensures n < 0x1_0000_0000
  {
    ByteAt(bytes, p) + 0x100 * ByteAt(bytes, p + 1) + 0x1_0000 * ByteAt(bytes, p + 2) + 0x100_0000 * ByteAt(bytes, p + 3)
  }

  predicate HasTag(bytes: seq<Byte>, p: nat, tag: seq<Byte>)
    requires p + 4 <= |bytes|
  {
    bytes[p..p + 4] == tag
  }

  /** Two's complement: a value of the upper half stands for a negative number. */
  function Signed(n: nat, range: nat): int {
    if 2 * n >= range then n - range else n
  }

  datatype WavFormat = WavFormat(tag: nat, channels: nat, rate: nat, blockAlign: nat, bits: nat)

  function ParseFmt(body: seq<Byte>): Result<WavFormat> {
    if |body| < 16 then Failure(InvalidArgument)
    else
      var format := WavFormat(U16(body, 0), U16(body, 2), U32(body, 4), U16(body, 12), U16(body, 14));
      if format.tag != TAG_EXTENSIBLE then Success(format)
      else if |body| < 40 then Failure(InvalidArgument)
      else Success(format.(tag := U16(body, 24)))
  }

  predicate Supported(format: WavFormat) {
    || (format.tag == TAG_PCM && format.bits in {8, 16, 24, 32})
    || (format.tag == TAG_FLOAT && format.bits == 32)
  }

  function ReadSample(bytes: seq<Byte>, p: nat, format: WavFormat, float: nat -> Option<real>): Option<real>
    requires Supported(format) && p + format.bits / 8 <= |bytes|
  {
    if format.tag == TAG_FLOAT then float(U32(bytes, p))
    else match format.bits
      case 8 => Some((ByteAt(bytes, p) as real - 128.0) / 128.0)
      case 16 => Some(Signed(U16(bytes, p), 0x1_0000) as real / 32768.0)
      case 24 =>
        Some(Signed(U24(bytes, p), 0x100_0000) as real / 8388608.0)
      case _ => Some(Signed(U32(bytes, p), 0x1_0000_0000) as real / 2147483648.0)
  }

  // ---- The chunk walk -----------------------------------------------------------------------------

  /** What the walk has found: the first format and the body of the first data chunk. */
  datatype Found = Found(format: Option<WavFormat>, data: Option<seq<Byte>>)

  /** What one chunk adds to it. */
  function Noticed(found: Found, id: seq<Byte>, body: seq<Byte>): Result<Found> {
    if id == FMT then
      if found.format.Some? then Success(found)
      else match ParseFmt(body)
        case Failure(status) => Failure(status)
        case Success(format) => Success(found.(format := Some(format)))
    else if id == DATA && found.data.None? then Success(found.(data := Some(body)))
    else Success(found)
  }

  /** The walk from a position to the end of the RIFF body. */
  function Walked(bytes: seq<Byte>, end: nat, pos: nat, found: Found): Result<Found>
    requires end <= |bytes|
    decreases end - pos
  {
    if pos + 8 > end then Success(found)
    else
      var size, body := U32(bytes, pos + 4), pos + 8;
      if size > end - body then Failure(InvalidArgument)
      else match Noticed(found, bytes[pos..pos + 4], bytes[body..body + size])
        case Failure(status) => Failure(status)
        case Success(next) => Walked(bytes, end, body + size + size % 2, next)
  }

  lemma WalkStep(bytes: seq<Byte>, end: nat, pos: nat, found: Found)
    requires end <= |bytes|
    ensures pos + 8 > end ==> Walked(bytes, end, pos, found) == Success(found)
    ensures pos + 8 <= end ==>
              var size, body := U32(bytes, pos + 4), pos + 8;
              Walked(bytes, end, pos, found) ==
              if size > end - body then Failure(InvalidArgument)
              else match Noticed(found, bytes[pos..pos + 4], bytes[body..body + size])
                case Failure(status) => Failure(status)
                case Success(next) => Walked(bytes, end, body + size + size % 2, next)
  {
  }

  // ---- The samples --------------------------------------------------------------------------------

  /** The first c samples of the frame at a position. */
  function ReadFrame(bytes: seq<Byte>, p: nat, c: nat, format: WavFormat, float: nat -> Option<real>): (r: Option<Frame>)
    requires Supported(format) && p + c * (format.bits / 8) <= |bytes|
    ensures r.Some? ==> |r.value| == c
  {
    if c == 0 then Some([])
    else match ReadFrame(bytes, p, c - 1, format, float)
      case None => None
      case Some(rest) =>
        match ReadSample(bytes, p + (c - 1) * (format.bits / 8), format, float)
        case None => None
        case Some(sample) => Some(rest + [sample])
  }

  function ReadFrames(bytes: seq<Byte>, n: nat, format: WavFormat, float: nat -> Option<real>): (r: Option<Block>)
    requires Supported(format) && n * FrameBytes(format) <= |bytes|
    ensures r.Some? ==> |r.value| == n && HasWidth(r.value, format.channels)
  {
    if n == 0 then Some([])
    else
      OneFrameLess(n, FrameBytes(format));
      match ReadFrames(bytes, n - 1, format, float)
      case None => None
      case Some(rest) =>
        match ReadFrame(bytes, (n - 1) * FrameBytes(format), format.channels, format, float)
        case None => None
        case Some(frame) => Some(rest + [frame])
  }

  function FrameBytes(format: WavFormat): nat {
    format.channels * (format.bits / 8)
  }

  lemma OneFrameLess(n: nat, size: nat)
    ensures n > 0 ==> (n - 1) * size + size == n * size
  {
  }

  /** Everything after the walk: the checks in the order the decoder makes them, then the samples. */
  function Interpreted(found: Found, maxFrames: nat, float: nat -> Option<real>): Result<AudioAsset> {
    if found.format.None? || found.data.None? then Failure(InvalidArgument)
    else
      var f, data := found.format.value, found.data.value;
      if f.channels == 0 then Failure(InvalidArgument)
      else if f.channels > MAX_ASSET_CHANNELS then Failure(UnsupportedFormat)
      else if f.rate == 0 || f.rate > MAX_ASSET_RATE then Failure(InvalidArgument)
      else if !Supported(f) then Failure(UnsupportedFormat)
      else
        FrameBytesPositive(f);
        WholeFrames(|data|, FrameBytes(f));
        if f.blockAlign != FrameBytes(f) then Failure(InvalidArgument)
        else if |data| % FrameBytes(f) != 0 || |data| / FrameBytes(f) == 0 then Failure(InvalidArgument)
        else if |data| / FrameBytes(f) > maxFrames then Failure(ResourceExhausted)
        else match ReadFrames(data, |data| / FrameBytes(f), f, float)
          case None => Failure(InvalidArgument)
          case Some(samples) => Success(AudioAsset(f.rate, f.channels, samples))
  }

  function Decoded(bytes: seq<Byte>, maxFrames: nat, float: nat -> Option<real>): Result<AudioAsset> {
    if |bytes| < 12 || !HasTag(bytes, 0, RIFF) || !HasTag(bytes, 8, WAVE) then Failure(UnsupportedFormat)
    else
      var riffSize := U32(bytes, 4);
      if riffSize > |bytes| - 8 || riffSize < 4 then Failure(InvalidArgument)
      else match Walked(bytes, riffSize + 8, 12, Found(None, None))
        case Failure(status) => Failure(status)
        case Success(found) => Interpreted(found, maxFrames, float)
  }

  // ---- The decoder ------------------------------------------------------------------------------

  /** The chunk loop: on any bytes it ends, and it never looks outside the RIFF body. */
  method WalkChunks(bytes: seq<Byte>, end: nat) returns (r: Result<(Option<WavFormat>, Option<(nat, nat)>)>)
    requires 12 <= end <= |bytes|
    ensures r.Failure? <==> Walked(bytes, end, 12, Found(None, None)).Failure?
    ensures r.Failure? ==> Walked(bytes, end, 12, Found(None, None)) == Failure(r.status)
    ensures r.Success? ==> r.value.1.Some? ==> r.value.1.value.0 + r.value.1.value.1 <= end
    ensures r.Success? ==>
              Walked(bytes, end, 12, Found(None, None)) == Success(Found(r.value.0, BodyAt(bytes, r.value.1)))
  {
    hide Walked, ParseFmt, U32;
    var format: Option<WavFormat> := None;
    var data: Option<(nat, nat)> := None;
    var pos: nat := 12;
    while pos + 8 <= end
      invariant data.Some? ==> data.value.0 + data.value.1 <= end
      invariant Walked(bytes, end, 12, Found(None, None)) == Walked(bytes, end, pos, Found(format, BodyAt(bytes, data)))
      decreases end - pos
    {
      WalkStep(bytes, end, pos, Found(format, BodyAt(bytes, data)));
      var chunkSize := U32(bytes, pos + 4);
      var bodyPos := pos + 8;
      if chunkSize > end - bodyPos {
        return Failure(InvalidArgument);
      }
      if HasTag(bytes, pos, FMT) {
        if format.None? {
          var parsed := ParseFmt(bytes[bodyPos..bodyPos + chunkSize]);
          if parsed.Failure? {
            return Failure(parsed.status);
          }
          format := Some(parsed.value);
        }
      } else if HasTag(bytes, pos, DATA) {
        if data.None? {
          data := Some((bodyPos, chunkSize));
        }
      }
      pos := bodyPos + chunkSize + chunkSize % 2;
    }
    WalkStep(bytes, end, pos, Found(format, BodyAt(bytes, data)));
    return Success((format, data));
  }

  function BodyAt(bytes: seq<Byte>, data: Option<(nat, nat)>): Option<seq<Byte>> {
    if data.Some? && data.value.0 + data.value.1 <= |bytes|
    then Some(bytes[data.value.0..data.value.0 + data.value.1]) else None
  }

  /** The sample loop, over a pointer that moves sample by sample. */
  method ReadAll(data: seq<Byte>, frames: nat, format: WavFormat, float: nat -> Option<real>) returns (r: Option<Block>)
    requires Supported(format) && frames * FrameBytes(format) <= |data|
    ensures r == ReadFrames(data, frames, format, float)
  {
    hide FrameBytes, ReadFrame;
    var samples: Block := [];
    var src: nat := 0;
    for frame := 0 to frames
      invariant src == frame * FrameBytes(format) <= |data|
      invariant Some(samples) == ReadFrames(data, frame, format, float)
    {
      OneFrameLess(frame + 1, FrameBytes(format));
      FramesFit(frame + 1, frames, FrameBytes(format));
      var one := ReadOne(data, src, format, float);
      if one.None? {
        FailureStays(data, frame + 1, frames, format, float);
        return None;
      }
      samples := samples + [one.value];
      src := src + FrameBytes(format);
    }
    return Some(samples);
  }

  method ReadOne(data: seq<Byte>, start: nat, format: WavFormat, float: nat -> Option<real>) returns (r: Option<Frame>)
    requires Supported(format) && start + FrameBytes(format) <= |data|
    ensures r == ReadFrame(data, start, format.channels, format, float)
  {
    var bytesPerSample := format.bits / 8;
    var samples: Frame := [];
    var src := start;
    for channel := 0 to format.channels
      invariant src == start + channel * bytesPerSample <= |data|
      invariant Some(samples) == ReadFrame(data, start, channel, format, float)
    {
      OneFrameLess(channel + 1, bytesPerSample);
      FramesFit(channel + 1, format.channels, bytesPerSample);
      var value := ReadSample(data, src, format, float);
      if value.None? {
        FrameFailureStays(data, start, channel + 1, format.channels, format, float);
        return None;
      }
      samples := samples + [value.value];
      src := src + bytesPerSample;
    }
    return Some(samples);
  }

  lemma FramesFit(n: nat, most: nat, size: nat)
    requires n <= most
    ensures n * size <= most * size
  {
  }

  lemma {:induction false} FailureStays(data: seq<Byte>, n: nat, most: nat, format: WavFormat, float: nat -> Option<real>)
    requires Supported(format) && n <= most && n * FrameBytes(format) <= |data| && most * FrameBytes(format) <= |data|
    requires ReadFrames(data, n, format, float).None?
    ensures ReadFrames(data, most, format, float).None?
    decreases most
  {
    if n < most {
      OneFrameLess(most, FrameBytes(format));
      FailureStays(data, n, most - 1, format, float);
    }
  }

  lemma {:induction false} FrameFailureStays(
    data: seq<Byte>, p: nat, c: nat, most: nat, format: WavFormat, float: nat -> Option<real>)
    requires Supported(format) && c <= most
    requires p + c * (format.bits / 8) <= |data| && p + most * (format.bits / 8) <= |data|
    requires ReadFrame(data, p, c, format, float).None?
    ensures ReadFrame(data, p, most, format, float).None?
    decreases most
  {
    if c < most {
      OneFrameLess(most, format.bits / 8);
      FrameFailureStays(data, p, c, most - 1, format, float);
    }
  }

  ghost predicate IsUsableAsset(asset: AudioAsset, maxFrames: nat) {
    && 0 < asset.channels <= 2 && 0 < asset.sampleRate <= MAX_ASSET_RATE
    && 0 < |asset.samples| <= maxFrames && HasWidth(asset.samples, asset.channels)
  }

  method DecodeWav(bytes: seq<Byte>, maxFrames: nat, float: nat -> Option<real>) returns (r: Result<AudioAsset>)
    ensures r == Decoded(bytes, maxFrames, float)
    ensures |bytes| < 12 || bytes[..4] != RIFF || bytes[8..12] != WAVE ==> r == Failure(UnsupportedFormat)
    ensures |bytes| >= 12 && bytes[..4] == RIFF && bytes[8..12] == WAVE ==>
              !(4 <= U32(bytes, 4) <= |bytes| - 8) ==> r == Failure(InvalidArgument)
    ensures r.Success? ==> IsUsableAsset(r.value, maxFrames)
  {
    hide Interpreted, Walked, U32;
    if |bytes| < 12 || !HasTag(bytes, 0, RIFF) || !HasTag(bytes, 8, WAVE) {
      return Failure(UnsupportedFormat);
    }
    var riffSize := U32(bytes, 4);
    if riffSize > |bytes| - 8 {
      return Failure(InvalidArgument);
    }
    if riffSize < 4 {
      return Failure(InvalidArgument);
    }
    var walked := WalkChunks(bytes, riffSize + 8);
    if walked.Failure? {
      return Failure(walked.status);
    }
    var (format, data) := walked.value;
    Incomplete(Found(format, BodyAt(bytes, data)), maxFrames, float);
    if format.None? {
      return Failure(InvalidArgument);
    }
    if data.None? {
      return Failure(InvalidArgument);
    }
    var (start, dataSize) := data.value;
    r := DecodeSamples(format.value, bytes[start..start + dataSize], maxFrames, float);
  }

  lemma Incomplete(found: Found, maxFrames: nat, float: nat -> Option<real>)
    ensures found.format.None? || found.data.None? ==> Interpreted(found, maxFrames, float) == Failure(InvalidArgument)
  {
  }

  /** Whole numbers of eight to thirty-two bits, and floats of thirty-two. */
  predicate IsKnownCoding(f: WavFormat) {
    match f.tag
    case 1 => f.bits == 8 || f.bits == 16 || f.bits == 24 || f.bits == 32
    case 3 => f.bits == 32
    case _ => false
  }

  /** One or two channels, a rate in range, a known coding, and frames without padding. */
  predicate IsUsable(f: WavFormat) {
    && 0 < f.channels <= 2 && 0 < f.rate <= MAX_ASSET_RATE && IsKnownCoding(f)
    && f.blockAlign == f.channels * (f.bits / 8) > 0
  }

  lemma KnownCodingsAreSupported(f: WavFormat)
    ensures Supported(f) <==> IsKnownCoding(f)
    ensures FrameBytes(f) == f.channels * (f.bits / 8)
  {
  }

  method DecodeSamples(f: WavFormat, data: seq<Byte>, maxFrames: nat, float: nat -> Option<real>)
    returns (r: Result<AudioAsset>)
    ensures r == Interpreted(Found(Some(f), Some(data)), maxFrames, float)
    ensures r == Failure(UnsupportedFormat) <==>
            f.channels > 2 || (0 < f.channels && 0 < f.rate <= MAX_ASSET_RATE && !IsKnownCoding(f))
    ensures r == Failure(ResourceExhausted) <==>
            IsUsable(f) && |data| % f.blockAlign == 0 && |data| / f.blockAlign > maxFrames && |data| > 0
    ensures r.Success? ==>
              && IsUsable(f) && |data| % f.blockAlign == 0 && 0 < |data| / f.blockAlign <= maxFrames
              && r.value.sampleRate == f.rate && r.value.channels == f.channels
              && |r.value.samples| == |data| / f.blockAlign && HasWidth(r.value.samples, f.channels)
    ensures r.Failure? ==> r.status in {UnsupportedFormat, ResourceExhausted, InvalidArgument}
  {
    hide ReadFrames, FrameBytes, Supported, IsKnownCoding;
    KnownCodingsAreSupported(f);
    if f.channels == 0 {
      return Failure(InvalidArgument);
    }
    if f.channels > MAX_ASSET_CHANNELS {
      return Failure(UnsupportedFormat);
    }
    if f.rate == 0 || f.rate > MAX_ASSET_RATE {
      return Failure(InvalidArgument);
    }
    if !Supported(f) {
      return Failure(UnsupportedFormat);
    }
    var frameBytes := FrameBytes(f);
    if f.blockAlign != frameBytes {
      return Failure(InvalidArgument);
    }
    FrameBytesPositive(f);
    if |data| % frameBytes != 0 {
      return Failure(InvalidArgument);
    }
    var frames := |data| / frameBytes;
    if frames == 0 {
      return Failure(InvalidArgument);
    }
    if frames > maxFrames {
      return Failure(ResourceExhausted);
    }
    WholeFrames(|data|, frameBytes);
    var samples := ReadAll(data, frames, f, float);
    if samples.None? {
      return Failure(InvalidArgument);
    }
    return Success(AudioAsset(f.rate, f.channels, samples.value));
  }

  lemma FrameBytesPositive(f: WavFormat)
    requires f.channels > 0 && Supported(f)
    ensures FrameBytes(f) > 0
  {
  }

  lemma WholeFrames(size: nat, frameBytes: nat)
    requires frameBytes > 0
    ensures size / frameBytes * frameBytes <= size
  {
  }
}
