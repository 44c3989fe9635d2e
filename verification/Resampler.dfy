/** Linear resampling (src/lavanda/resources/resampler.cc) in exact arithmetic. */
module Resampling {
  import opened Prelude
  import opened Signals
  import opened Ramps

  /** llround of a non-negative number: halves round up. */
  function Rounded(x: real): int {
    (x + 0.5).Floor
  }

  /** x * numerator / denominator, under a name so that proofs can keep it folded. */
  function Rescaled(x: real, numerator: real, denominator: real): real
    requires denominator > 0.0
  {
    Times(x, numerator) / denominator
  }

  function OutputFrames(inFrames: nat, sourceRate: nat, targetRate: nat): (n: nat)
    requires sourceRate > 0
    ensures n >= 1
  {
    Max(1, Rounded(Rescaled(inFrames as real, targetRate as real, sourceRate as real)))
  }

  /** Interpolation on every channel. */
  function Interpolated(a: Frame, b: Frame, fraction: real): Frame
    requires |a| == |b|
  {
    seq(|a|, c requires 0 <= c < |a| => Blend(a[c], b[c], fraction))
  }

  function Position(i: nat, sourceRate: nat, targetRate: nat): real
    requires targetRate > 0
  {
    Rescaled(i as real, sourceRate as real, targetRate as real)
  }

  /** The two source frames an output frame lies between, and how far along. */
  function Index(i: nat, sourceRate: nat, targetRate: nat): int
    requires targetRate > 0
  {
    Position(i, sourceRate, targetRate).Floor
  }

  // ---- The index never leaves the source ----------------------------------------------------------

  lemma TimesOrder(a: real, b: real, s: real)
    requires s > 0.0
    ensures a < b <==> Times(a, s) < Times(b, s)
  {
    var d := b - a;
    assert b * s == a * s + d * s;
    assert d > 0.0 ==> d * s > 0.0;
    assert d <= 0.0 ==> d * s <= 0.0;
  }

  lemma DivideAndMultiply(a: real, w: real)
    requires w > 0.0
    ensures Times(a / w, w) == a
  {
  }

  /** Rescaling back undoes the order: x below n * t / s puts x * s / t below n. */
  lemma RescaledOrder(x: real, n: real, s: real, t: real)
    requires s > 0.0 && t > 0.0 && x < Rescaled(n, t, s)
    ensures Rescaled(x, s, t) < n
  {
    hide Times;
    DivideAndMultiply(Times(n, t), s);
    TimesOrder(x, Rescaled(n, t, s), s);
    DivideAndMultiply(Times(x, s), t);
    TimesOrder(Rescaled(x, s, t), n, t);
  }

  lemma RescaledBelow(x: real, s: real, t: real)
    requires s > 0.0 && t > 0.0 && x >= 0.0
    ensures Rescaled(x, s, t) >= 0.0
    ensures x == 0.0 ==> Rescaled(x, s, t) == 0.0
  {
    var y := Times(x, s) / t;
    assert y * t == x * s >= 0.0;
    assert y < 0.0 ==> y * t < 0.0;
    assert x == 0.0 ==> x * s == 0.0;
  }

  lemma RescaledByOne(x: real, s: real)
    requires s > 0.0
    ensures Rescaled(x, s, s) == x
  {
    assert Times(x, s) == x * s;
  }

  /** Every output frame lies before the end of the source. */
  lemma FrameLiesInSource(inFrames: nat, sourceRate: nat, targetRate: nat, i: nat)
    requires inFrames > 0 && sourceRate > 0 && targetRate > 0 && i < OutputFrames(inFrames, sourceRate, targetRate)
    ensures 0.0 <= Position(i, sourceRate, targetRate) < inFrames as real
  {
    hide Rescaled, Times;
    RescaledBelow(i as real, sourceRate as real, targetRate as real);
    if i > 0 {
      var scaled := Rescaled(inFrames as real, targetRate as real, sourceRate as real);
      assert (scaled + 0.5).Floor as real <= scaled + 0.5;
      RescaledOrder(i as real, inFrames as real, sourceRate as real, targetRate as real);
    }
  }

  /** The clamp of the source index never acts, and the fraction lies in [0, 1). */
  lemma ClampIsInert(inFrames: nat, sourceRate: nat, targetRate: nat, i: nat)
    requires inFrames > 0 && sourceRate > 0 && targetRate > 0 && i < OutputFrames(inFrames, sourceRate, targetRate)
    ensures 0 <= Index(i, sourceRate, targetRate) <= inFrames - 1
    ensures 0.0 <= Position(i, sourceRate, targetRate) - Index(i, sourceRate, targetRate) as real < 1.0
  {
    hide Position, OutputFrames;
    FrameLiesInSource(inFrames, sourceRate, targetRate, i);
  }

  // ---- The output -------------------------------------------------------------------------------

  ghost predicate IsAsset(asset: AudioAsset) {
    && 0 < asset.sampleRate <= MAX_ASSET_RATE && asset.samples != [] && asset.channels > 0
    && HasWidth(asset.samples, asset.channels)
  }

  ghost function ResampledFrame(source: AudioAsset, targetRate: nat, i: nat): (frame: Frame)
    requires IsAsset(source) && targetRate > 0
    requires i < OutputFrames(|source.samples|, source.sampleRate, targetRate)
    ensures |frame| == source.channels
  {
    ClampIsInert(|source.samples|, source.sampleRate, targetRate, i);
    var index := Index(i, source.sampleRate, targetRate);
    Interpolated(source.samples[index], source.samples[Min(index + 1, |source.samples| - 1)],
                 Position(i, source.sampleRate, targetRate) - index as real)
  }

  /** So many parts as whole ones and the rest. */
  function Parts(n: nat, parts: nat): (r: (nat, nat))
    requires parts > 0
    ensures n == parts * r.0 + r.1 && r.1 < parts
  {
    (n / parts, n % parts)
  }

  /** The value on channel c of output frame i, in whole numbers: output frame i lies at i times the
      source's rate in parts of a source frame, as many parts to the frame as the target rate, and
      the two samples around it count by how near they are. */
  ghost predicate Weighs(source: AudioAsset, targetRate: nat, i: nat, c: nat, value: real)
    requires IsAsset(source) && targetRate > 0 && c < source.channels
  {
    var (whole, part) := Parts(i * source.sampleRate, targetRate);
    && whole < |source.samples|
    && value * targetRate as real ==
       source.samples[whole][c] * (targetRate - part) as real
       + source.samples[Min(whole + 1, |source.samples| - 1)][c] * part as real
  }

  lemma PositionInParts(i: nat, sourceRate: nat, targetRate: nat)
    requires targetRate > 0
    ensures
      var (whole, part) := Parts(i * sourceRate, targetRate);
      && Index(i, sourceRate, targetRate) == whole
      && (Position(i, sourceRate, targetRate) - whole as real) * targetRate as real == part as real
  {
    var (whole, part) := Parts(i * sourceRate, targetRate);
    var position, t := Position(i, sourceRate, targetRate), targetRate as real;
    ProductOfCasts(i, sourceRate);
    DivideAndMultiply(Times(i as real, sourceRate as real), t);
    assert position * t == (i * sourceRate) as real;
    ProductOfCasts(targetRate, whole);
    assert (position - whole as real) * t == part as real;
    FloorFromParts(position, whole, part, targetRate);
  }

  lemma ProductOfCasts(a: nat, b: nat)
    ensures Times(a as real, b as real) == (a * b) as real
  {
  }

  lemma FloorFromParts(position: real, whole: nat, part: nat, parts: nat)
    requires parts > 0 && part < parts && (position - whole as real) * parts as real == part as real
    ensures position.Floor == whole
  {
    var rest, t := position - whole as real, parts as real;
    assert Times(rest, t) == part as real && Times(0.0, t) == 0.0 && Times(1.0, t) == t;
    hide Times;
    TimesOrder(rest, 0.0, t);
    TimesOrder(rest, 1.0, t);
  }

  /** Every output frame weighs its neighbours so. */
  lemma FrameWeighs(source: AudioAsset, targetRate: nat, i: nat, c: nat)
    requires IsAsset(source) && targetRate > 0 && c < source.channels
    requires i < OutputFrames(|source.samples|, source.sampleRate, targetRate)
    ensures Weighs(source, targetRate, i, c, ResampledFrame(source, targetRate, i)[c])
  {
    hide Position, OutputFrames, Times;
    ClampIsInert(|source.samples|, source.sampleRate, targetRate, i);
    PositionInParts(i, source.sampleRate, targetRate);
    var index := Index(i, source.sampleRate, targetRate);
    var next := Min(index + 1, |source.samples| - 1);
    var part := Parts(i * source.sampleRate, targetRate).1;
    BlendInParts(source.samples[index][c], source.samples[next][c],
                 Position(i, source.sampleRate, targetRate) - index as real, part, targetRate);
  }

  lemma BlendInParts(a: real, b: real, t: real, part: nat, parts: nat)
    requires t * parts as real == part as real && part <= parts
    ensures Blend(a, b, t) * parts as real == a * (parts - part) as real + b * part as real
  {
    var n, p := parts as real, part as real;
    assert (parts - part) as real == n - p;
    assert ((b - a) * t) * n == (b - a) * (t * n);
    assert (b - a) * p == b * p - a * p;
    assert a * (n - p) == a * n - a * p;
  }

  /** A rate out of range and a result that is too long are refused; otherwise every output frame
      interpolates the source at its position. */
  method ResampleAsset(source: AudioAsset, targetRate: nat, maxFrames: nat) returns (r: Result<AudioAsset>)
    requires IsAsset(source)
    ensures !(0 < targetRate <= MAX_ASSET_RATE) ==> r == Failure(InvalidArgument)
    ensures 0 < targetRate <= MAX_ASSET_RATE ==>
              var n := OutputFrames(|source.samples|, source.sampleRate, targetRate);
              && (n > maxFrames ==> r == Failure(ResourceExhausted))
              && (n <= maxFrames ==>
                    && r.Success? && IsAsset(r.value)
                    && r.value.sampleRate == targetRate && r.value.channels == source.channels
                    && |r.value.samples| == n
                    && (forall i :: 0 <= i < n ==> r.value.samples[i] == ResampledFrame(source, targetRate, i))
                    && forall i, c :: 0 <= i < n && 0 <= c < source.channels ==>
                         Weighs(source, targetRate, i, c, r.value.samples[i][c]))
  {
    if targetRate == 0 || targetRate > MAX_ASSET_RATE {
      return Failure(InvalidArgument);
    }
    var outFrames := OutputFrames(|source.samples|, source.sampleRate, targetRate);
    if outFrames > maxFrames {
      return Failure(ResourceExhausted);
    }
    var last: nat := |source.samples| - 1;
    var out: Block := [];
    for i := 0 to outFrames
      invariant |out| == i
      invariant forall k :: 0 <= k < i ==> out[k] == ResampledFrame(source, targetRate, k)
    {
      hide Position, OutputFrames;
      ClampIsInert(|source.samples|, source.sampleRate, targetRate, i);
      var position := Position(i, source.sampleRate, targetRate);
      var index := position.Floor;
      if index > last {
        index := last;
      }
      var next := Min(index + 1, last);
      out := out + [Interpolated(source.samples[index], source.samples[next], position - index as real)];
    }
    forall i, c | 0 <= i < outFrames && 0 <= c < source.channels ensures Weighs(source, targetRate, i, c, out[i][c]) {
      FrameWeighs(source, targetRate, i, c);
    }
    return Success(AudioAsset(targetRate, source.channels, out));
  }

  // ---- What resampling keeps ----------------------------------------------------------------------

  /** Each output sample lies between the two source samples it interpolates: the one its position
      falls on or behind, and the next, or the last sample twice. */
  lemma LiesBetweenNeighbours(source: AudioAsset, targetRate: nat, i: nat, c: nat)
    requires IsAsset(source) && targetRate > 0 && c < source.channels
    requires i < OutputFrames(|source.samples|, source.sampleRate, targetRate)
    ensures
      var index := Index(i, source.sampleRate, targetRate);
      var next := Min(index + 1, |source.samples| - 1);
      && 0 <= index <= next < |source.samples|
      && var (a, b) := (source.samples[index][c], source.samples[next][c]);
      && (a <= b ==> a <= ResampledFrame(source, targetRate, i)[c] <= b)
      && (b <= a ==> b <= ResampledFrame(source, targetRate, i)[c] <= a)
  {
    hide Position, Blend, OutputFrames;
    ClampIsInert(|source.samples|, source.sampleRate, targetRate, i);
    var index := Index(i, source.sampleRate, targetRate);
    var next := Min(index + 1, |source.samples| - 1);
    BlendIsBetween(source.samples[index][c], source.samples[next][c],
                   Position(i, source.sampleRate, targetRate) - index as real);
  }

  /** So the range never grows. */
  lemma RangeNeverGrows(source: AudioAsset, targetRate: nat, i: nat, c: nat, low: real, high: real)
    requires IsAsset(source) && targetRate > 0 && c < source.channels
    requires i < OutputFrames(|source.samples|, source.sampleRate, targetRate)
    requires forall k :: 0 <= k < |source.samples| ==> low <= source.samples[k][c] <= high
    ensures low <= ResampledFrame(source, targetRate, i)[c] <= high
  {
    hide Index, OutputFrames, ResampledFrame;
    LiesBetweenNeighbours(source, targetRate, i, c);
  }

  /** Equal rates give the identity. */
  lemma EqualRatesAreIdentity(source: AudioAsset)
    requires IsAsset(source)
    ensures OutputFrames(|source.samples|, source.sampleRate, source.sampleRate) == |source.samples|
    ensures forall i :: 0 <= i < |source.samples| ==> ResampledFrame(source, source.sampleRate, i) == source.samples[i]
  {
    hide Rescaled;
    RescaledByOne(|source.samples| as real, source.sampleRate as real);
    assert (|source.samples| as real + 0.5).Floor == |source.samples|;
    forall i | 0 <= i < |source.samples| ensures ResampledFrame(source, source.sampleRate, i) == source.samples[i] {
      RescaledByOne(i as real, source.sampleRate as real);
      Undisturbed(source.samples[i], source.samples[Min(i + 1, |source.samples| - 1)]);
    }
  }

  lemma Undisturbed(a: Frame, b: Frame)
    requires |a| == |b|
    ensures Interpolated(a, b, 0.0) == a
  {
    forall c | 0 <= c < |a| ensures Interpolated(a, b, 0.0)[c] == a[c] {
      assert Times(b[c] - a[c], 0.0) == 0.0;
    }
  }

  /** In whole numbers: the output lasts as long as the source, to half an output frame. */
  lemma LengthInParts(inFrames: nat, sourceRate: nat, targetRate: nat)
    requires sourceRate > 0
    ensures
      var n := OutputFrames(inFrames, sourceRate, targetRate);
      if 2 * (inFrames * targetRate) >= sourceRate
      then 2 * (inFrames * targetRate) - sourceRate < 2 * (n * sourceRate) <= 2 * (inFrames * targetRate) + sourceRate
      else n == 1
  {
    hide OutputFrames, Times;
    ProductOfCasts(inFrames, targetRate);
    DivideAndMultiply(Times(inFrames as real, targetRate as real), sourceRate as real);
    LengthIsNearest(inFrames, sourceRate, targetRate);
    HalfFrames(Rescaled(inFrames as real, targetRate as real, sourceRate as real), inFrames * targetRate, sourceRate,
               OutputFrames(inFrames, sourceRate, targetRate));
  }

  lemma HalfMore(x: real, s: real)
    ensures Times(x + 0.5, s) == Times(x, s) + 0.5 * s && Times(x - 0.5, s) == Times(x, s) - 0.5 * s
    ensures Times(0.5, s) == 0.5 * s
  {
  }

  lemma HalfFrames(scaled: real, total: nat, sourceRate: nat, n: nat)
    requires sourceRate > 0 && Times(scaled, sourceRate as real) == total as real
    requires if scaled >= 0.5 then scaled - 0.5 < n as real <= scaled + 0.5 else n == 1
    ensures if 2 * total >= sourceRate then 2 * total - sourceRate < 2 * (n * sourceRate) <= 2 * total + sourceRate
            else n == 1
  {
    hide Times;
    var s := sourceRate as real;
    ProductOfCasts(n, sourceRate);
    HalfMore(scaled, s);
    TimesOrder(scaled, 0.5, s);
    TimesOrder(scaled - 0.5, n as real, s);
    TimesOrder(scaled + 0.5, n as real, s);
    InWholeNumbers(total, n * sourceRate, sourceRate);
  }

  /** Comparisons of reals that are whole, or halves. */
  lemma InWholeNumbers(total: nat, product: nat, rate: nat)
    ensures total as real < 0.5 * rate as real <==> 2 * total < rate
    ensures total as real - 0.5 * rate as real < product as real <==> 2 * total - rate < 2 * product
    ensures total as real + 0.5 * rate as real < product as real <==> 2 * total + rate < 2 * product
  {
  }

  /** The length is right to half an output frame, unless the source is shorter than that. */
  lemma LengthIsNearest(inFrames: nat, sourceRate: nat, targetRate: nat)
    requires sourceRate > 0
    ensures
      var scaled := Rescaled(inFrames as real, targetRate as real, sourceRate as real);
      var n := OutputFrames(inFrames, sourceRate, targetRate) as real;
      if scaled >= 0.5 then scaled - 0.5 < n <= scaled + 0.5 else n == 1.0
  {
    hide Rescaled;
  }
}
