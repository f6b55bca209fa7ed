/**
 * From the magnitude spectrum of one block to the eight light levels:
 * `piff` maps a frequency to a spectrum bin, eight fixed cut-points pick
 * contiguous bin slices, each slice is averaged, weighted, normalised and
 * clipped into [0, 100]. The FFT that produces the spectrum is not modelled.
 */
module Bands {
  import opened Threshold

  /** Frames read per block (a multiple of 8). */
  const Chunk: nat := 4096
  /** Band boundaries in Hz, ascending. */
  const CutPoints: seq<nat> := [0, 156, 313, 625, 1250, 2500, 5000, 10000, 15000]
  /** Per-band weights (powers of two). */
  const Weighting: seq<nat> := [2, 2, 4, 4, 8, 16, 32, 16]
  const Normalizer: real := 100000.0
  const Ceiling: real := 100.0

  /** The spectrum bin of a frequency: Python 2 integer division of
      2 * chunk * hz by the sample rate, all operands non-negative. */
  function Piff(chunk: nat, sampleRate: nat, hz: nat): (bin: nat)
    requires sampleRate > 0
    ensures bin * sampleRate <= 2 * chunk * hz < (bin + 1) * sampleRate
  {
    2 * chunk * hz / sampleRate
  }

  lemma PiffZero(chunk: nat, sampleRate: nat)
    requires sampleRate > 0
    ensures Piff(chunk, sampleRate, 0) == 0
  {
  }

  lemma MulCancelLess(a: nat, b: nat, r: nat)
    requires r > 0 && a * r < b * r
    ensures a < b
  {
  }

  /** A higher frequency never maps to a lower bin. */
  lemma PiffMonotone(chunk: nat, sampleRate: nat, lo: nat, hi: nat)
    requires sampleRate > 0 && lo <= hi
    ensures Piff(chunk, sampleRate, lo) <= Piff(chunk, sampleRate, hi)
  {
    var a, b := Piff(chunk, sampleRate, lo), Piff(chunk, sampleRate, hi);
    assert 2 * chunk * lo <= 2 * chunk * hi;
    MulCancelLess(a, b + 1, sampleRate);
  }

  /** Bin range [Low, High) of band i. */
  function Low(chunk: nat, sampleRate: nat, i: nat): nat
    requires sampleRate > 0 && i < Channels
  {
    Piff(chunk, sampleRate, CutPoints[i])
  }

  function High(chunk: nat, sampleRate: nat, i: nat): nat
    requires sampleRate > 0 && i < Channels
  {
    Piff(chunk, sampleRate, CutPoints[i + 1])
  }

  /** The eight slices start at bin 0, each is a well-formed range, each ends
      where the next begins, and a band lies wholly below every later band, so
      no bin feeds two bands. */
  lemma BandsOrderedAndDisjoint(chunk: nat, sampleRate: nat)
    requires sampleRate > 0
    ensures Low(chunk, sampleRate, 0) == 0
    ensures forall i :: 0 <= i < Channels ==> Low(chunk, sampleRate, i) <= High(chunk, sampleRate, i)
    ensures forall i :: 0 <= i < Channels - 1 ==> High(chunk, sampleRate, i) == Low(chunk, sampleRate, i + 1)
    ensures forall i, j :: 0 <= i < j < Channels ==> High(chunk, sampleRate, i) <= Low(chunk, sampleRate, j)
  {
    forall i | 0 <= i < Channels
      ensures Low(chunk, sampleRate, i) <= High(chunk, sampleRate, i)
    {
      PiffMonotone(chunk, sampleRate, CutPoints[i], CutPoints[i + 1]);
    }
    forall i, j | 0 <= i < j < Channels
      ensures High(chunk, sampleRate, i) <= Low(chunk, sampleRate, j)
    {
      assert CutPoints[i + 1] <= CutPoints[j];
      PiffMonotone(chunk, sampleRate, CutPoints[i + 1], CutPoints[j]);
    }
  }

  /** Python slice bounds clamp to the length of the spectrum. */
  function Clamp(b: nat, n: nat): (c: nat)
    ensures c <= n && (b <= n ==> c == b)
  {
    if b < n then b else n
  }

  /** The bins of band i that exist in a spectrum of n bins. */
  function SliceStart(chunk: nat, sampleRate: nat, n: nat, i: nat): nat
    requires sampleRate > 0 && i < Channels
  {
    Clamp(Low(chunk, sampleRate, i), n)
  }

  function SliceEnd(chunk: nat, sampleRate: nat, n: nat, i: nat): nat
    requires sampleRate > 0 && i < Channels
  {
    Clamp(High(chunk, sampleRate, i), n)
  }

  /** Every band slice holds at least one bin. */
  predicate NonDegenerate(chunk: nat, sampleRate: nat, n: nat)
    requires sampleRate > 0
  {
    forall i :: 0 <= i < Channels ==> SliceStart(chunk, sampleRate, n, i) < SliceEnd(chunk, sampleRate, n, i)
  }

  function Sum(s: seq<real>): real {
    if s == [] then 0.0 else Sum(s[..|s| - 1]) + s[|s| - 1]
  }

  lemma {:induction false} SumBounds(s: seq<real>, top: real)
    requires forall k :: 0 <= k < |s| ==> 0.0 <= s[k] <= top
    ensures 0.0 <= Sum(s) <= |s| as real * top
  {
    if s != [] {
      SumBounds(s[..|s| - 1], top);
    }
  }

  function Mean(s: seq<real>): real
    requires |s| > 0
  {
    Sum(s) / |s| as real
  }

  /** The mean of magnitudes in [0, top] is in [0, top]. */
  lemma MeanBounds(s: seq<real>, top: real)
    requires |s| > 0
    requires forall k :: 0 <= k < |s| ==> 0.0 <= s[k] <= top
    ensures 0.0 <= Mean(s) <= top
  {
    SumBounds(s, top);
    var n := |s| as real;
    assert Sum(s) / n <= (n * top) / n;
  }

  /** The mean magnitude of each band's slice of the spectrum. */
  function BandMeans(power: seq<real>, chunk: nat, sampleRate: nat): (means: seq<real>)
    requires sampleRate > 0 && NonDegenerate(chunk, sampleRate, |power|)
    ensures |means| == Channels
  {
    BandsOrderedAndDisjoint(chunk, sampleRate);
    seq(Channels, i requires 0 <= i < Channels =>
      Mean(power[SliceStart(chunk, sampleRate, |power|, i)..SliceEnd(chunk, sampleRate, |power|, i)]))
  }

  /** A spectrum bounded by top gives band means bounded by top; in
      particular a silent block (all-zero spectrum) gives all-zero means. */
  lemma BandMeansBounded(power: seq<real>, chunk: nat, sampleRate: nat, top: real)
    requires sampleRate > 0 && NonDegenerate(chunk, sampleRate, |power|)
    requires forall k :: 0 <= k < |power| ==> 0.0 <= power[k] <= top
    ensures forall i :: 0 <= i < Channels ==> 0.0 <= BandMeans(power, chunk, sampleRate)[i] <= top
  {
    forall i | 0 <= i < Channels
      ensures 0.0 <= BandMeans(power, chunk, sampleRate)[i] <= top
    {
      var s := power[SliceStart(chunk, sampleRate, |power|, i)..SliceEnd(chunk, sampleRate, |power|, i)];
      MeanBounds(s, top);
    }
  }

  /** numpy clip(0, 100). */
  function Clip(x: real): (y: real)
    ensures 0.0 <= y <= Ceiling
    ensures 0.0 <= x <= Ceiling ==> y == x
    ensures x < 0.0 ==> y == 0.0
    ensures x > Ceiling ==> y == Ceiling
  {
    if x < 0.0 then 0.0 else if x > Ceiling then Ceiling else x
  }

  /** Band means to light levels: weight, divide by 100000, clip. */
  function Levels(means: seq<real>): (levels: seq<real>)
    requires |means| == Channels
    ensures |levels| == Channels
    ensures forall i :: 0 <= i < Channels ==> 0.0 <= levels[i] <= Ceiling
  {
    seq(Channels, i requires 0 <= i < Channels => Clip(Weighting[i] as real * means[i] / Normalizer))
  }

  /** Below saturation a level is exactly weight × mean / 100000; a mean large
      enough saturates the level at 100; a non-positive mean gives 0. */
  lemma LevelValue(means: seq<real>, i: nat)
    requires |means| == Channels && i < Channels
    ensures var w := Weighting[i] as real;
      && (0.0 <= means[i] && w * means[i] <= Ceiling * Normalizer ==> Levels(means)[i] == w * means[i] / Normalizer)
      && (w * means[i] >= Ceiling * Normalizer ==> Levels(means)[i] == Ceiling)
      && (means[i] <= 0.0 ==> Levels(means)[i] == 0.0)
  {
    var w := Weighting[i] as real;
    assert w > 0.0;
    if means[i] <= 0.0 {
      assert w * means[i] <= 0.0;
    }
  }

  /** A louder band never gets a lower level. */
  lemma LevelsMonotone(a: seq<real>, b: seq<real>, i: nat)
    requires |a| == Channels && |b| == Channels && i < Channels && a[i] <= b[i]
    ensures Levels(a)[i] <= Levels(b)[i]
  {
    var w := Weighting[i] as real;
    assert w > 0.0;
    assert w * a[i] <= w * b[i];
  }

  /** A silent block (all-zero band means) gives all-zero levels. */
  lemma SilentLevels(means: seq<real>)
    requires |means| == Channels
    requires forall i :: 0 <= i < Channels ==> means[i] == 0.0
    ensures forall i :: 0 <= i < Channels ==> Levels(means)[i] == 0.0
  {
  }

  /** calculate_levels after the FFT: band means of the magnitude spectrum,
      then weighting, normalising and clipping. */
  function CalculateLevels(power: seq<real>, chunk: nat, sampleRate: nat): (levels: seq<real>)
    requires sampleRate > 0 && NonDegenerate(chunk, sampleRate, |power|)
    ensures |levels| == Channels
    ensures forall i :: 0 <= i < Channels ==> 0.0 <= levels[i] <= Ceiling
  {
    Levels(BandMeans(power, chunk, sampleRate))
  }

  /** A silent block (all-zero spectrum) gives all-zero levels. */
  lemma SilentBlockDark(power: seq<real>, chunk: nat, sampleRate: nat)
    requires sampleRate > 0 && NonDegenerate(chunk, sampleRate, |power|)
    requires forall k :: 0 <= k < |power| ==> power[k] == 0.0
    ensures forall i :: 0 <= i < Channels ==> CalculateLevels(power, chunk, sampleRate)[i] == 0.0
  {
    BandMeansBounded(power, chunk, sampleRate, 0.0);
    SilentLevels(BandMeans(power, chunk, sampleRate));
  }
}
