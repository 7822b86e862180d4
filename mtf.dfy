/**
 * The frequency-response (MTF) step of the analyzer (VKR2.py, calculate_spatial_frequency_response
 * and _find_mtf_value): pick the image row with the most edge pixels, differentiate it into a
 * line-spread function, normalise its Fourier magnitude, keep the non-negative frequencies and
 * find where the curve first drops to 50 % and 10 %.
 */
module Mtf {
  import opened Wrappers
  import opened Values
  import opened Pixels

  /**
   * What `np.abs(np.fft.fft(s))` is known to return for a real signal s: one non-negative
   * magnitude per sample, with the Hermitian symmetry |X[k]| == |X[n - k]|.
   */
  ghost predicate IsMagnitude(f: seq<real> -> seq<real>) {
    forall s :: |f(s)| == |s| && NonNegative(f(s)) && Symmetric(f(s))
  }

  ghost predicate NonNegative(mag: seq<real>) {
    forall i :: 0 <= i < |mag| ==> mag[i] >= 0.0
  }

  /** |X[k]| == |X[n - k]| for 0 < k < n. */
  ghost predicate Symmetric(mag: seq<real>) {
    forall i, j :: 0 < i < |mag| && 0 < j < |mag| && i + j == |mag| ==> mag[i] == mag[j]
  }

  /** The magnitude spectrum of the zero signal: the simplest magnitude function. */
  function Silence(s: seq<real>): seq<real> {
    seq(|s|, _ => 0.0)
  }

  /** The 1-D FFT magnitude, taken as an input of the model. */
  type Magnitude = f: seq<real> -> seq<real> | IsMagnitude(f) witness Silence

  /** The number of edge pixels on one row: `np.sum(edges, axis=1)` for that row. */
  function EdgeCount(row: seq<bool>): (c: nat)
    ensures c <= |row|
    ensures c == 0 <==> forall i :: 0 <= i < |row| ==> !row[i]
    decreases |row|
  {
    if row == [] then 0
    else EdgeCount(row[..|row| - 1]) + (if row[|row| - 1] then 1 else 0)
  }

  function RowCounts(edges: seq<seq<bool>>): (cs: seq<int>)
    ensures |cs| == |edges| && forall r :: 0 <= r < |edges| ==> cs[r] == EdgeCount(edges[r])
  {
    seq(|edges|, r requires 0 <= r < |edges| => EdgeCount(edges[r]) as int)
  }

  /** `np.where(xs == v)[0][0]`: the first position holding v. */
  function FirstIndexOf(xs: seq<int>, v: int): (k: nat)
    requires v in xs
    ensures k < |xs| && xs[k] == v && forall j :: 0 <= j < k ==> xs[j] != v
    decreases |xs|
  {
    if xs[0] == v then 0 else 1 + FirstIndexOf(xs[1..], v)
  }

  /** The first position attaining the maximum. */
  function FirstMaxIndex(xs: seq<int>): (k: nat)
    requires |xs| > 0
    ensures k < |xs| && forall j :: 0 <= j < |xs| ==> xs[j] <= xs[k]
    ensures forall j :: 0 <= j < k ==> xs[j] < xs[k]
  {
    FirstIndexOf(xs, MaxOf(xs))
  }

  /** `np.diff(profile.astype(float))`: the line-spread function of an intensity profile. */
  function Lsf(profile: seq<Byte>): (lsf: seq<real>)
    ensures |lsf| == if |profile| == 0 then 0 else |profile| - 1
    ensures forall i :: 0 <= i < |lsf| ==> lsf[i] == profile[i + 1] as real - profile[i] as real
  {
    if |profile| == 0 then []
    else seq(|profile| - 1, i requires 0 <= i < |profile| - 1 => profile[i + 1] as real - profile[i] as real)
  }

  /** `np.fft.fftfreq(n)`: 0, 1, ..., (n - 1) / 2, then -(n / 2), ..., -1, all divided by n. */
  function FftFreq(n: nat): (f: seq<real>)
    requires n > 0
    ensures |f| == n
    ensures forall i :: 0 <= i < n ==> -0.5 <= f[i] < 0.5
  {
    FreqsBounded(n);
    seq(n, i requires 0 <= i < n => Freq(n, i))
  }

  /** Entry i of `fftfreq(n)`: i / n in the first half, (i - n) / n in the second. */
  function Freq(n: nat, i: nat): real
    requires i < n
  {
    (if i <= (n - 1) / 2 then i as int else i as int - n) as real / n as real
  }

  /** Every entry of `fftfreq(n)` lies in [-1/2, 1/2). */
  lemma FreqsBounded(n: nat)
    ensures forall i :: 0 <= i < n ==> -0.5 <= Freq(n, i) < 0.5
  {
    forall i | 0 <= i < n {
      FreqBound(n, i);
    }
  }

  lemma FreqBound(n: nat, i: nat)
    requires i < n
    ensures -0.5 <= Freq(n, i) < 0.5
  {
    var j := if i <= (n - 1) / 2 then i as int else i as int - n;
    assert -(n as int) <= 2 * j < n;
    var q := Freq(n, i);
    assert q * n as real == j as real;
    assert (2.0 * q + 1.0) * n as real == (2 * j + n) as real;
    assert (1.0 - 2.0 * q) * n as real == (n - 2 * j) as real;
    SignOfFactor(2.0 * q + 1.0, n as real);
    SignOfFactor(1.0 - 2.0 * q, n as real);
  }

  /** A product with a positive factor has the sign of the other factor. */
  lemma SignOfFactor(x: real, c: real)
    requires c > 0.0
    ensures x * c >= 0.0 ==> x >= 0.0
    ensures x * c > 0.0 ==> x > 0.0
  {
  }

  /** The number of non-negative bins of `fftfreq(n)`. */
  function KeptBins(n: nat): (k: nat)
    ensures n > 0 ==> 0 < k <= n && n <= 2 * k <= n + 1
  {
    (n - 1) / 2 + 1
  }

  /** Boolean-mask indexing `xs[keep]`: the entries whose mask is set, in order. */
  function Select(xs: seq<real>, keep: seq<bool>): seq<real>
    requires |xs| == |keep|
    decreases |xs|
  {
    if xs == [] then []
    else (if keep[0] then [xs[0]] else []) + Select(xs[1..], keep[1..])
  }

  /** `frequencies >= 0` as a mask. */
  function NonNegativeMask(freqs: seq<real>): (keep: seq<bool>)
    ensures |keep| == |freqs| && forall i :: 0 <= i < |freqs| ==> keep[i] == (freqs[i] >= 0.0)
  {
    seq(|freqs|, i requires 0 <= i < |freqs| => freqs[i] >= 0.0)
  }

  /** np.max over a non-empty float array. */
  function RealMax(xs: seq<real>): (m: real)
    requires |xs| > 0
    ensures (exists i :: 0 <= i < |xs| && xs[i] == m) && forall i :: 0 <= i < |xs| ==> xs[i] <= m
    decreases |xs|
  {
    if |xs| == 1 then xs[0]
    else
      var rest := RealMax(xs[..|xs| - 1]);
      if xs[|xs| - 1] > rest then xs[|xs| - 1] else rest
  }

  /** `mtf / np.max(mtf) if np.max(mtf) > 0 else mtf`. */
  function Normalize(mag: seq<real>): (r: seq<real>)
    requires |mag| > 0
    ensures |r| == |mag|
    ensures RealMax(mag) <= 0.0 ==> r == mag
  {
    var peak := RealMax(mag);
    if peak > 0.0 then seq(|mag|, i requires 0 <= i < |mag| => mag[i] / peak) else mag
  }

  /** The first index whose value is at or below the threshold, if any. */
  function FirstAtOrBelow(vals: seq<real>, threshold: real): (r: Option<nat>)
    ensures r.Some? ==> r.value < |vals| && vals[r.value] <= threshold
    ensures r.Some? ==> forall j :: 0 <= j < r.value ==> vals[j] > threshold
    ensures r.None? ==> forall j :: 0 <= j < |vals| ==> vals[j] > threshold
    decreases |vals|
  {
    if vals == [] then None
    else if vals[0] <= threshold then Some(0)
    else
      match FirstAtOrBelow(vals[1..], threshold)
      case None => None
      case Some(k) => Some(k + 1)
  }

  /**
   * _find_mtf_value: the frequency at the first index where the curve is at or below the
   * threshold, or None when there is none (an index past the end of `frequencies` raises
   * IndexError inside the try and also gives None).
   */
  function FindMtfValue(frequencies: seq<real>, mtfValues: seq<real>, threshold: real): (r: Option<real>)
    ensures r.Some? ==>
      exists k :: 0 <= k < |mtfValues| && k < |frequencies| && mtfValues[k] <= threshold &&
        r.value == frequencies[k] && forall j :: 0 <= j < k ==> mtfValues[j] > threshold
    ensures |frequencies| == |mtfValues| ==>
      (r.None? <==> forall j :: 0 <= j < |mtfValues| ==> mtfValues[j] > threshold)
  {
    match FirstAtOrBelow(mtfValues, threshold)
    case None => None
    case Some(k) => if k < |frequencies| then Some(frequencies[k]) else None
  }

  /** The curve part of an MTF record, before it is stored as numpy values. */
  datatype Curve = Curve(frequencies: seq<real>, values: seq<real>, mtf50: Option<real>, mtf10: Option<real>)

  /** Normalisation, fftfreq, the non-negative-frequency mask and the two threshold searches. */
  function CurveOf(mag: seq<real>): (c: Curve)
    requires |mag| > 0
    ensures c.mtf50.Some? ==> exists k :: 0 <= k < |c.frequencies| && c.frequencies[k] == c.mtf50.value
    ensures c.mtf10.Some? ==> exists k :: 0 <= k < |c.frequencies| && c.frequencies[k] == c.mtf10.value
  {
    var mtf := Normalize(mag);
    var freqs := FftFreq(|mtf|);
    var keep := NonNegativeMask(freqs);
    var fp := Select(freqs, keep);
    var mp := Select(mtf, keep);
    Curve(fp, mp, FindMtfValue(fp, mp, 0.5), FindMtfValue(fp, mp, 0.1))
  }

  function OptionalValue(o: Option<real>): Value {
    match o
    case None => PyNone
    case Some(x) => NpFloat(x)
  }

  /** The four fields of every `mtf` record. */
  const MtfFields: set<string> := {"frequencies", "mtf_values", "mtf_50", "mtf_10"}

  /** The `mtf` record holding a computed curve; a threshold that is never crossed is stored as None. */
  function CurveRecord(c: Curve): (r: Record)
    ensures r.Keys == MtfFields
    ensures r["mtf_50"].PyNone? <==> c.mtf50.None?
    ensures r["mtf_10"].PyNone? <==> c.mtf10.None?
  {
    map[
      "frequencies" := FloatArray(c.frequencies),
      "mtf_values" := FloatArray(c.values),
      "mtf_50" := OptionalValue(c.mtf50),
      "mtf_10" := OptionalValue(c.mtf10)
    ]
  }

  /** The basic record used when no edge is found, the LSF is empty, or the step raises. */
  function DegenerateRecord(): (r: Record)
    ensures r.Keys == MtfFields
    ensures r["mtf_50"].PyNone? && r["mtf_10"].PyNone?
  {
    map[
      "frequencies" := IntArray([0]),
      "mtf_values" := FloatArray([1.0]),
      "mtf_50" := PyNone,
      "mtf_10" := PyNone
    ]
  }

  /** The row whose profile is analysed, when some row has an edge pixel. */
  function EdgeRow(edges: seq<seq<bool>>): (r: Option<nat>)
    ensures r.Some? <==> exists i :: 0 <= i < |edges| && EdgeCount(edges[i]) > 0
    ensures r.Some? ==> r.value < |edges|
    ensures r.Some? ==> forall j :: 0 <= j < |edges| ==> EdgeCount(edges[j]) <= EdgeCount(edges[r.value])
    ensures r.Some? ==> forall j :: 0 <= j < r.value ==> EdgeCount(edges[j]) < EdgeCount(edges[r.value])
  {
    var counts := RowCounts(edges);
    if |counts| > 0 && MaxOf(counts) > 0 then Some(FirstMaxIndex(counts))
    else
      assert forall i :: 0 <= i < |edges| ==> counts[i] <= 0;
      None
  }

  /**
   * The `mtf` record for image g. `edges` is the Canny edge map, None when the detector
   * raised (the `except` branch); `fft` gives the FFT magnitude of a signal.
   */
  function MtfRecord(g: Gray, edges: Option<seq<seq<bool>>>, fft: Magnitude): (r: Record)
    requires edges.Some? ==> SameShape(edges.value, g)
    ensures r.Keys == MtfFields
  {
    match edges
    case None => DegenerateRecord()
    case Some(e) =>
      match EdgeRow(e)
      case None => DegenerateRecord()
      case Some(row) =>
        var lsf := Lsf(g[row]);
        if |lsf| > 0 then CurveRecord(CurveOf(fft(lsf))) else DegenerateRecord()
  }

  // ---------------------------------------------------------------- properties

  /** Masked indexing with a mask that holds exactly on a prefix of length m keeps that prefix. */
  lemma {:induction false} SelectPrefix(xs: seq<real>, keep: seq<bool>, m: nat)
    requires |xs| == |keep| && m <= |xs|
    requires forall i :: 0 <= i < |keep| ==> (keep[i] <==> i < m)
    ensures Select(xs, keep) == xs[..m]
    decreases |xs|
  {
    if xs != [] {
      if m == 0 {
        assert !keep[0];
        SelectPrefix(xs[1..], keep[1..], 0);
      } else {
        SelectPrefix(xs[1..], keep[1..], m - 1);
        assert xs[..m] == [xs[0]] + xs[1..][..m - 1];
      }
    }
  }

  /** The bins of `fftfreq(n)` that are non-negative are exactly the first (n - 1) / 2 + 1. */
  lemma FftFreqSign(n: nat)
    requires n > 0
    ensures KeptBins(n) <= n
    ensures forall i :: 0 <= i < n ==> (FftFreq(n)[i] >= 0.0 <==> i < KeptBins(n))
  {
    forall i | 0 <= i < n ensures FftFreq(n)[i] >= 0.0 <==> i < KeptBins(n) {
      if i <= (n - 1) / 2 {
        assert FftFreq(n)[i] == i as real / n as real;
      } else {
        assert FftFreq(n)[i] == (i - n) as real / n as real;
        assert (i - n) as real < 0.0;
      }
    }
  }

  /**
   * The kept frequencies are exactly k / n for k = 0 .. (n - 1) / 2, in order, and the kept
   * values are the normalised spectrum's first (n - 1) / 2 + 1 samples.
   */
  lemma CurveShape(mag: seq<real>)
    requires |mag| > 0
    ensures var c, n := CurveOf(mag), |mag|;
      && |c.frequencies| == KeptBins(n) && |c.values| == KeptBins(n)
      && (forall k :: 0 <= k < KeptBins(n) ==> c.frequencies[k] == k as real / n as real)
      && c.values == Normalize(mag)[..KeptBins(n)]
  {
    var n := |mag|;
    var freqs := FftFreq(n);
    FftFreqSign(n);
    var keep := NonNegativeMask(freqs);
    SelectPrefix(freqs, keep, KeptBins(n));
    SelectPrefix(Normalize(mag), keep, KeptBins(n));
  }

  /** Dividing by a positive peak maps [0, peak] into [0, 1], and only the peak to 1. */
  lemma DivideByPeak(x: real, peak: real)
    requires peak > 0.0 && 0.0 <= x <= peak
    ensures 0.0 <= x / peak <= 1.0
    ensures x / peak == 1.0 <==> x == peak
  {
    assert x / peak * peak == x;
  }

  /** With a positive peak, normalisation maps a non-negative spectrum into [0, 1] and its peak to 1. */
  lemma NormalizeRange(mag: seq<real>)
    requires |mag| > 0 && NonNegative(mag)
    ensures forall i :: 0 <= i < |mag| ==> 0.0 <= Normalize(mag)[i] <= 1.0
    ensures RealMax(mag) > 0.0 ==> forall i :: 0 <= i < |mag| ==> (Normalize(mag)[i] == 1.0 <==> mag[i] == RealMax(mag))
    ensures RealMax(mag) <= 0.0 ==> forall i :: 0 <= i < |mag| ==> Normalize(mag)[i] == 0.0
  {
    var peak := RealMax(mag);
    if peak > 0.0 {
      forall i | 0 <= i < |mag|
        ensures 0.0 <= Normalize(mag)[i] <= 1.0
        ensures Normalize(mag)[i] == 1.0 <==> mag[i] == peak
      {
        assert Normalize(mag)[i] == mag[i] / peak;
        DivideByPeak(mag[i], peak);
      }
    }
  }

  /** A peak away from the Nyquist bin, or its mirror image, is among the kept bins. */
  lemma KeptPeak(mag: seq<real>, j: nat)
    requires |mag| > 0 && NonNegative(mag) && Symmetric(mag) && RealMax(mag) > 0.0
    requires j < |mag| && mag[j] == RealMax(mag) && j != |mag| / 2
    ensures exists k :: 0 <= k < KeptBins(|mag|) && Normalize(mag)[k] == 1.0
  {
    var n, m := |mag|, KeptBins(|mag|);
    NormalizeRange(mag);
    var k := if j < m then j else n - j;
    assert 0 <= k < m;
    assert mag[k] == mag[j] by {
      if k != j {
        assert mag[j] == mag[n - j];
      }
    }
  }

  /** The kept MTF values of a non-negative spectrum lie in [0, 1]. */
  lemma CurveInUnitRange(mag: seq<real>)
    requires |mag| > 0 && NonNegative(mag)
    ensures forall k :: 0 <= k < |CurveOf(mag).values| ==> 0.0 <= CurveOf(mag).values[k] <= 1.0
  {
    NormalizeRange(mag);
    CurveShape(mag);
  }

  /**
   * When the spectrum's peak is positive, some kept MTF value is 1 unless n is even and the
   * peak sits only at the Nyquist bin n / 2, which fftfreq labels -0.5 and the mask drops.
   */
  lemma CurveReachesOne(mag: seq<real>, j: nat)
    requires |mag| > 0 && NonNegative(mag) && Symmetric(mag) && RealMax(mag) > 0.0
    requires j < |mag| && mag[j] == RealMax(mag) && (j != |mag| / 2 || |mag| % 2 == 1)
    ensures exists k :: 0 <= k < |CurveOf(mag).values| && CurveOf(mag).values[k] == 1.0
  {
    var vals := CurveOf(mag).values;
    NormalizeRange(mag);
    CurveShape(mag);
    if j != |mag| / 2 {
      KeptPeak(mag, j);
      var k :| 0 <= k < KeptBins(|mag|) && Normalize(mag)[k] == 1.0;
      assert vals[k] == 1.0;
    } else {
      // for odd n the middle bin n / 2 = (n - 1) / 2 is itself kept
      assert vals[j] == Normalize(mag)[j];
    }
  }

  /** A zero peak does not fall back: the curve stays all zero and both thresholds hit frequency 0. */
  lemma ZeroPeakCurve(mag: seq<real>)
    requires |mag| > 0 && NonNegative(mag) && RealMax(mag) <= 0.0
    ensures var c := CurveOf(mag);
      && (forall k :: 0 <= k < |c.values| ==> c.values[k] == 0.0)
      && c.mtf50 == Some(0.0) && c.mtf10 == Some(0.0)
  {
    var c := CurveOf(mag);
    CurveParts(mag);
    ZeroPeakValues(mag);
    CurveShape(mag);
    assert 0 < KeptBins(|mag|);
    assert c.frequencies[0] == 0 as real / |mag| as real;
    ZeroOver(|mag| as real);
    FirstBinCrosses(c.frequencies, c.values, 0.5);
    FirstBinCrosses(c.frequencies, c.values, 0.1);
  }

  lemma ZeroOver(d: real)
    requires d != 0.0
    ensures 0 as real / d == 0.0
  {
  }

  lemma ZeroPeakValues(mag: seq<real>)
    requires |mag| > 0 && NonNegative(mag) && RealMax(mag) <= 0.0
    ensures |CurveOf(mag).values| > 0
    ensures forall k :: 0 <= k < |CurveOf(mag).values| ==> CurveOf(mag).values[k] == 0.0
  {
    CurveShape(mag);
    var vals := CurveOf(mag).values;
    assert vals == mag[..KeptBins(|mag|)];
    forall k | 0 <= k < |vals| ensures vals[k] == 0.0 {
      assert vals[k] == mag[k] <= RealMax(mag);
    }
  }


  /** The curve's thresholds are searched on its own frequencies and values. */
  lemma CurveParts(mag: seq<real>)
    requires |mag| > 0
    ensures var c := CurveOf(mag);
      c.mtf50 == FindMtfValue(c.frequencies, c.values, 0.5) && c.mtf10 == FindMtfValue(c.frequencies, c.values, 0.1)
  {
  }

  /** A first value at or below the threshold gives the first frequency. */
  lemma FirstBinCrosses(frequencies: seq<real>, vals: seq<real>, threshold: real)
    requires |frequencies| > 0 && |vals| > 0 && vals[0] <= threshold
    ensures FindMtfValue(frequencies, vals, threshold) == Some(frequencies[0])
  {
    assert FirstAtOrBelow(vals, threshold) == Some(0);
  }

  /** Lowering the threshold can only move the first crossing later, or make it disappear. */
  lemma FirstAtOrBelowMonotone(vals: seq<real>, lower: real, higher: real)
    requires lower <= higher && FirstAtOrBelow(vals, lower).Some?
    ensures FirstAtOrBelow(vals, higher).Some?
    ensures FirstAtOrBelow(vals, higher).value <= FirstAtOrBelow(vals, lower).value
  {
    var k := FirstAtOrBelow(vals, lower).value;
    assert vals[k] <= higher;
  }

  /** A present mtf_10 implies a present mtf_50 at a frequency index no later than mtf_10's. */
  lemma Mtf10ImpliesMtf50(mag: seq<real>)
    requires |mag| > 0 && CurveOf(mag).mtf10.Some?
    ensures CurveOf(mag).mtf50.Some?
    ensures var c := CurveOf(mag);
      FirstAtOrBelow(c.values, 0.5).value <= FirstAtOrBelow(c.values, 0.1).value
  {
    CurveShape(mag);
    var c := CurveOf(mag);
    FirstAtOrBelowMonotone(c.values, 0.1, 0.5);
  }

  /** Without any edge pixel, with a one-pixel-wide image, or when the detector raises, the record is the basic one. */
  lemma DegenerateCases(g: Gray, edges: Option<seq<seq<bool>>>, fft: Magnitude)
    requires edges.Some? ==> SameShape(edges.value, g)
    requires || edges.None?
             || (forall r :: 0 <= r < |edges.value| ==> EdgeCount(edges.value[r]) == 0)
             || Width(g) == 1
    ensures MtfRecord(g, edges, fft) == DegenerateRecord()
  {
    if edges.Some? && EdgeRow(edges.value).Some? {
      var row := EdgeRow(edges.value).value;
      assert |g[row]| == Width(g);
    }
  }

  /**
   * Otherwise the record holds the curve of the first row with the most edge pixels, whose LSF
   * has width - 1 samples.
   */
  lemma ComputedCase(g: Gray, edges: seq<seq<bool>>, fft: Magnitude)
    requires SameShape(edges, g) && Width(g) >= 2
    requires exists r :: 0 <= r < |edges| && EdgeCount(edges[r]) > 0
    ensures var row := EdgeRow(edges).value;
      && |Lsf(g[row])| == Width(g) - 1
      && MtfRecord(g, Some(edges), fft) == CurveRecord(CurveOf(fft(Lsf(g[row]))))
  {
    var row := EdgeRow(edges).value;
    assert |g[row]| == Width(g);
  }
}
