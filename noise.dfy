/**
 * Noise parameters: the residual left by a 5 x 5 median filter, its spread and mean, and the
 * signal-to-noise ratio in decibels with its sentinel value for a noiseless image.
 */
module Noise {
  import opened Wrappers
  import opened Values
  import opened Pixels

  /** The value reported in place of an infinite signal-to-noise ratio. */
  const Sentinel: real := 999.0

  /** The residual `gray - median` in floating point, entry by entry. */
  function Residual(g: Gray, median: seq<seq<Byte>>): (n: seq<seq<real>>)
    requires SameShape(median, g)
    ensures |n| == Height(g) && forall r :: 0 <= r < |n| ==> |n[r]| == Width(g)
    ensures forall r, c :: 0 <= r < Height(g) && 0 <= c < Width(g) ==>
      n[r][c] == (g[r][c] as int - median[r][c] as int) as real
  {
    seq(Height(g), r requires 0 <= r < Height(g) =>
      seq(Width(g), c requires 0 <= c < Width(g) => (g[r][c] as int - median[r][c] as int) as real))
  }

  /** The residual's entries in row-major order. */
  function ResidualValues(g: Gray, median: seq<seq<Byte>>): (xs: seq<real>)
    requires SameShape(median, g)
    ensures |xs| == Height(g) * Width(g) && |xs| > 0
  {
    FlattenLength(Residual(g, median), Width(g));
    Flatten(Residual(g, median))
  }

  /** `np.mean(gray.astype(float) ** 2)`: the mean squared intensity in floating point, never negative. */
  function SignalPower(g: Gray): (p: real)
    ensures p >= 0.0
  {
    SquaresMeanNonNegative(AsReals(PixelsOf(g)));
    Mean(Squares(AsReals(PixelsOf(g))))
  }

  /**
   * `np.mean(noise ** 2)`: the mean squared residual. It is never negative, and it is zero
   * exactly when the median filter leaves the image unchanged.
   */
  function NoisePower(g: Gray, median: seq<seq<Byte>>): (p: real)
    requires SameShape(median, g)
    ensures p >= 0.0
    ensures p == 0.0 <==> median == g
  {
    var xs := ResidualValues(g, median);
    SquaresMeanNonNegative(xs);
    SquaresMeanZero(xs);
    ResidualZero(g, median);
    Mean(Squares(xs))
  }

  /** A signal-to-noise ratio in decibels as an IEEE double: finite or infinite. */
  datatype Decibels = Finite(db: real) | PosInfinity | NegInfinity

  /**
   * `10 * log10(signal / noise)` when the noise power is positive, +inf otherwise. A zero
   * signal makes log10 return -inf. `log10` stands for numpy's log10 on positive arguments.
   */
  function Snr(signalPower: real, noisePower: real, log10: real -> real): (s: Decibels)
    requires signalPower >= 0.0 && noisePower >= 0.0
    ensures s.Finite? <==> noisePower > 0.0 && signalPower > 0.0
    ensures s.PosInfinity? <==> noisePower == 0.0
    ensures s.Finite? ==> s.db == 10.0 * log10(signalPower / noisePower)
  {
    if noisePower > 0.0 then
      var ratio := signalPower / noisePower;
      if ratio > 0.0 then Finite(10.0 * log10(ratio)) else NegInfinity
    else PosInfinity
  }

  /** `float(snr) if not np.isinf(snr) else 999.0`. */
  function ReportedSnr(s: Decibels): (db: real)
    ensures !s.Finite? ==> db == Sentinel
    ensures s.Finite? ==> db == s.db
  {
    if s.Finite? then s.db else Sentinel
  }

  /** The four fields of every `noise` record. */
  const NoiseFields: set<string> := {"noise_std", "noise_mean", "snr_db", "noise_image"}

  /**
   * The `noise` record of image g. `median` is `cv2.medianBlur(g, 5)`, None when the filter
   * raised; `sqrt` and `log10` stand for numpy's functions.
   */
  function NoiseRecord(g: Gray, median: Option<seq<seq<Byte>>>, sqrt: real -> real, log10: real -> real): (r: Record)
    requires median.Some? ==> SameShape(median.value, g)
    ensures r.Keys == NoiseFields
    ensures r["noise_image"].NdArray?
  {
    match median
    case None => FallbackRecord(g)
    case Some(md) =>
      var xs := ResidualValues(g, md);
      map[
        "noise_std" := PyFloat(sqrt(Variance(xs))),
        "noise_mean" := PyFloat(Mean(xs)),
        "snr_db" := PyFloat(ReportedSnr(Snr(SignalPower(g), NoisePower(g, md), log10))),
        "noise_image" := FloatMatrix(Residual(g, md))
      ]
  }

  /** The record written when the analysis raises: no noise, the sentinel SNR, a uint8 zero image. */
  function FallbackRecord(g: Gray): (r: Record)
    ensures r.Keys == NoiseFields
    ensures r["snr_db"] == PyFloat(Sentinel)
  {
    map[
      "noise_std" := PyFloat(0.0),
      "noise_mean" := PyFloat(0.0),
      "snr_db" := PyFloat(Sentinel),
      "noise_image" := IntMatrix(seq(Height(g), _ => seq(Width(g), _ => 0)))
    ]
  }

  // ---------------------------------------------------------------- properties

  lemma SquaresMeanNonNegative(xs: seq<real>)
    requires |xs| > 0
    ensures Mean(Squares(xs)) >= 0.0
  {
    var ss := Squares(xs);
    forall i | 0 <= i < |ss| ensures ss[i] >= 0.0 {
      SquareNonNegative(xs[i], ss[i]);
    }
    SumAtLeastEach(ss);
  }

  /** A mean of squares is zero exactly when every entry is zero. */
  lemma SquaresMeanZero(xs: seq<real>)
    requires |xs| > 0
    ensures Mean(Squares(xs)) == 0.0 <==> forall i :: 0 <= i < |xs| ==> xs[i] == 0.0
  {
    var ss := Squares(xs);
    forall i | 0 <= i < |ss| ensures ss[i] >= 0.0 {
      SquareNonNegative(xs[i], ss[i]);
    }
    SumAtLeastEach(ss);
    if i :| 0 <= i < |xs| && xs[i] != 0.0 {
      NonZeroSquare(xs[i], ss[i]);
      assert Sum(ss) > 0.0;
      assert Mean(ss) > 0.0;
    } else {
      SumConstant(ss, 0.0);
    }
  }

  /** The square s of a non-zero x is positive. */
  lemma NonZeroSquare(x: real, s: real)
    requires x != 0.0 && s == x * x
    ensures s > 0.0
  {
    if x > 0.0 {
      PositiveProduct(x, x, s);
    } else {
      PositiveProduct(-x, -x, s);
    }
  }

  lemma PositiveProduct(a: real, b: real, p: real)
    requires a > 0.0 && b > 0.0 && p == a * b
    ensures p > 0.0
  {
  }

  /** The residual is zero everywhere exactly when the filter left the image unchanged. */
  lemma ResidualZero(g: Gray, median: seq<seq<Byte>>)
    requires SameShape(median, g)
    ensures (forall i :: 0 <= i < |ResidualValues(g, median)| ==> ResidualValues(g, median)[i] == 0.0)
      <==> median == g
  {
    var n := Residual(g, median);
    var xs := ResidualValues(g, median);
    var w := Width(g);
    if forall i :: 0 <= i < |xs| ==> xs[i] == 0.0 {
      forall r | 0 <= r < Height(g) ensures median[r] == g[r] {
        forall c | 0 <= c < w ensures median[r][c] == g[r][c] {
          FlattenIndex(n, w, r, c);
        }
      }
    }
    if median == g {
      forall i | 0 <= i < |xs| ensures xs[i] == 0.0 {
        FlattenMembers(n, xs[i]);
        var r :| 0 <= r < |n| && xs[i] in n[r];
        var c :| 0 <= c < w && n[r][c] == xs[i];
      }
    }
  }

  /**
   * `snr_db` is 999.0 whenever the noise power is not positive (which is exactly when the filter
   * leaves the image unchanged), and 10 log10(signal / noise) when both powers are positive.
   */
  lemma SnrSentinel(g: Gray, median: seq<seq<Byte>>, sqrt: real -> real, log10: real -> real)
    requires SameShape(median, g)
    ensures !(NoisePower(g, median) > 0.0) ==> NoiseRecord(g, Some(median), sqrt, log10)["snr_db"] == PyFloat(999.0)
    ensures median == g ==> NoiseRecord(g, Some(median), sqrt, log10)["snr_db"] == PyFloat(999.0)
    ensures NoisePower(g, median) > 0.0 && SignalPower(g) > 0.0 ==>
      NoiseRecord(g, Some(median), sqrt, log10)["snr_db"]
        == PyFloat(10.0 * log10(SignalPower(g) / NoisePower(g, median)))
    ensures NoiseRecord(g, None, sqrt, log10)["snr_db"] == PyFloat(999.0)
  {
  }

  /** An unchanged image leaves a residual of mean zero and variance zero. */
  lemma NoiselessImage(g: Gray, sqrt: real -> real, log10: real -> real)
    ensures NoiseRecord(g, Some(g), sqrt, log10)["noise_mean"] == PyFloat(0.0)
    ensures NoiseRecord(g, Some(g), sqrt, log10)["noise_std"] == PyFloat(sqrt(0.0))
  {
    var xs := ResidualValues(g, g);
    ResidualZero(g, g);
    ConstantStatistics(xs, 0.0);
  }
}
