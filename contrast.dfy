/**
 * Contrast parameters: Michelson contrast from the extreme intensities, RMS contrast, the mean
 * intensity and the intensity range. `np.max` and `np.min` of a uint8 image are uint8 scalars, so
 * the arithmetic on them as written wraps modulo 256.
 */
module Contrast {
  import opened Wrappers
  import opened Values
  import opened Pixels

  /** uint8 addition: the sum modulo 256. */
  function AddUint8(a: Byte, b: Byte): (s: Byte)
    ensures a + b < 256 ==> s == a + b
    ensures a + b >= 256 ==> s == a + b - 256
  {
    (a + b) % 256
  }

  /** uint8 subtraction: the difference modulo 256. */
  function SubUint8(a: Byte, b: Byte): (d: Byte)
    ensures b <= a ==> d == a - b
    ensures a < b ==> d == a - b + 256
  {
    (a - b) % 256
  }

  /**
   * Michelson contrast exactly as the analyzer computes it: numerator and denominator are uint8
   * results, so a sum of at least 256 wraps around before the test and the division.
   */
  function MichelsonAsWritten(mx: Byte, mn: Byte): (c: real)
    ensures c >= 0.0
    ensures mx == mn ==> c == 0.0
  {
    var sum := AddUint8(mx, mn);
    if sum > 0 then SubUint8(mx, mn) as real / sum as real else 0.0
  }

  /** Michelson contrast (max - min) / (max + min) over unbounded integers; 0 for a black image. */
  function Michelson(mx: Byte, mn: Byte): (c: real)
    ensures mn <= mx ==> 0.0 <= c <= 1.0
    ensures mn <= mx ==> (c == 0.0 <==> mx == mn)
    ensures mn <= mx ==> (c == 1.0 <==> mn == 0 && mx > 0)
  {
    if mx + mn > 0 then
      var c := (mx - mn) as real / (mx + mn) as real;
      FractionFacts(mx - mn, mx + mn);
      c
    else 0.0
  }

  /** The fields of a `contrast` record. */
  const ContrastFields: set<string> :=
    {"michelson_contrast", "rms_contrast", "local_contrast_mean", "intensity_range", "mean_intensity"}

  /**
   * The `contrast` record of image g, holding the Michelson value as the analyzer computes it,
   * with uint8 wrap-around. `localContrast` is the mean of the local-contrast map, None when both
   * ways of computing it raised; `sqrt` stands for numpy's square root.
   */
  function ContrastRecord(g: Gray, localContrast: Option<real>, sqrt: real -> real): (r: Record)
    ensures r.Keys == ContrastFields
  {
    var ps := PixelsOf(g);
    var mx, mn := MaxOf(ps), MinOf(ps);
    var reals := AsReals(ps);
    map[
      "michelson_contrast" := PyFloat(if localContrast.Some? then MichelsonAsWritten(mx, mn) else 0.0),
      "rms_contrast" := PyFloat(sqrt(Variance(reals))),
      "local_contrast_mean" := PyFloat(if localContrast.Some? then localContrast.value else 0.0),
      "intensity_range" := Tuple([PyInt(mn), PyInt(mx)]),
      "mean_intensity" := PyFloat(Mean(reals))
    ]
  }

  // ---------------------------------------------------------------- properties

  /** A fraction p / q with 0 <= p <= q and q > 0 lies in [0, 1]; it is 0 iff p is, 1 iff p == q. */
  lemma FractionFacts(p: int, q: int)
    requires q > 0
    ensures 0 <= p <= q ==> 0.0 <= p as real / q as real <= 1.0
    ensures p as real / q as real == 0.0 <==> p == 0
    ensures p as real / q as real == 1.0 <==> p == q
  {
    var f := p as real / q as real;
    assert f * q as real == p as real;
    if 0 <= p <= q {
      assert f <= 1.0 by {
        if f > 1.0 {
          ScaleUp(f, q as real);
        }
      }
    }
  }

  lemma ScaleUp(f: real, q: real)
    requires f > 1.0 && q > 0.0
    ensures f * q > q
  {
  }

  /** Below 256 nothing wraps, and the value as written is the true Michelson contrast. */
  lemma NoWrapAgrees(mx: Byte, mn: Byte)
    requires mn <= mx && mx + mn < 256
    ensures MichelsonAsWritten(mx, mn) == Michelson(mx, mn)
  {
  }

  /** The image with intensities 20 and 200 has contrast 180 / 220 whichever way it is computed. */
  lemma TwentyToTwoHundred()
    ensures MichelsonAsWritten(200, 20) == 180.0 / 220.0
    ensures Michelson(200, 20) == 180.0 / 220.0
  {
  }

  /**
   * From 256 on, the sum wraps: at exactly 256 the value as written is 0.0, above it the
   * denominator loses 256.
   */
  lemma WrapCases(mx: Byte, mn: Byte)
    requires mn <= mx && mx + mn >= 256
    ensures mx + mn == 256 ==> MichelsonAsWritten(mx, mn) == 0.0
    ensures mx + mn > 256 ==> MichelsonAsWritten(mx, mn) == (mx - mn) as real / (mx + mn - 256) as real
  {
  }

  /**
   * The wrap makes the value as written leave [0, 1]: intensities 100 and 200 give 100 / 44,
   * where Michelson contrast is 1 / 3; intensities 1 and 255 give 0.0 instead of 254 / 256.
   */
  lemma WrapCounterexamples()
    ensures MichelsonAsWritten(200, 100) == 100.0 / 44.0 && MichelsonAsWritten(200, 100) > 1.0
    ensures Michelson(200, 100) == 1.0 / 3.0
    ensures MichelsonAsWritten(255, 1) == 0.0 && Michelson(255, 1) == 254.0 / 256.0
  {
    assert AddUint8(200, 100) == 44;
    assert AddUint8(255, 1) == 0;
  }

  /** The stored range is (min, max) of the pixels with min <= max, and the mean lies in that range. */
  lemma ContrastRangeFacts(g: Gray, localContrast: Option<real>, sqrt: real -> real)
    ensures var r := ContrastRecord(g, localContrast, sqrt);
      var ps := PixelsOf(g);
      && r["intensity_range"] == Tuple([PyInt(MinOf(ps)), PyInt(MaxOf(ps))])
      && MinOf(ps) <= MaxOf(ps)
      && r["mean_intensity"].PyFloat?
      && MinOf(ps) as real <= r["mean_intensity"].x <= MaxOf(ps) as real
  {
    var ps := PixelsOf(g);
    MeanBounds(AsReals(ps), MinOf(ps) as real, MaxOf(ps) as real);
  }

  /**
   * The stored Michelson value is never negative; it is 0.0 when local contrast raised, and
   * otherwise it is the true Michelson contrast, in [0, 1], whenever max + min stays below 256.
   */
  lemma ContrastMichelsonFacts(g: Gray, localContrast: Option<real>, sqrt: real -> real)
    ensures var r := ContrastRecord(g, localContrast, sqrt);
      var mx, mn := MaxOf(PixelsOf(g)), MinOf(PixelsOf(g));
      && r["michelson_contrast"].PyFloat?
      && r["michelson_contrast"].x >= 0.0
      && (localContrast.None? ==> r["michelson_contrast"].x == 0.0)
      && (localContrast.Some? ==> r["michelson_contrast"].x == MichelsonAsWritten(mx, mn))
      && (localContrast.Some? && mx + mn < 256 ==>
            r["michelson_contrast"].x == Michelson(mx, mn) && 0.0 <= r["michelson_contrast"].x <= 1.0)
      && (localContrast.Some? ==> r["local_contrast_mean"] == PyFloat(localContrast.value))
  {
    var ps := PixelsOf(g);
    var mx, mn := MaxOf(ps), MinOf(ps);
    if mx + mn < 256 {
      NoWrapAgrees(mx, mn);
    }
  }

  /** A constant image of level v: no Michelson contrast, no RMS spread, range (v, v), mean v. */
  lemma ConstantImage(g: Gray, v: Byte, sqrt: real -> real)
    requires forall i :: 0 <= i < |PixelsOf(g)| ==> PixelsOf(g)[i] == v
    ensures var r := ContrastRecord(g, Some(0.0), sqrt);
      && r["michelson_contrast"] == PyFloat(0.0)
      && r["rms_contrast"] == PyFloat(sqrt(0.0))
      && r["intensity_range"] == Tuple([PyInt(v), PyInt(v)])
      && r["mean_intensity"] == PyFloat(v as real)
  {
    var ps := PixelsOf(g);
    ConstantStatistics(AsReals(ps), v as real);
  }
}
