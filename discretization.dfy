/**
 * Discretization artefacts: the aliasing measure over the corners of the centred log-magnitude
 * spectrum, the 256-bin intensity histogram, its entropy, the count of empty grey levels and the
 * quantization quality derived from it.
 */
module Discretization {
  import opened Wrappers
  import opened Values
  import opened Pixels

  // ---------------------------------------------------------------- histogram

  /** Left edge of bin i of `np.histogram(bins=256, range=(0, 255))`: 256 equal widths over [0, 255]. */
  function BinEdge(i: nat): real {
    i as real * 255.0 / 256.0
  }

  /** Bin i is half open on the right, except the last bin, which also holds the upper edge 255. */
  predicate InBin(x: real, i: nat)
    requires i < 256
  {
    BinEdge(i) <= x && (x < BinEdge(i + 1) || (i == 255 && x == 255.0))
  }

  /** The pixels of xs that fall into bin i. */
  function BinCount(xs: seq<Byte>, i: nat): (c: nat)
    requires i < 256
    ensures c <= |xs|
    decreases |xs|
  {
    if xs == [] then 0
    else BinCount(xs[..|xs| - 1], i) + (if InBin(xs[|xs| - 1] as real, i) then 1 else 0)
  }

  /** The 256 bin counts of the pixels. */
  function Histogram(xs: seq<Byte>): (h: seq<nat>)
    ensures |h| == 256
  {
    seq(256, i requires 0 <= i < 256 => BinCount(xs, i))
  }

  /** The sum of the bin counts, as `np.sum(hist)` computes it. */
  function Total(h: seq<nat>): nat
    decreases |h|
  {
    if h == [] then 0 else Total(h[..|h| - 1]) + h[|h| - 1]
  }

  /** The number of pixels below level k. */
  function Below(xs: seq<Byte>, k: int): (c: nat)
    ensures c <= |xs|
    ensures k >= 256 ==> c == |xs|
    decreases |xs|
  {
    if xs == [] then 0
    else Below(xs[..|xs| - 1], k) + (if xs[|xs| - 1] < k then 1 else 0)
  }

  /** The number of zero entries, as `np.sum(hist == 0)` computes it. */
  function ZeroCount(h: seq<nat>): (c: nat)
    ensures c <= |h|
    ensures c == 0 <==> forall i :: 0 <= i < |h| ==> h[i] != 0
    ensures c == |h| <==> forall i :: 0 <= i < |h| ==> h[i] == 0
    decreases |h|
  {
    if h == [] then 0
    else ZeroCount(h[..|h| - 1]) + (if h[|h| - 1] == 0 then 1 else 0)
  }

  /** `empty_levels`: the grey levels no pixel of the image has. */
  function EmptyLevels(g: Gray): (n: nat)
    ensures n <= 255
  {
    var xs := PixelsOf(g);
    EmptyBinIsMissingLevel(xs, xs[0]);
    ZeroCount(Histogram(xs))
  }

  /** `quantization_quality = 1 - empty_levels / 256`. */
  function QuantizationQuality(emptyLevels: nat): (q: real)
    ensures emptyLevels <= 256 ==> 0.0 <= q <= 1.0
    ensures q == 1.0 <==> emptyLevels == 0
  {
    1.0 - emptyLevels as real / 256.0
  }

  // ---------------------------------------------------------------- entropy

  /** The normalised histogram: each count divided by the total. */
  function Probabilities(h: seq<nat>): (p: seq<real>)
    requires Total(h) > 0
    ensures |p| == |h|
    ensures forall i :: 0 <= i < |h| ==> (p[i] == 0.0 <==> h[i] == 0)
  {
    seq(|h|, i requires 0 <= i < |h| => h[i] as real / Total(h) as real)
  }

  /** The entries of p that are positive, in order (`hist_normalized[hist_normalized > 0]`). */
  function Positive(p: seq<real>): (q: seq<real>)
    ensures |q| <= |p|
    ensures forall i :: 0 <= i < |q| ==> q[i] > 0.0
    decreases |p|
  {
    if p == [] then []
    else Positive(p[..|p| - 1]) + (if p[|p| - 1] > 0.0 then [p[|p| - 1]] else [])
  }

  /** The summands `p * log2(p)`. */
  function Terms(q: seq<real>, log2: real -> real): (t: seq<real>)
    ensures |t| == |q|
  {
    seq(|q|, i requires 0 <= i < |q| => q[i] * log2(q[i]))
  }

  /**
   * `-sum(p * log2(p))` over the positive probabilities; 0.0 when there are none. With any
   * logarithm that is non-positive on (0, 1] it is non-negative, since no probability exceeds 1.
   */
  function Entropy(h: seq<nat>, log2: real -> real): (e: real)
    requires Total(h) > 0
    ensures (forall x :: 0.0 < x <= 1.0 ==> log2(x) <= 0.0) ==> e >= 0.0
  {
    var p := Probabilities(h);
    ProbabilitiesAtMostOne(h);
    PositiveBounded(p);
    var q := Positive(p);
    TermsNonPositive(q, log2);
    if |q| > 0 then -Sum(Terms(q, log2)) else 0.0
  }

  // ---------------------------------------------------------------- aliasing

  /** The sub-grid of rows [r0, r0 + rows) and columns [c0, c0 + cols). */
  function Block(m: seq<seq<real>>, r0: nat, c0: nat, rows: nat, cols: nat): (b: seq<seq<real>>)
    requires r0 + rows <= |m|
    requires forall r :: 0 <= r < |m| ==> c0 + cols <= |m[r]|
    ensures |b| == rows && forall r :: 0 <= r < rows ==> b[r] == m[r0 + r][c0..c0 + cols]
  {
    seq(rows, r requires 0 <= r < rows => m[r0 + r][c0..c0 + cols])
  }

  /** `np.mean(region)` of a non-empty block: the mean of all its entries. */
  function BlockMean(b: seq<seq<real>>, cols: nat): real
    requires |b| > 0 && cols > 0
    requires forall r :: 0 <= r < |b| ==> |b[r]| == cols
  {
    FlattenLength(b, cols);
    Mean(Flatten(b))
  }

  /**
   * The aliasing measure of an h x w spectrum: with qh = h / 4 and qw = w / 4 both positive,
   * the mean of the means of the four qh x qw corner blocks (top left, top right, bottom left,
   * bottom right); 0.0 for a spectrum too small to have corners.
   */
  function Aliasing(m: seq<seq<real>>, h: nat, w: nat): (a: real)
    requires |m| == h && forall r :: 0 <= r < h ==> |m[r]| == w
    ensures (h / 4 == 0 || w / 4 == 0) ==> a == 0.0
  {
    if h / 4 > 0 && w / 4 > 0 then Mean(CornerMeans(m, h, w)) else 0.0
  }

  /** The means of the four corner blocks of the spectrum. */
  function CornerMeans(m: seq<seq<real>>, h: nat, w: nat): (cs: seq<real>)
    requires |m| == h && forall r :: 0 <= r < h ==> |m[r]| == w
    requires h / 4 > 0 && w / 4 > 0
    ensures |cs| == 4
  {
    var qh, qw := h / 4, w / 4;
    [
      BlockMean(Block(m, 0, 0, qh, qw), qw),
      BlockMean(Block(m, 0, w - qw, qh, qw), qw),
      BlockMean(Block(m, h - qh, 0, qh, qw), qw),
      BlockMean(Block(m, h - qh, w - qw, qh, qw), qw)
    ]
  }

  // ---------------------------------------------------------------- records

  /** The five fields of every `discretization_artifacts` record. */
  const DiscretizationFields: set<string> :=
    {"aliasing_measure", "entropy", "empty_levels", "quantization_quality", "magnitude_spectrum"}

  /**
   * The `discretization_artifacts` record of image g. `spectrum` is the log-magnitude spectrum
   * `log(|fftshift(fft2(g))| + 1)`, None when computing it raised; `log2` stands for numpy's log2.
   */
  function DiscretizationRecord(g: Gray, spectrum: Option<seq<seq<real>>>, log2: real -> real): (r: Record)
    requires spectrum.Some? ==> SameShape(spectrum.value, g)
    ensures r.Keys == DiscretizationFields
    ensures r["magnitude_spectrum"].NdArray?
  {
    match spectrum
    case None => FallbackRecord()
    case Some(m) =>
      var h := Histogram(PixelsOf(g));
      HistogramTotal(PixelsOf(g));
      map[
        "aliasing_measure" := PyFloat(Aliasing(m, Height(g), Width(g))),
        "entropy" := PyFloat(Entropy(h, log2)),
        "empty_levels" := PyInt(ZeroCount(h)),
        "quantization_quality" := PyFloat(QuantizationQuality(ZeroCount(h))),
        "magnitude_spectrum" := FloatMatrix(m)
      ]
  }

  /** The record written when the analysis raises: the same fields, with a 10 x 10 zero spectrum. */
  function FallbackRecord(): (r: Record)
    ensures r.Keys == DiscretizationFields
  {
    map[
      "aliasing_measure" := PyFloat(0.0),
      "entropy" := PyFloat(0.0),
      "empty_levels" := PyInt(0),
      "quantization_quality" := PyFloat(1.0),
      "magnitude_spectrum" := FloatMatrix(seq(10, _ => seq(10, _ => 0.0)))
    ]
  }

  // ---------------------------------------------------------------- properties

  /** An integer intensity v falls into bin v and into no other. */
  lemma BinIsLevel(v: Byte, i: nat)
    requires i < 256
    ensures InBin(v as real, i) <==> i == v
  {
    if i == v {
      assert BinEdge(i) <= v as real;
      if v < 255 {
        assert v as real < BinEdge(i + 1);
      }
    } else if i > v {
      assert BinEdge(i) >= BinEdge(v + 1);
      assert BinEdge(v + 1) > v as real;
    } else {
      assert BinEdge(i + 1) <= BinEdge(v);
      assert BinEdge(v) <= v as real;
    }
  }

  /** Bin i counts exactly the pixels of intensity i. */
  lemma {:induction false} BinCountIsMultiplicity(xs: seq<Byte>, i: nat)
    requires i < 256
    ensures BinCount(xs, i) == multiset(xs)[i]
    decreases |xs|
  {
    if xs != [] {
      var n := |xs| - 1;
      BinCountIsMultiplicity(xs[..n], i);
      BinIsLevel(xs[n], i);
      assert xs == xs[..n] + [xs[n]];
      assert multiset(xs) == multiset(xs[..n]) + multiset{xs[n]};
    }
  }

  /** The pixels below level k + 1 are those below k and those at k. */
  lemma {:induction false} BelowStep(xs: seq<Byte>, k: nat)
    requires k < 256
    ensures Below(xs, k + 1) == Below(xs, k) + BinCount(xs, k)
    decreases |xs|
  {
    if xs != [] {
      var n := |xs| - 1;
      BelowStep(xs[..n], k);
      BinIsLevel(xs[n], k);
    }
  }

  /** The first k bins hold the pixels below level k. */
  lemma {:induction false} PrefixTotal(xs: seq<Byte>, k: nat)
    requires k <= 256
    ensures Total(Histogram(xs)[..k]) == Below(xs, k)
    decreases k
  {
    var h := Histogram(xs);
    if k == 0 {
      assert Below(xs, 0) == 0 by { NoneBelowZero(xs); }
    } else {
      assert h[..k][..k - 1] == h[..k - 1];
      PrefixTotal(xs, k - 1);
      BelowStep(xs, k - 1);
    }
  }

  lemma {:induction false} NoneBelowZero(xs: seq<Byte>)
    ensures Below(xs, 0) == 0
    decreases |xs|
  {
    if xs != [] {
      NoneBelowZero(xs[..|xs| - 1]);
    }
  }

  /** The bin counts sum to the number of pixels. */
  lemma HistogramTotal(xs: seq<Byte>)
    ensures Total(Histogram(xs)) == |xs|
  {
    PrefixTotal(xs, 256);
    assert Histogram(xs)[..256] == Histogram(xs);
  }

  /** A bin is empty exactly when no pixel has its level. */
  lemma EmptyBinIsMissingLevel(xs: seq<Byte>, i: nat)
    requires i < 256
    ensures Histogram(xs)[i] == 0 <==> i !in xs
  {
    BinCountIsMultiplicity(xs, i);
  }

  /**
   * `empty_levels` lies in [0, 255] for every image (some level always occurs), it is 0 exactly
   * when all 256 levels occur, and the quality lies in (0, 1] and is 1 exactly then.
   */
  lemma QuantizationBounds(g: Gray)
    ensures EmptyLevels(g) <= 255
    ensures EmptyLevels(g) == 0 <==> forall v: Byte :: v in PixelsOf(g)
    ensures 0.0 < QuantizationQuality(EmptyLevels(g)) <= 1.0
    ensures QuantizationQuality(EmptyLevels(g)) == 1.0 <==> forall v: Byte :: v in PixelsOf(g)
  {
    var xs := PixelsOf(g);
    var h := Histogram(xs);
    forall i | 0 <= i < 256 ensures h[i] == 0 <==> i !in xs {
      EmptyBinIsMissingLevel(xs, i);
    }
    var v0 := xs[0];
    assert h[v0] != 0;
    assert (forall i :: 0 <= i < 256 ==> h[i] != 0) <==> (forall v: Byte :: v in xs);
  }

  /** Fewer empty levels never give a lower quality. */
  lemma QualityMonotone(e: nat, e': nat)
    requires e <= e'
    ensures QuantizationQuality(e') <= QuantizationQuality(e)
  {
  }

  /** Some probability is positive, so the `else` branch with entropy 0.0 never applies to an image. */
  lemma SomeBinPositive(xs: seq<Byte>)
    requires |xs| > 0
    ensures Total(Histogram(xs)) > 0
    ensures |Positive(Probabilities(Histogram(xs)))| > 0
  {
    HistogramTotal(xs);
    var h := Histogram(xs);
    var p := Probabilities(h);
    EmptyBinIsMissingLevel(xs, xs[0]);
    assert p[xs[0]] > 0.0;
    PositiveKeeps(p, xs[0]);
  }

  /** A positive entry survives the selection of positive entries. */
  lemma {:induction false} PositiveKeeps(p: seq<real>, i: nat)
    requires i < |p| && p[i] > 0.0
    ensures |Positive(p)| > 0
    decreases |p|
  {
    if i < |p| - 1 {
      PositiveKeeps(p[..|p| - 1], i);
    }
  }

  /** Terms of probabilities in (0, 1] under a logarithm non-positive there sum to at most 0. */
  lemma TermsNonPositive(q: seq<real>, log2: real -> real)
    requires forall i :: 0 <= i < |q| ==> 0.0 < q[i] <= 1.0
    ensures (forall x :: 0.0 < x <= 1.0 ==> log2(x) <= 0.0) ==> Sum(Terms(q, log2)) <= 0.0
  {
    if forall x :: 0.0 < x <= 1.0 ==> log2(x) <= 0.0 {
      var terms := Terms(q, log2);
      forall i | 0 <= i < |terms| ensures terms[i] <= 0.0 {
        assert log2(q[i]) <= 0.0;
        NonPositiveProduct(q[i], log2(q[i]));
      }
      NegatedSum(terms);
    }
  }

  lemma NonPositiveProduct(x: real, y: real)
    requires x > 0.0 && y <= 0.0
    ensures x * y <= 0.0
  {
  }

  /** A sum of non-positive terms is non-positive. */
  lemma {:induction false} NegatedSum(xs: seq<real>)
    requires forall i :: 0 <= i < |xs| ==> xs[i] <= 0.0
    ensures Sum(xs) <= 0.0
    decreases |xs|
  {
    if xs != [] {
      NegatedSum(xs[..|xs| - 1]);
    }
  }

  /** Each probability lies in [0, 1]. */
  lemma ProbabilitiesAtMostOne(h: seq<nat>)
    requires Total(h) > 0
    ensures forall i :: 0 <= i < |h| ==> 0.0 <= Probabilities(h)[i] <= 1.0
  {
    var t := Total(h) as real;
    forall i | 0 <= i < |h| ensures 0.0 <= Probabilities(h)[i] <= 1.0 {
      TotalAtLeastEach(h, i);
      assert Probabilities(h)[i] == h[i] as real / t;
      UnitFraction(h[i] as real, t);
    }
  }

  /** A share a / t of a positive total t with 0 <= a <= t lies in [0, 1]. */
  lemma UnitFraction(a: real, t: real)
    requires 0.0 <= a <= t && t > 0.0
    ensures 0.0 <= a / t <= 1.0
  {
    assert (a / t) * t == a;
  }

  /** Each count is at most the total. */
  lemma {:induction false} TotalAtLeastEach(h: seq<nat>, i: nat)
    requires i < |h|
    ensures h[i] <= Total(h)
    decreases |h|
  {
    if i < |h| - 1 {
      TotalAtLeastEach(h[..|h| - 1], i);
    }
  }

  /** The selected positive entries keep the upper bound of their source. */
  lemma {:induction false} PositiveBounded(p: seq<real>)
    requires forall i :: 0 <= i < |p| ==> p[i] <= 1.0
    ensures forall i :: 0 <= i < |Positive(p)| ==> Positive(p)[i] <= 1.0
    decreases |p|
  {
    if p != [] {
      PositiveBounded(p[..|p| - 1]);
    }
  }

  /** An image of one grey level has entropy -log2(1), which is 0 for the true logarithm. */
  lemma SingleLevelEntropy(xs: seq<Byte>, v: Byte, log2: real -> real)
    requires |xs| > 0 && forall i :: 0 <= i < |xs| ==> xs[i] == v
    ensures Total(Histogram(xs)) > 0
    ensures Entropy(Histogram(xs), log2) == -log2(1.0)
  {
    HistogramTotal(xs);
    SingleLevelHistogram(xs, v);
    PointMassEntropy(Histogram(xs), v, log2);
  }

  /** All pixels of one level v fill bin v and leave every other bin empty. */
  lemma SingleLevelHistogram(xs: seq<Byte>, v: Byte)
    requires forall i :: 0 <= i < |xs| ==> xs[i] == v
    ensures forall i :: 0 <= i < 256 ==> Histogram(xs)[i] == (if i == v then |xs| else 0)
  {
    forall i | 0 <= i < 256 ensures Histogram(xs)[i] == (if i == v then |xs| else 0) {
      BinCountIsMultiplicity(xs, i);
      if i == v {
        OnlyLevel(xs, v);
      } else {
        assert i !in xs;
      }
    }
  }

  /** A histogram with all its mass in one bin has the entropy -log2(1). */
  lemma PointMassEntropy(h: seq<nat>, v: nat, log2: real -> real)
    requires v < |h| && h[v] > 0
    requires forall i :: 0 <= i < |h| ==> h[i] == (if i == v then h[v] else 0)
    requires Total(h) == h[v]
    ensures Entropy(h, log2) == -log2(1.0)
  {
    var p := Probabilities(h);
    forall i | 0 <= i < |h| ensures p[i] == (if i == v then 1.0 else 0.0) {
      PointMassEntry(h, v, i);
    }
    SinglePositive(p, v);
    CertainEntropy(h, log2);
  }

  lemma PointMassEntry(h: seq<nat>, v: nat, i: nat)
    requires v < |h| && i < |h| && h[v] > 0 && Total(h) == h[v]
    requires i != v ==> h[i] == 0
    ensures Probabilities(h)[i] == (if i == v then 1.0 else 0.0)
  {
    var t := Total(h) as real;
    var n := h[i] as real;
    assert Probabilities(h)[i] == n / t;
    if i == v {
      SelfRatio(n, t);
    } else {
      assert n == 0.0;
    }
  }

  /** A positive quantity divided by itself is 1. */
  lemma SelfRatio(n: real, t: real)
    requires n == t && t > 0.0
    ensures n / t == 1.0
  {
    assert 1.0 * t == n;
  }

  /** When the only positive probability is 1, the entropy is -log2(1). */
  lemma CertainEntropy(h: seq<nat>, log2: real -> real)
    requires Total(h) > 0 && Positive(Probabilities(h)) == [1.0]
    ensures Entropy(h, log2) == -log2(1.0)
  {
    var q := Positive(Probabilities(h));
    var terms := Terms(q, log2);
    assert terms == [1.0 * log2(1.0)];
    assert Sum(terms) == Sum(terms[..0]) + terms[0];
  }

  /** In a constant sequence, its value occurs once per element. */
  lemma {:induction false} OnlyLevel(xs: seq<Byte>, v: Byte)
    requires forall i :: 0 <= i < |xs| ==> xs[i] == v
    ensures multiset(xs)[v] == |xs|
    decreases |xs|
  {
    if xs != [] {
      var n := |xs| - 1;
      OnlyLevel(xs[..n], v);
      assert xs == xs[..n] + [xs[n]];
    }
  }

  /** Selecting the positive entries of a sequence with exactly one positive entry x gives [x]. */
  lemma {:induction false} SinglePositive(p: seq<real>, j: nat)
    requires j < |p| && p[j] > 0.0
    requires forall i :: 0 <= i < |p| && i != j ==> p[i] == 0.0
    ensures Positive(p) == [p[j]]
    decreases |p|
  {
    var n := |p| - 1;
    if j < n {
      SinglePositive(p[..n], j);
    } else {
      NoPositive(p[..n]);
    }
  }

  lemma {:induction false} NoPositive(p: seq<real>)
    requires forall i :: 0 <= i < |p| ==> p[i] == 0.0
    ensures Positive(p) == []
    decreases |p|
  {
    if p != [] {
      NoPositive(p[..|p| - 1]);
    }
  }

  /** Every entry of a block is an entry of the grid it is cut from. */
  lemma BlockBounds(m: seq<seq<real>>, r0: nat, c0: nat, rows: nat, cols: nat, lo: real, hi: real)
    requires r0 + rows <= |m|
    requires forall r :: 0 <= r < |m| ==> c0 + cols <= |m[r]|
    requires forall r, c :: 0 <= r < |m| && 0 <= c < |m[r]| ==> lo <= m[r][c] <= hi
    requires rows > 0 && cols > 0
    ensures lo <= BlockMean(Block(m, r0, c0, rows, cols), cols) <= hi
  {
    var b := Block(m, r0, c0, rows, cols);
    var flat := Flatten(b);
    FlattenLength(b, cols);
    forall k | 0 <= k < |flat| ensures lo <= flat[k] <= hi {
      FlattenMembers(b, flat[k]);
      var r :| 0 <= r < |b| && flat[k] in b[r];
      var c :| 0 <= c < cols && b[r][c] == flat[k];
      assert b[r][c] == m[r0 + r][c0 + c];
    }
    MeanBounds(flat, lo, hi);
  }

  /**
   * The aliasing measure is an average of spectrum entries: when they all lie in [lo, hi]
   * (and lo <= 0 <= hi covers the small-spectrum value 0.0), so does the measure.
   */
  lemma AliasingBounds(m: seq<seq<real>>, h: nat, w: nat, lo: real, hi: real)
    requires |m| == h && forall r :: 0 <= r < h ==> |m[r]| == w
    requires forall r, c :: 0 <= r < h && 0 <= c < w ==> lo <= m[r][c] <= hi
    requires h / 4 > 0 && w / 4 > 0
    ensures lo <= Aliasing(m, h, w) <= hi
  {
    var qh, qw := h / 4, w / 4;
    var cs := CornerMeans(m, h, w);
    BlockBounds(m, 0, 0, qh, qw, lo, hi);
    BlockBounds(m, 0, w - qw, qh, qw, lo, hi);
    BlockBounds(m, h - qh, 0, qh, qw, lo, hi);
    BlockBounds(m, h - qh, w - qw, qh, qw, lo, hi);
    assert forall i :: 0 <= i < 4 ==> lo <= cs[i] <= hi;
    MeanBounds(cs, lo, hi);
  }

  /** A log-magnitude spectrum, `log(|F| + 1)`, is non-negative; so then is the aliasing measure. */
  lemma AliasingNonNegative(m: seq<seq<real>>, h: nat, w: nat)
    requires |m| == h && forall r :: 0 <= r < h ==> |m[r]| == w
    requires forall r, c :: 0 <= r < h && 0 <= c < w ==> 0.0 <= m[r][c]
    ensures Aliasing(m, h, w) >= 0.0
  {
    if h / 4 > 0 && w / 4 > 0 {
      var hi := SpectrumPeak(m, h, w);
      AliasingBounds(m, h, w, 0.0, hi);
    }
  }

  /** An upper bound on the entries of a grid. */
  lemma SpectrumPeak(m: seq<seq<real>>, h: nat, w: nat) returns (hi: real)
    requires |m| == h && forall r :: 0 <= r < h ==> |m[r]| == w
    ensures forall r, c :: 0 <= r < h && 0 <= c < w ==> m[r][c] <= hi
  {
    FlattenLength(m, w);
    var flat := Flatten(m);
    SumOfAbs(flat);
    hi := AbsSum(flat);
    forall r, c | 0 <= r < h && 0 <= c < w ensures m[r][c] <= hi {
      FlattenIndex(m, w, r, c);
      AbsSumBounds(flat, r * w + c);
    }
  }

  function AbsSum(xs: seq<real>): real
    decreases |xs|
  {
    if xs == [] then 0.0 else AbsSum(xs[..|xs| - 1]) + (if xs[|xs| - 1] < 0.0 then -xs[|xs| - 1] else xs[|xs| - 1])
  }

  lemma {:induction false} SumOfAbs(xs: seq<real>)
    ensures AbsSum(xs) >= 0.0
    decreases |xs|
  {
    if xs != [] {
      SumOfAbs(xs[..|xs| - 1]);
    }
  }

  lemma {:induction false} AbsSumBounds(xs: seq<real>, k: nat)
    requires k < |xs|
    ensures xs[k] <= AbsSum(xs)
    decreases |xs|
  {
    var n := |xs| - 1;
    SumOfAbs(xs[..n]);
    if k < n {
      AbsSumBounds(xs[..n], k);
    }
  }

  /** A constant spectrum of value c with corners has aliasing measure c. */
  lemma ConstantAliasing(m: seq<seq<real>>, h: nat, w: nat, c: real)
    requires |m| == h && forall r :: 0 <= r < h ==> |m[r]| == w
    requires forall r, k :: 0 <= r < h && 0 <= k < w ==> m[r][k] == c
    requires h / 4 > 0 && w / 4 > 0
    ensures Aliasing(m, h, w) == c
  {
    AliasingBounds(m, h, w, c, c);
  }

  /** The grey levels in 0..255 that no pixel has. */
  function MissingLevels(xs: seq<Byte>): set<int> {
    set v | 0 <= v < 256 && v !in xs
  }

  /**
   * What the computed record means: `empty_levels` counts the grey levels no pixel has, the
   * quality lies in (0, 1] and is 1.0 exactly when every level occurs, and a non-negative
   * spectrum gives a non-negative aliasing measure.
   */
  lemma ComputedRecord(g: Gray, m: seq<seq<real>>, log2: real -> real)
    requires SameShape(m, g)
    ensures var r := DiscretizationRecord(g, Some(m), log2);
      && r["empty_levels"] == PyInt(|MissingLevels(PixelsOf(g))|)
      && r["quantization_quality"].PyFloat?
      && 0.0 < r["quantization_quality"].x <= 1.0
      && (r["quantization_quality"].x == 1.0 <==> forall v: Byte :: v in PixelsOf(g))
      && ((forall row, c :: 0 <= row < Height(g) && 0 <= c < Width(g) ==> 0.0 <= m[row][c]) ==>
            r["aliasing_measure"].PyFloat? && r["aliasing_measure"].x >= 0.0)
  {
    var xs := PixelsOf(g);
    var r := DiscretizationRecord(g, Some(m), log2);
    assert r["empty_levels"] == PyInt(EmptyLevels(g));
    assert r["quantization_quality"] == PyFloat(QuantizationQuality(EmptyLevels(g)));
    assert r["aliasing_measure"] == PyFloat(Aliasing(m, Height(g), Width(g)));
    ZeroCountIsZeroSet(Histogram(xs));
    ZeroBinsAreMissingLevels(xs);
    QuantizationBounds(g);
    if forall row, c :: 0 <= row < Height(g) && 0 <= c < Width(g) ==> 0.0 <= m[row][c] {
      AliasingNonNegative(m, Height(g), Width(g));
    }
  }

  /** The number of zero entries is the size of the set of their indices. */
  lemma {:induction false} ZeroCountIsZeroSet(h: seq<nat>)
    ensures ZeroCount(h) == |set i | 0 <= i < |h| && h[i] == 0|
    decreases |h|
  {
    if h != [] {
      var n := |h| - 1;
      ZeroCountIsZeroSet(h[..n]);
      var before := set i | 0 <= i < n && h[..n][i] == 0;
      var prefix := set i | 0 <= i < n && h[i] == 0;
      var all := set i | 0 <= i < |h| && h[i] == 0;
      assert before == prefix;
      if h[n] == 0 {
        assert all == prefix + {n};
        assert n !in prefix;
      } else {
        assert all == prefix;
      }
    }
  }

  /** The empty bins of the histogram are exactly the missing grey levels. */
  lemma ZeroBinsAreMissingLevels(xs: seq<Byte>)
    ensures (set i | 0 <= i < |Histogram(xs)| && Histogram(xs)[i] == 0) == MissingLevels(xs)
  {
    forall i | 0 <= i < 256 {
      EmptyBinIsMissingLevel(xs, i);
    }
  }
}
