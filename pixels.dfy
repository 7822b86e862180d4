/**
 * The 8-bit grey image the analyzer works on (`image_gray`, a uint8 array) and the
 * whole-image statistics numpy computes over it (sum, mean, variance, max, min).
 */
module Pixels {

  /** One uint8 intensity. */
  type Byte = x: int | 0 <= x < 256

  /** Every row of the grid has as many entries as the first one. */
  predicate IsRect<T>(g: seq<seq<T>>) {
    forall r :: 0 <= r < |g| ==> |g[r]| == |g[0]|
  }

  /** A decoded grey image: a non-empty rectangular grid of uint8 intensities (rows first). */
  type Gray = g: seq<seq<Byte>> | |g| > 0 && |g[0]| > 0 && IsRect(g) witness [[0]]

  function Height(g: Gray): nat { |g| }

  function Width(g: Gray): nat { |g[0]| }

  /** A grid with the same shape as the image. */
  predicate SameShape<T>(m: seq<seq<T>>, g: Gray) {
    |m| == Height(g) && forall r :: 0 <= r < |m| ==> |m[r]| == Width(g)
  }

  /** The grid's entries in row-major order, as numpy's whole-array reductions see them. */
  function Flatten<T>(g: seq<seq<T>>): seq<T>
    decreases |g|
  {
    if g == [] then [] else Flatten(g[..|g| - 1]) + g[|g| - 1]
  }

  /** A grid of h rows of w entries holds h * w entries. */
  lemma {:induction false} FlattenLength<T>(g: seq<seq<T>>, w: nat)
    requires forall r :: 0 <= r < |g| ==> |g[r]| == w
    ensures |Flatten(g)| == |g| * w
    decreases |g|
  {
    if g != [] {
      FlattenLength(g[..|g| - 1], w);
      assert |Flatten(g)| == (|g| - 1) * w + w;
      MulSucc(|g| - 1, w);
    }
  }

  lemma MulSucc(a: nat, w: nat)
    ensures a * w + w == (a + 1) * w
  {
  }

  /** Row r, column c of the grid is entry r * w + c of its flattening. */
  lemma {:induction false} FlattenIndex<T>(g: seq<seq<T>>, w: nat, r: nat, c: nat)
    requires forall i :: 0 <= i < |g| ==> |g[i]| == w
    requires r < |g| && c < w
    ensures |Flatten(g)| == |g| * w
    ensures r * w + c < |Flatten(g)| && Flatten(g)[r * w + c] == g[r][c]
    decreases |g|
  {
    FlattenLength(g, w);
    var last := |g| - 1;
    var prefix := Flatten(g[..last]);
    FlattenLength(g[..last], w);
    assert Flatten(g) == prefix + g[last];
    if r < last {
      FlattenIndex(g[..last], w, r, c);
      RowOffset(r, last, w, c);
    } else {
      assert r * w + c == |prefix| + c;
    }
  }

  /** Entry c of row r comes before row `last` when r < last. */
  lemma RowOffset(r: nat, last: nat, w: nat, c: nat)
    requires r < last && c < w
    ensures r * w + c < last * w
  {
    var k := last - r - 1;
    assert last * w == r * w + w + k * w;
  }

  /** Every entry of the flattening is an entry of some row. */
  lemma {:induction false} FlattenMembers<T>(g: seq<seq<T>>, x: T)
    ensures x in Flatten(g) <==> exists r :: 0 <= r < |g| && x in g[r]
    decreases |g|
  {
    if g != [] {
      FlattenMembers(g[..|g| - 1], x);
      assert forall r :: 0 <= r < |g| - 1 ==> g[..|g| - 1][r] == g[r];
    }
  }

  /** All pixels of the image, in row-major order. */
  function PixelsOf(g: Gray): (ps: seq<Byte>)
    ensures |ps| == Height(g) * Width(g) && |ps| > 0
  {
    FlattenLength(g, Width(g));
    Flatten(g)
  }

  /** The integers as reals, as `astype(float)` makes them. */
  function AsReals(xs: seq<int>): (rs: seq<real>)
    ensures |rs| == |xs| && forall i :: 0 <= i < |xs| ==> rs[i] == xs[i] as real
  {
    seq(|xs|, i requires 0 <= i < |xs| => xs[i] as real)
  }

  function Sum(xs: seq<real>): real
    decreases |xs|
  {
    if xs == [] then 0.0 else Sum(xs[..|xs| - 1]) + xs[|xs| - 1]
  }

  /** np.mean over a non-empty array. */
  function Mean(xs: seq<real>): real
    requires |xs| > 0
  {
    Sum(xs) / |xs| as real
  }

  /** The squared deviations from the mean. */
  function SquaredDeviations(xs: seq<real>): (ds: seq<real>)
    requires |xs| > 0
    ensures |ds| == |xs|
  {
    var m := Mean(xs);
    seq(|xs|, i requires 0 <= i < |xs| => (xs[i] - m) * (xs[i] - m))
  }

  /** np.var: the mean squared deviation from the mean. */
  function Variance(xs: seq<real>): real
    requires |xs| > 0
  {
    Mean(SquaredDeviations(xs))
  }

  /** The element-wise squares, as `x ** 2` makes them. */
  function Squares(xs: seq<real>): (ss: seq<real>)
    ensures |ss| == |xs|
  {
    seq(|xs|, i requires 0 <= i < |xs| => xs[i] * xs[i])
  }

  /** np.max: an element that no element exceeds. */
  function MaxOf(xs: seq<int>): (m: int)
    requires |xs| > 0
    ensures m in xs && forall i :: 0 <= i < |xs| ==> xs[i] <= m
    decreases |xs|
  {
    if |xs| == 1 then xs[0]
    else
      var rest := MaxOf(xs[..|xs| - 1]);
      if xs[|xs| - 1] > rest then xs[|xs| - 1] else rest
  }

  /** np.min: an element that exceeds no element. */
  function MinOf(xs: seq<int>): (m: int)
    requires |xs| > 0
    ensures m in xs && forall i :: 0 <= i < |xs| ==> m <= xs[i]
    decreases |xs|
  {
    if |xs| == 1 then xs[0]
    else
      var rest := MinOf(xs[..|xs| - 1]);
      if xs[|xs| - 1] < rest then xs[|xs| - 1] else rest
  }

  lemma {:induction false} SumAppend(xs: seq<real>, ys: seq<real>)
    ensures Sum(xs + ys) == Sum(xs) + Sum(ys)
    decreases |ys|
  {
    if ys == [] {
      assert xs + ys == xs;
    } else {
      assert (xs + ys)[..|xs + ys| - 1] == xs + ys[..|ys| - 1];
      SumAppend(xs, ys[..|ys| - 1]);
    }
  }

  /** A sum of n terms that all lie in [lo, hi] lies in [n * lo, n * hi]. */
  lemma {:induction false} SumBounds(xs: seq<real>, lo: real, hi: real)
    requires forall i :: 0 <= i < |xs| ==> lo <= xs[i] <= hi
    ensures |xs| as real * lo <= Sum(xs) <= |xs| as real * hi
    decreases |xs|
  {
    if xs != [] {
      var n := |xs| - 1;
      SumBounds(xs[..n], lo, hi);
      assert (n + 1) as real * lo == n as real * lo + lo;
      assert (n + 1) as real * hi == n as real * hi + hi;
    }
  }

  /** A sum of n copies of c is n * c. */
  lemma {:induction false} SumConstant(xs: seq<real>, c: real)
    requires forall i :: 0 <= i < |xs| ==> xs[i] == c
    ensures Sum(xs) == |xs| as real * c
    decreases |xs|
  {
    if xs != [] {
      var n := |xs| - 1;
      SumConstant(xs[..n], c);
      assert (n + 1) as real * c == n as real * c + c;
    }
  }

  /** The mean of values that all lie in [lo, hi] lies in [lo, hi]. */
  lemma MeanBounds(xs: seq<real>, lo: real, hi: real)
    requires |xs| > 0
    requires forall i :: 0 <= i < |xs| ==> lo <= xs[i] <= hi
    ensures lo <= Mean(xs) <= hi
  {
    SumBounds(xs, lo, hi);
    var n := |xs| as real;
    assert n * lo <= Sum(xs) <= n * hi;
    assert Sum(xs) / n >= lo by {
      assert Sum(xs) / n * n == Sum(xs);
    }
    assert Sum(xs) / n <= hi by {
      assert Sum(xs) / n * n == Sum(xs);
    }
  }

  /** A constant array has itself as mean and no variance. */
  lemma ConstantStatistics(xs: seq<real>, c: real)
    requires |xs| > 0
    requires forall i :: 0 <= i < |xs| ==> xs[i] == c
    ensures Mean(xs) == c && Variance(xs) == 0.0
  {
    SumConstant(xs, c);
    SumConstant(SquaredDeviations(xs), 0.0);
  }

  /** Squared deviations are never negative, so neither is the variance. */
  lemma VarianceNonNegative(xs: seq<real>)
    requires |xs| > 0
    ensures Variance(xs) >= 0.0
  {
    var ds := SquaredDeviations(xs);
    forall i | 0 <= i < |ds| ensures ds[i] >= 0.0 {
      SquareNonNegative(xs[i] - Mean(xs), ds[i]);
    }
    SumAtLeastEach(ds);
    assert Variance(xs) == Sum(ds) / |ds| as real;
    QuotientNonNegative(Sum(ds), |ds| as real);
  }

  lemma QuotientNonNegative(s: real, n: real)
    requires s >= 0.0 && n > 0.0
    ensures s / n >= 0.0
  {
  }

  /** The square s of any x is non-negative. */
  lemma SquareNonNegative(x: real, s: real)
    requires s == x * x
    ensures s >= 0.0
  {
    if x < 0.0 {
      assert s == (-x) * (-x);
    }
  }

  /** With non-negative terms, each term is at most the sum. */
  lemma {:induction false} SumAtLeastEach(xs: seq<real>)
    requires forall i :: 0 <= i < |xs| ==> 0.0 <= xs[i]
    ensures forall i :: 0 <= i < |xs| ==> xs[i] <= Sum(xs)
    ensures Sum(xs) >= 0.0
    decreases |xs|
  {
    if xs != [] {
      SumAtLeastEach(xs[..|xs| - 1]);
    }
  }
}
