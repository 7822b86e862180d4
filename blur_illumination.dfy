/**
 * Discrete illumination of an N x N photodiode matrix whose illumination changes
 * from E1 to E2 linearly across a blur zone [a, b] (VKR1_1.py).
 *
 * Row n of the matrix is the photodiode column whose centre lies at (n + 0.5) * l_sh;
 * every photodiode of a row receives the same illumination.
 */
module BlurIllumination {
  import opened Wrappers

  /** Why `validate_parameters` rejects a parameter set, in the order it checks. */
  datatype ParameterError =
    | SizeOutOfRange          // l_ap or l_sh outside [1, 10]
    | ApertureWiderThanPitch  // l_ap > l_sh
    | ZoneNotOrdered          // a >= b
    | ZoneStartOutOfRange     // a outside (0, N * l_sh)
    | ZoneEndOutOfRange       // b outside (0, N * l_sh)

  /** Centre of photodiode n along the transition axis. */
  function Centre(lSh: real, n: nat): real {
    (n as real + 0.5) * lSh
  }

  /**
   * Illumination of row n, which lies between E1 and E2. The interpolation branch is only
   * reached strictly inside (a, b), so its division by b - a is always defined.
   */
  function RowValue(lSh: real, a: real, b: real, e1: real, e2: real, n: nat): (v: real)
    ensures e1 <= e2 ==> e1 <= v <= e2
    ensures e2 <= e1 ==> e2 <= v <= e1
  {
    var x := Centre(lSh, n);
    if x <= a then e1
    else if x >= b then e2
    else Interpolate(e1, e2, x, a, b)
  }

  /** The linear interpolation from E1 at a to E2 at b, at a point strictly inside (a, b). */
  function Interpolate(e1: real, e2: real, x: real, a: real, b: real): (v: real)
    requires a < x < b
    ensures e1 <= e2 ==> e1 <= v <= e2
    ensures e2 <= e1 ==> e2 <= v <= e1
  {
    InterpolationBetween(e1, e2, x, a, b);
    e1 + (e2 - e1) * (x - a) / (b - a)
  }

  /** The matrix `calculate_discrete_illumination` is specified to return: row n filled with RowValue. */
  ghost predicate IsIllumination(m: array2<real>, lSh: real, a: real, b: real, e1: real, e2: real, numPixels: nat)
    reads m
  {
    && m.Length0 == numPixels && m.Length1 == numPixels
    && forall n, k :: 0 <= n < numPixels && 0 <= k < numPixels ==> m[n, k] == RowValue(lSh, a, b, e1, e2, n)
  }

  /**
   * calculate_discrete_illumination: allocates an N x N matrix and overwrites it row by row.
   * Computing `a // l_sh` raises ZeroDivisionError when l_sh is 0, before any matrix exists;
   * l_ap and the two boundary indices do not influence the values.
   */
  method CalculateDiscreteIllumination(lAp: real, lSh: real, a: real, b: real, e1: real, e2: real, numPixels: nat)
    returns (r: Option<array2<real>>)
    ensures r.None? <==> lSh == 0.0
    ensures r.Some? ==> IsIllumination(r.value, lSh, a, b, e1, e2, numPixels)
  {
    if lSh == 0.0 {
      return None;
    }
    var m := new real[numPixels, numPixels];
    for n := 0 to numPixels
      invariant forall i, k :: 0 <= i < n && 0 <= k < numPixels ==> m[i, k] == RowValue(lSh, a, b, e1, e2, i)
    {
      var x := Centre(lSh, n);
      var v: real;
      if x <= a {
        v := e1;
      } else if x >= b {
        v := e2;
      } else {
        v := e1 + (e2 - e1) * (x - a) / (b - a);
      }
      forall k | 0 <= k < numPixels {
        m[n, k] := v;
      }
    }
    return Some(m);
  }

  /** validate_parameters: the first failing check decides the error; Pass when all hold. */
  function Validate(lAp: real, lSh: real, a: real, b: real, numPixels: int): (r: Outcome<ParameterError>)
    ensures r == Pass <==>
      && 1.0 <= lAp <= 10.0 && 1.0 <= lSh <= 10.0 && lAp <= lSh && a < b
      && 0.0 < a < numPixels as real * lSh && 0.0 < b < numPixels as real * lSh
    ensures r == Fail(SizeOutOfRange) <==> !(1.0 <= lAp <= 10.0 && 1.0 <= lSh <= 10.0)
    ensures r == Fail(ApertureWiderThanPitch) <==> 1.0 <= lAp <= 10.0 && 1.0 <= lSh <= 10.0 && lAp > lSh
    ensures r == Fail(ZoneNotOrdered) <==> 1.0 <= lAp <= lSh <= 10.0 && a >= b
    ensures r == Fail(ZoneStartOutOfRange) <==>
      1.0 <= lAp <= lSh <= 10.0 && a < b && !(0.0 < a < numPixels as real * lSh)
    ensures r == Fail(ZoneEndOutOfRange) <==>
      1.0 <= lAp <= lSh <= 10.0 && a < b && 0.0 < a < numPixels as real * lSh && !(0.0 < b < numPixels as real * lSh)
  {
    if !(1.0 <= lAp <= 10.0 && 1.0 <= lSh <= 10.0) then Fail(SizeOutOfRange)
    else if lAp > lSh then Fail(ApertureWiderThanPitch)
    else if a >= b then Fail(ZoneNotOrdered)
    else if !(0.0 < a < numPixels as real * lSh) then Fail(ZoneStartOutOfRange)
    else if !(0.0 < b < numPixels as real * lSh) then Fail(ZoneEndOutOfRange)
    else Pass
  }

  /** The interpolated value lies between its two end values. */
  lemma InterpolationBetween(e1: real, e2: real, x: real, a: real, b: real)
    requires a < x < b
    ensures e1 <= e2 ==> e1 <= e1 + (e2 - e1) * (x - a) / (b - a) <= e2
    ensures e2 <= e1 ==> e2 <= e1 + (e2 - e1) * (x - a) / (b - a) <= e1
  {
    var k, d := e2 - e1, b - a;
    var t := (x - a) / d;
    FractionInUnit(x - a, d);
    MulDivAssoc(k, x - a, d);
    if k >= 0.0 {
      MultiplyMonotone(k, 0.0, t);
      MultiplyMonotone(k, t, 1.0);
    } else {
      MultiplyMonotone(-k, 0.0, t);
      MultiplyMonotone(-k, t, 1.0);
    }
  }

  /** A part of a positive whole is a fraction in [0, 1]. */
  lemma FractionInUnit(p: real, d: real)
    requires 0.0 <= p <= d && d > 0.0
    ensures 0.0 <= p / d <= 1.0
  {
    assert p / d * d == p;
  }

  lemma MulDivAssoc(k: real, p: real, d: real)
    requires d != 0.0
    ensures k * p / d == k * (p / d)
  {
  }

  /** With a positive pitch and E1 <= E2, illumination does not decrease along the rows. */
  lemma RowValueMonotone(lSh: real, a: real, b: real, e1: real, e2: real, n: nat, n': nat)
    requires lSh > 0.0 && e1 <= e2 && n <= n'
    ensures RowValue(lSh, a, b, e1, e2, n) <= RowValue(lSh, a, b, e1, e2, n')
  {
    var x, x' := Centre(lSh, n), Centre(lSh, n');
    CentreMonotone(lSh, n, n');
    if a < x && x' < b {
      InterpolateMonotone(e1, e2, x, x', a, b);
    }
  }

  /** Photodiode centres increase with the row index. */
  lemma CentreMonotone(lSh: real, n: nat, n': nat)
    requires lSh > 0.0 && n <= n'
    ensures Centre(lSh, n) <= Centre(lSh, n')
  {
    MultiplyMonotone(lSh, n as real + 0.5, n' as real + 0.5);
  }

  /** With E1 <= E2 the interpolation does not decrease across (a, b). */
  lemma InterpolateMonotone(e1: real, e2: real, x: real, x': real, a: real, b: real)
    requires e1 <= e2 && a < x <= x' < b
    ensures Interpolate(e1, e2, x, a, b) <= Interpolate(e1, e2, x', a, b)
  {
    var k, d := e2 - e1, b - a;
    assert Interpolate(e1, e2, x, a, b) == e1 + k * (x - a) / d;
    assert Interpolate(e1, e2, x', a, b) == e1 + k * (x' - a) / d;
    MultiplyMonotone(k, x - a, x' - a);
    DivideMonotone(k * (x - a), k * (x' - a), d);
  }

  /** Multiplying by a non-negative number keeps the order. */
  lemma MultiplyMonotone(k: real, p: real, q: real)
    requires k >= 0.0 && p <= q
    ensures k * p <= k * q
  {
    assert k * q - k * p == k * (q - p);
  }

  /** Dividing by a positive number keeps the order. */
  lemma DivideMonotone(p: real, q: real, d: real)
    requires p <= q && d > 0.0
    ensures p / d <= q / d
  {
    var u, w := p / d, q / d;
    assert u * d == p && w * d == q;
    assert (w - u) * d == q - p;
  }

  /** Validated parameters have a positive pitch, so the calculation succeeds and the rows are ordered. */
  lemma ValidatedIsComputable(lAp: real, lSh: real, a: real, b: real, e1: real, e2: real, numPixels: int, n: nat, n': nat)
    requires Validate(lAp, lSh, a, b, numPixels) == Pass
    requires e1 <= e2 && n <= n'
    ensures lSh != 0.0 && a < b && numPixels > 0
    ensures RowValue(lSh, a, b, e1, e2, n) <= RowValue(lSh, a, b, e1, e2, n')
  {
    RowValueMonotone(lSh, a, b, e1, e2, n, n');
  }
}
