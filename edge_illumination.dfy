/**
 * Discrete illumination of an N x N photodiode matrix crossed by one sharp illumination
 * boundary at position a (progs/VKR.py). Rows before the photodiode the boundary crosses
 * receive E1, rows after it E2, and that one transition row receives an aperture-weighted
 * mix of E1 and E2.
 */
module EdgeIllumination {
  import opened Wrappers

  /** Why `validate_parameters` rejects a parameter set, in the order it checks. */
  datatype ParameterError =
    | SizeOutOfRange          // l_ap or l_sh outside [1, 10]
    | ApertureWiderThanPitch  // l_ap > l_sh
    | EdgeOutOfRange          // a outside (l_sh, (N - 1) * l_sh)

  /**
   * n_a = int((a + l_sh / 2) // l_sh): the 1-based index of the photodiode the boundary crosses,
   * which rounds the boundary position in pitches to the nearest integer (halves round up).
   */
  function TransitionIndex(lSh: real, a: real): (k: int)
    requires lSh != 0.0
    ensures k as real <= a / lSh + 0.5 < k as real + 1.0
  {
    HalfStep(a, lSh);
    ((a + lSh / 2.0) / lSh).Floor
  }

  /**
   * Offset of the boundary from the aperture centre of photodiode n_a. For the transition index
   * and a positive pitch it lies within half a pitch.
   */
  function Delta(lSh: real, a: real, nA: int): (d: real)
    ensures lSh > 0.0 && nA == TransitionIndex(lSh, a) ==> -lSh / 2.0 < d <= lSh / 2.0
  {
    OffsetWithinHalfPitch(lSh, a, nA);
    lSh * nA as real - a
  }

  /** Illumination of the transition row n_a - 1, which lies between E1 and E2. */
  function TransitionValue(lAp: real, lSh: real, a: real, e1: real, e2: real, nA: int): (v: real)
    ensures e1 <= e2 ==> e1 <= v <= e2
    ensures e2 <= e1 ==> e2 <= v <= e1
  {
    var delta := Delta(lSh, a, nA);
    if delta >= lAp / 2.0 then e2
    else if delta <= -lAp / 2.0 then e1
    else
      WeightedBetween(lAp, delta, e1, e2);
      ((lAp / 2.0 - delta) * e1 + (lAp / 2.0 + delta) * e2) / lAp
  }

  /** Illumination of every photodiode of row n, given the transition index n_a; it lies between E1 and E2. */
  function CellValue(lAp: real, lSh: real, a: real, e1: real, e2: real, nA: int, n: int): (v: real)
    ensures e1 <= e2 ==> e1 <= v <= e2
    ensures e2 <= e1 ==> e2 <= v <= e1
  {
    if n < nA - 1 then e1
    else if n > nA - 1 then e2
    else TransitionValue(lAp, lSh, a, e1, e2, nA)
  }

  /** The matrix `calculate_discrete_illumination` is specified to return. */
  ghost predicate IsIllumination(m: array2<real>, lAp: real, lSh: real, a: real, e1: real, e2: real, numPixels: nat)
    reads m
    requires lSh != 0.0
  {
    && m.Length0 == numPixels && m.Length1 == numPixels
    && forall n, k :: 0 <= n < numPixels && 0 <= k < numPixels ==>
         m[n, k] == CellValue(lAp, lSh, a, e1, e2, TransitionIndex(lSh, a), n)
  }

  /**
   * calculate_discrete_illumination: fills the matrix cell by cell in two nested loops.
   * The floor division computing n_a raises ZeroDivisionError when l_sh is 0.
   */
  method CalculateDiscreteIllumination(lAp: real, lSh: real, a: real, e1: real, e2: real, numPixels: nat)
    returns (r: Option<array2<real>>)
    ensures r.None? <==> lSh == 0.0
    ensures r.Some? ==> IsIllumination(r.value, lAp, lSh, a, e1, e2, numPixels)
  {
    if lSh == 0.0 {
      return None;
    }
    var nA := ((a + lSh / 2.0) / lSh).Floor;
    var m := new real[numPixels, numPixels];
    for n := 0 to numPixels
      invariant forall i, k :: 0 <= i < n && 0 <= k < numPixels ==> m[i, k] == CellValue(lAp, lSh, a, e1, e2, nA, i)
    {
      for k := 0 to numPixels
        invariant forall i, j :: 0 <= i < n && 0 <= j < numPixels ==> m[i, j] == CellValue(lAp, lSh, a, e1, e2, nA, i)
        invariant forall j :: 0 <= j < k ==> m[n, j] == CellValue(lAp, lSh, a, e1, e2, nA, n)
      {
        if n < nA - 1 {
          m[n, k] := e1;
        } else if n > nA - 1 {
          m[n, k] := e2;
        } else {
          var delta := lSh * nA as real - a;
          if delta >= lAp / 2.0 {
            m[n, k] := e2;
          } else if delta <= -lAp / 2.0 {
            m[n, k] := e1;
          } else {
            m[n, k] := ((lAp / 2.0 - delta) * e1 + (lAp / 2.0 + delta) * e2) / lAp;
          }
        }
      }
    }
    return Some(m);
  }

  /** validate_parameters: the first failing check decides the error; Pass when all hold. */
  function Validate(lAp: real, lSh: real, a: real, numPixels: int): (r: Outcome<ParameterError>)
    ensures r == Pass <==>
      1.0 <= lAp <= lSh <= 10.0 && lSh < a < (numPixels - 1) as real * lSh
    ensures r == Fail(SizeOutOfRange) <==> !(1.0 <= lAp <= 10.0 && 1.0 <= lSh <= 10.0)
    ensures r == Fail(ApertureWiderThanPitch) <==> 1.0 <= lAp <= 10.0 && 1.0 <= lSh <= 10.0 && lAp > lSh
    ensures r == Fail(EdgeOutOfRange) <==>
      1.0 <= lAp <= lSh <= 10.0 && !(lSh < a < (numPixels - 1) as real * lSh)
  {
    if !(1.0 <= lAp <= 10.0 && 1.0 <= lSh <= 10.0) then Fail(SizeOutOfRange)
    else if lAp > lSh then Fail(ApertureWiderThanPitch)
    else if !(lSh < a < (numPixels - 1) as real * lSh) then Fail(EdgeOutOfRange)
    else Pass
  }

  /**
   * In the mixed branch both aperture weights are positive and add up to l_ap (so l_ap > 0
   * and the division is defined), and the value lies strictly between distinct E1 and E2.
   */
  lemma MixedBranchIsConvex(lAp: real, lSh: real, a: real, e1: real, e2: real, nA: int)
    requires -lAp / 2.0 < Delta(lSh, a, nA) < lAp / 2.0
    ensures lAp > 0.0
    ensures lAp / 2.0 - Delta(lSh, a, nA) > 0.0 && lAp / 2.0 + Delta(lSh, a, nA) > 0.0
    ensures (lAp / 2.0 - Delta(lSh, a, nA)) + (lAp / 2.0 + Delta(lSh, a, nA)) == lAp
    ensures e1 < e2 ==> e1 < TransitionValue(lAp, lSh, a, e1, e2, nA) < e2
    ensures e2 < e1 ==> e2 < TransitionValue(lAp, lSh, a, e1, e2, nA) < e1
  {
    WeightedBetween(lAp, Delta(lSh, a, nA), e1, e2);
  }

  /**
   * Weights l_ap / 2 - delta and l_ap / 2 + delta, both positive inside the aperture, mix E1 and
   * E2 into a value strictly between distinct E1 and E2, and equal to them when they agree.
   */
  lemma WeightedBetween(lAp: real, delta: real, e1: real, e2: real)
    requires -lAp / 2.0 < delta < lAp / 2.0
    ensures lAp > 0.0
    ensures var v := ((lAp / 2.0 - delta) * e1 + (lAp / 2.0 + delta) * e2) / lAp;
      && (e1 < e2 ==> e1 < v < e2)
      && (e2 < e1 ==> e2 < v < e1)
      && (e1 == e2 ==> v == e1)
  {
    var w1, w2 := lAp / 2.0 - delta, lAp / 2.0 + delta;
    var s := w1 * e1 + w2 * e2;
    assert w1 + w2 == lAp;
    assert s - lAp * e1 == w2 * (e2 - e1);
    assert lAp * e2 - s == w1 * (e2 - e1);
    if e1 < e2 {
      ScaleOrder(w2, 0.0, e2 - e1);
      ScaleOrder(w1, 0.0, e2 - e1);
      DivideBetween(s, e1, e2, lAp);
    } else if e2 < e1 {
      ScaleOrder(w2, e2 - e1, 0.0);
      ScaleOrder(w1, e2 - e1, 0.0);
      DivideBetween(s, e2, e1, lAp);
    } else {
      DivideBetween(s, e1, e1, lAp);
    }
  }

  /** A value between l * lo and l * hi, divided by a positive l, lies between lo and hi. */
  lemma DivideBetween(s: real, lo: real, hi: real, l: real)
    requires l > 0.0 && l * lo <= s <= l * hi
    ensures lo <= s / l <= hi
    ensures l * lo < s ==> lo < s / l
    ensures s < l * hi ==> s / l < hi
  {
    var q := s / l;
    assert q * l == s;
    assert l * (q - lo) == s - l * lo;
    assert l * (hi - q) == l * hi - s;
  }

  /** When E1 <= E2 the illumination does not decrease along the rows, for any parameters. */
  lemma CellValueMonotone(lAp: real, lSh: real, a: real, e1: real, e2: real, nA: int, n: int, n': int)
    requires e1 <= e2 && n <= n'
    ensures CellValue(lAp, lSh, a, e1, e2, nA, n) <= CellValue(lAp, lSh, a, e1, e2, nA, n')
  {
  }

  /** Multiplying by a positive pitch preserves order. */
  lemma ScaleOrder(c: real, x: real, y: real)
    requires c > 0.0
    ensures x <= y ==> c * x <= c * y
    ensures x < y ==> c * x < c * y
  {
  }

  /** A product with a non-zero factor vanishes only when the other factor does. */
  lemma ZeroFactor(x: real, c: real)
    requires c != 0.0 && x * c == 0.0
    ensures x == 0.0
  {
  }

  /** (a + l_sh / 2) / l_sh is a / l_sh shifted by one half. */
  lemma HalfStep(a: real, lSh: real)
    requires lSh != 0.0
    ensures (a + lSh / 2.0) / lSh == a / lSh + 0.5
  {
    var w, u := (a + lSh / 2.0) / lSh, a / lSh;
    assert w * lSh == a + lSh / 2.0;
    assert u * lSh == a;
    assert (u + 0.5) * lSh == u * lSh + 0.5 * lSh;
    assert (w - (u + 0.5)) * lSh == 0.0;
    ZeroFactor(w - (u + 0.5), lSh);
  }

  /** Under validated parameters the boundary, measured in pitches, lies strictly between 1 and N - 1. */
  lemma ValidatedPitches(lAp: real, lSh: real, a: real, numPixels: int)
    requires Validate(lAp, lSh, a, numPixels) == Pass
    ensures lSh > 0.0 && a == lSh * (a / lSh)
    ensures 1.0 < a / lSh < (numPixels - 1) as real
  {
    var u := a / lSh;
    var top := (numPixels - 1) as real;
    assert a == lSh * u;
    assert u > 1.0 by {
      ScaleOrder(lSh, u, 1.0);
    }
    assert u < top by {
      ScaleOrder(lSh, top, u);
    }
  }

  /** Under validated parameters the transition row n_a - 1 is a row of the matrix other than the last. */
  lemma ValidatedTransitionRow(lAp: real, lSh: real, a: real, numPixels: int)
    requires Validate(lAp, lSh, a, numPixels) == Pass
    ensures 0 <= TransitionIndex(lSh, a) - 1 <= numPixels - 2
  {
    ValidatedPitches(lAp, lSh, a, numPixels);
    var nA := TransitionIndex(lSh, a);
    assert 0.5 < nA as real < numPixels as real - 0.5;
    assert 1 <= nA <= numPixels - 1;
  }

  /** For the transition index and a positive pitch, the boundary lies within half a pitch of the aperture centre. */
  lemma OffsetWithinHalfPitch(lSh: real, a: real, nA: int)
    ensures lSh > 0.0 && nA == TransitionIndex(lSh, a) ==> -lSh / 2.0 < lSh * nA as real - a <= lSh / 2.0
  {
    if lSh > 0.0 && nA == TransitionIndex(lSh, a) {
      var u := a / lSh;
      assert a == lSh * u;
      var d := nA as real - u;
      assert -0.5 < d <= 0.5;
      assert lSh * d == lSh * nA as real - lSh * u;
      assert lSh * d == lSh * nA as real - a;
      ScaleOrder(lSh, d, 0.5);
      ScaleOrder(lSh, -0.5, d);
      HalfOf(lSh);
      assert lSh * -0.5 < lSh * d <= lSh * 0.5;
    }
  }

  lemma HalfOf(x: real)
    ensures x / 2.0 == x * 0.5 && -x / 2.0 == x * -0.5
  {
  }
}
