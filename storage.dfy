/**
 * Every record the analysis steps compute holds only values `save_results` knows how to convert:
 * numeric numpy arrays, numpy scalars, and Python numbers, tuples of them and None.
 */
module Storage {
  import opened Wrappers
  import opened Values
  import opened Pixels
  import Mtf
  import Discretization
  import Noise
  import Contrast
  import Resolution
  import opened Serialization

  /** Both forms of the `mtf` record are storable, so every `mtf` record is. */
  lemma CurveRecordStorable(c: Mtf.Curve)
    ensures StorableRecord(Mtf.CurveRecord(c))
  {
    FloatArrayNumeric(c.frequencies);
    FloatArrayNumeric(c.values);
  }

  lemma DegenerateRecordStorable()
    ensures StorableRecord(Mtf.DegenerateRecord())
  {
    IntArrayNumeric([0]);
    FloatArrayNumeric([1.0]);
  }

  lemma MtfStorable(g: Gray, edges: Option<seq<seq<bool>>>, fft: Mtf.Magnitude)
    requires edges.Some? ==> SameShape(edges.value, g)
    ensures StorableRecord(Mtf.MtfRecord(g, edges, fft))
  {
    DegenerateRecordStorable();
    forall c: Mtf.Curve ensures StorableRecord(Mtf.CurveRecord(c)) {
      CurveRecordStorable(c);
    }
  }

  /** The `discretization_artifacts` record, computed or fallback, is storable. */
  lemma DiscretizationStorable(g: Gray, spectrum: Option<seq<seq<real>>>, log2: real -> real)
    requires spectrum.Some? ==> SameShape(spectrum.value, g)
    ensures StorableRecord(Discretization.DiscretizationRecord(g, spectrum, log2))
  {
    var r := Discretization.DiscretizationRecord(g, spectrum, log2);
    match spectrum
    case None =>
      FloatMatrixNumeric(seq(10, _ => seq(10, _ => 0.0)));
    case Some(m) =>
      FloatMatrixNumeric(m);
      forall k | k in r ensures Storable(r[k]) {
        if k == "magnitude_spectrum" {
          assert r[k] == FloatMatrix(m);
        }
      }
  }

  /** The `noise` record, computed or fallback, is storable. */
  lemma NoiseStorable(g: Gray, median: Option<seq<seq<Byte>>>, sqrt: real -> real, log10: real -> real)
    requires median.Some? ==> SameShape(median.value, g)
    ensures StorableRecord(Noise.NoiseRecord(g, median, sqrt, log10))
  {
    match median
    case None =>
      IntMatrixNumeric(seq(Height(g), _ => seq(Width(g), _ => 0)));
    case Some(md) =>
      FloatMatrixNumeric(Noise.Residual(g, md));
  }

  /** A pair of Python values is a Python value. */
  lemma PairNative(a: Value, b: Value)
    requires IsNative(a) && IsNative(b)
    ensures IsNative(Tuple([a, b]))
  {
    assert forall i :: 0 <= i < 2 ==> [a, b][i] == a || [a, b][i] == b;
  }

  /** The `contrast` record holds Python floats and a tuple of two ints. */
  lemma ContrastStorable(g: Gray, localContrast: Option<real>, sqrt: real -> real)
    ensures StorableRecord(Contrast.ContrastRecord(g, localContrast, sqrt))
  {
    var ps := PixelsOf(g);
    PairNative(PyInt(MinOf(ps)), PyInt(MaxOf(ps)));
  }

  /** The `resolution` record, whatever scale record is stored, and the minimal entry are storable. */
  lemma ResolutionStorable(g: Gray, texture: Option<real>, scale: Option<Record>)
    ensures StorableRecord(Resolution.ResolutionRecord(g, texture, scale))
    ensures StorableRecord(Resolution.MinimalResolution(g))
  {
    PairNative(PyFloat(Width(g) as real / 2.0), PyFloat(Height(g) as real / 2.0));
  }

  /** The `scale` record holds Python floats and a tuple of two of them. */
  lemma ScaleStorable(s: Resolution.Scale)
    ensures StorableRecord(Resolution.ScaleRecord(s))
  {
    PairNative(PyFloat(s.x), PyFloat(s.y));
  }
}
