/**
 * The dynamically typed values that the analyzer's result records hold. Python scalars,
 * numpy scalars and numpy arrays are kept apart because `save_results` treats each kind
 * differently.
 */
module Values {

  /** One field value of a result record. */
  datatype Value =
    | PyFloat(x: real)         // a Python float
    | PyInt(i: int)            // a Python int
    | NpFloat(x: real)         // a numpy floating scalar (np.float64)
    | NpInt(i: int)            // a numpy integer scalar
    | Tuple(items: seq<Value>) // a Python tuple
    | List(items: seq<Value>)  // a Python list, as `ndarray.tolist()` returns
    | NdArray(items: seq<Value>) // a numpy array: its rows are arrays, its leaves numpy scalars
    | PyNone                   // Python's None

  /** One metric category's record: a dict from field name to value. */
  type Record = map<string, Value>

  /** A one-dimensional float64 array. */
  function FloatArray(xs: seq<real>): (v: Value)
    ensures v.NdArray? && |v.items| == |xs|
    ensures forall i :: 0 <= i < |xs| ==> v.items[i] == NpFloat(xs[i])
  {
    NdArray(seq(|xs|, i requires 0 <= i < |xs| => NpFloat(xs[i])))
  }

  /** A one-dimensional integer array. */
  function IntArray(xs: seq<int>): (v: Value)
    ensures v.NdArray? && |v.items| == |xs|
    ensures forall i :: 0 <= i < |xs| ==> v.items[i] == NpInt(xs[i])
  {
    NdArray(seq(|xs|, i requires 0 <= i < |xs| => NpInt(xs[i])))
  }

  /** A two-dimensional float64 array, row by row. */
  function FloatMatrix(g: seq<seq<real>>): (v: Value)
    ensures v.NdArray? && |v.items| == |g|
    ensures forall r :: 0 <= r < |g| ==> v.items[r] == FloatArray(g[r])
  {
    NdArray(seq(|g|, r requires 0 <= r < |g| => FloatArray(g[r])))
  }

  /** A two-dimensional integer array, row by row. */
  function IntMatrix(g: seq<seq<int>>): (v: Value)
    ensures v.NdArray? && |v.items| == |g|
    ensures forall r :: 0 <= r < |g| ==> v.items[r] == IntArray(g[r])
  {
    NdArray(seq(|g|, r requires 0 <= r < |g| => IntArray(g[r])))
  }

  /** `ndarray.tolist()` and the scalar conversions it performs on every element. */
  function ToList(v: Value): (w: Value)
    decreases v
  {
    match v
    case NdArray(items) => List(seq(|items|, i requires 0 <= i < |items| => ToList(items[i])))
    case NpFloat(x) => PyFloat(x)
    case NpInt(i) => PyInt(i)
    case _ => v
  }

  /** A value built only from Python's own types, as `json.dump` writes them natively. */
  predicate IsNative(v: Value)
    decreases v
  {
    match v
    case PyFloat(_) => true
    case PyInt(_) => true
    case PyNone => true
    case NpFloat(_) => false
    case NpInt(_) => false
    case NdArray(_) => false
    case Tuple(items) => forall i :: 0 <= i < |items| ==> IsNative(items[i])
    case List(items) => forall i :: 0 <= i < |items| ==> IsNative(items[i])
  }

  /** A value free of numpy scalars and numpy arrays at every depth. */
  predicate NumpyFree(v: Value)
    decreases v
  {
    match v
    case NpFloat(_) => false
    case NpInt(_) => false
    case NdArray(_) => false
    case Tuple(items) => forall i :: 0 <= i < |items| ==> NumpyFree(items[i])
    case List(items) => forall i :: 0 <= i < |items| ==> NumpyFree(items[i])
    case _ => true
  }

  /** A numpy array of numbers: nested arrays whose leaves are numpy scalars. */
  predicate NumericArray(v: Value)
    decreases v
  {
    match v
    case NdArray(items) => forall i :: 0 <= i < |items| ==> NumericLeaf(items[i])
    case _ => false
  }

  /** An element of a numeric array: a numpy scalar or a numeric sub-array. */
  predicate NumericLeaf(v: Value)
    decreases v
  {
    match v
    case NpFloat(_) => true
    case NpInt(_) => true
    case NdArray(items) => forall i :: 0 <= i < |items| ==> NumericLeaf(items[i])
    case _ => false
  }

  /** The numbers a value holds, in order, whatever Python or numpy type carries them. */
  function Numbers(v: Value): seq<real>
    decreases v
  {
    match v
    case PyFloat(x) => [x]
    case PyInt(i) => [i as real]
    case NpFloat(x) => [x]
    case NpInt(i) => [i as real]
    case PyNone => []
    case Tuple(items) => NumbersOf(items)
    case List(items) => NumbersOf(items)
    case NdArray(items) => NumbersOf(items)
  }

  function NumbersOf(items: seq<Value>): seq<real>
    decreases items
  {
    if items == [] then [] else NumbersOf(items[..|items| - 1]) + Numbers(items[|items| - 1])
  }

  /**
   * `tolist()` turns an array into a list of the same length holding only Python values,
   * and keeps every number and its position.
   */
  lemma {:induction false} ToListFaithful(v: Value)
    requires NumericLeaf(v)
    ensures NumpyFree(ToList(v))
    ensures Numbers(ToList(v)) == Numbers(v)
    ensures v.NdArray? ==> ToList(v).List? && |ToList(v).items| == |v.items|
    decreases v
  {
    match v
    case NdArray(items) =>
      var out := seq(|items|, i requires 0 <= i < |items| => ToList(items[i]));
      forall i | 0 <= i < |items| ensures NumpyFree(out[i]) && Numbers(out[i]) == Numbers(items[i]) {
        ToListFaithful(items[i]);
      }
      NumbersOfPointwise(out, items);
    case _ =>
  }

  /** Sequences of values holding the same numbers element by element hold the same numbers. */
  lemma {:induction false} NumbersOfPointwise(xs: seq<Value>, ys: seq<Value>)
    requires |xs| == |ys|
    requires forall i :: 0 <= i < |xs| ==> Numbers(xs[i]) == Numbers(ys[i])
    ensures NumbersOf(xs) == NumbersOf(ys)
    decreases |xs|
  {
    if xs != [] {
      NumbersOfPointwise(xs[..|xs| - 1], ys[..|ys| - 1]);
    }
  }

  /** Arrays built from numbers are numeric arrays, at one and at two dimensions. */
  lemma FloatArrayNumeric(xs: seq<real>)
    ensures NumericArray(FloatArray(xs)) && NumericLeaf(FloatArray(xs))
  {
  }

  lemma IntArrayNumeric(xs: seq<int>)
    ensures NumericArray(IntArray(xs)) && NumericLeaf(IntArray(xs))
  {
  }

  lemma FloatMatrixNumeric(g: seq<seq<real>>)
    ensures NumericArray(FloatMatrix(g))
  {
    forall r | 0 <= r < |g| ensures NumericLeaf(FloatMatrix(g).items[r]) {
      FloatArrayNumeric(g[r]);
    }
  }

  lemma IntMatrixNumeric(g: seq<seq<int>>)
    ensures NumericArray(IntMatrix(g))
  {
    forall r | 0 <= r < |g| ensures NumericLeaf(IntMatrix(g).items[r]) {
      IntArrayNumeric(g[r]);
    }
  }
}
