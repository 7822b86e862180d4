/**
 * The field filter `save_results` applies before writing the results as JSON: the two large
 * arrays and all None fields are dropped, other arrays become lists, numpy scalars become Python
 * floats, and every other value is kept as it is.
 */
module Serialization {
  import opened Wrappers
  import opened Values

  /** The array fields too large to save. */
  predicate Excluded(key: string) {
    key == "magnitude_spectrum" || key == "noise_image"
  }

  /** What becomes of field `key` with value v: its saved value, or None when it is dropped. */
  function SerializeField(key: string, v: Value): (o: Option<Value>)
    ensures o.None? <==> v.PyNone? || (v.NdArray? && Excluded(key))
    ensures o.Some? && v.NdArray? ==> o.value == ToList(v)
    ensures o.Some? && (v.NpFloat? || v.NpInt?) ==> o.value == PyFloat(Numbers(v)[0])
    ensures o.Some? && !v.NdArray? && !v.NpFloat? && !v.NpInt? ==> o.value == v
  {
    match v
    case NdArray(_) => if !Excluded(key) then Some(ToList(v)) else None
    case NpFloat(x) => Some(PyFloat(x))
    case NpInt(i) => Some(PyFloat(i as real))
    case PyNone => None
    case _ => Some(v)
  }

  /** The fields of one record that survive, with their saved values. */
  function SerializeRecord(rec: Record): (out: Record)
    ensures out.Keys <= rec.Keys
    ensures forall k :: k in rec ==> (k in out <==> SerializeField(k, rec[k]).Some?)
    ensures forall k :: k in out ==> out[k] == SerializeField(k, rec[k]).value
  {
    map k | k in rec && SerializeField(k, rec[k]).Some? :: SerializeField(k, rec[k]).value
  }

  /** The dictionary `save_results` hands to `json.dump`: every category, each record filtered. */
  function Serialize(results: map<string, Record>): (out: map<string, Record>)
    ensures out.Keys == results.Keys
    ensures forall k :: k in out ==> out[k] == SerializeRecord(results[k])
  {
    map k | k in results :: SerializeRecord(results[k])
  }

  /** A value the analyzer stores: numeric arrays, or Python numbers, tuples of them and None. */
  predicate Storable(v: Value) {
    match v
    case NdArray(_) => NumericArray(v)
    case NpFloat(_) => true
    case NpInt(_) => true
    case _ => IsNative(v)
  }

  /** Every field of the record is storable. */
  predicate StorableRecord(rec: Record) {
    forall k :: k in rec ==> Storable(rec[k])
  }

  /** Every record of the results dictionary is storable. */
  predicate StorableResults(results: map<string, Record>) {
    forall c :: c in results ==> StorableRecord(results[c])
  }

  /** What `json.dump` can write without a custom encoder: no numpy value in any field. */
  predicate JsonReady(saved: map<string, Record>) {
    forall c, k :: c in saved && k in saved[c] ==> NumpyFree(saved[c][k])
  }

  // ---------------------------------------------------------------- properties

  /** The saved record never holds an excluded array or a None. */
  lemma DropsLargeArraysAndNone(rec: Record)
    ensures forall k :: k in SerializeRecord(rec) ==> !SerializeRecord(rec)[k].PyNone?
    ensures forall k :: k in rec && rec[k].NdArray? && Excluded(k) ==> k !in SerializeRecord(rec)
    ensures forall k :: k in rec && rec[k].PyNone? ==> k !in SerializeRecord(rec)
  {
    forall k | k in SerializeRecord(rec) ensures !SerializeRecord(rec)[k].PyNone? {
      var v := rec[k];
      if v.NdArray? {
        assert SerializeRecord(rec)[k] == ToList(v);
      }
    }
  }

  /** Any other field stays, unchanged, an array becoming a list and a numpy scalar a float. */
  lemma KeepsTheRest(rec: Record, k: string)
    requires k in rec && !rec[k].PyNone? && !(rec[k].NdArray? && Excluded(k))
    ensures k in SerializeRecord(rec)
    ensures rec[k].NdArray? ==> SerializeRecord(rec)[k] == ToList(rec[k])
    ensures rec[k].NpFloat? ==> SerializeRecord(rec)[k] == PyFloat(rec[k].x)
    ensures rec[k].NpInt? ==> SerializeRecord(rec)[k] == PyFloat(rec[k].i as real)
    ensures !rec[k].NdArray? && !rec[k].NpFloat? && !rec[k].NpInt? ==> SerializeRecord(rec)[k] == rec[k]
  {
  }

  /**
   * When every stored value is storable, the saved record holds no numpy value at any depth, and
   * each saved field holds the same numbers, in order, as the field it came from.
   */
  lemma SavedIsNumpyFree(rec: Record)
    requires forall k :: k in rec ==> Storable(rec[k])
    ensures forall k :: k in SerializeRecord(rec) ==> NumpyFree(SerializeRecord(rec)[k])
    ensures forall k :: k in SerializeRecord(rec) ==> Numbers(SerializeRecord(rec)[k]) == Numbers(rec[k])
  {
    var out := SerializeRecord(rec);
    forall k | k in out ensures NumpyFree(out[k]) && Numbers(out[k]) == Numbers(rec[k]) {
      var v := rec[k];
      match v
      case NdArray(_) =>
        ToListFaithful(v);
      case NpFloat(_) =>
      case NpInt(_) =>
      case _ =>
        NativeIsNumpyFree(v);
    }
  }

  /** Python values hold no numpy values. */
  lemma {:induction false} NativeIsNumpyFree(v: Value)
    requires IsNative(v)
    ensures NumpyFree(v)
    decreases v
  {
    match v
    case Tuple(items) =>
      forall i | 0 <= i < |items| ensures NumpyFree(items[i]) {
        NativeIsNumpyFree(items[i]);
      }
    case List(items) =>
      forall i | 0 <= i < |items| ensures NumpyFree(items[i]) {
        NativeIsNumpyFree(items[i]);
      }
    case _ =>
  }

  /** Saving twice is saving once: the saved dictionary is a fixed point of the filter. */
  lemma SerializeIdempotent(results: map<string, Record>)
    requires StorableResults(results)
    ensures Serialize(Serialize(results)) == Serialize(results)
  {
    var once := Serialize(results);
    forall c | c in once ensures SerializeRecord(once[c]) == once[c] {
      var rec := results[c];
      SavedIsNumpyFree(rec);
      var r1 := once[c];
      forall k | k in r1 ensures SerializeField(k, r1[k]) == Some(r1[k]) {
        var v := r1[k];
        assert NumpyFree(v);
        assert !v.PyNone? by {
          DropsLargeArraysAndNone(rec);
        }
      }
    }
  }

  /** Saving storable results gives a dictionary `json.dump` can write, which saving again leaves as it is. */
  lemma SavedJsonReady(results: map<string, Record>)
    requires StorableResults(results)
    ensures JsonReady(Serialize(results))
    ensures Serialize(Serialize(results)) == Serialize(results)
  {
    forall c | c in results ensures forall k :: k in Serialize(results)[c] ==> NumpyFree(Serialize(results)[c][k]) {
      SavedIsNumpyFree(results[c]);
    }
    SerializeIdempotent(results);
  }
}
