/** JavaScript values as they appear in a vault's insensitive record (a `PlainObject`). */
module Json {

  import opened Wrappers

  /** A JavaScript number: an integral value, a non-integral one (fractions and
      the infinities), or NaN. This is exactly what `Number.isInteger` and
      truthiness distinguish. */
  datatype Number = Integral(value: int) | NonIntegral | NaN

  datatype Json =
    | Null
    | Bool(b: bool)
    | Num(n: Number)
    | Str(s: string)
    | Obj(fields: map<string, Json>)

  /** A plain object; a key that is absent reads as `undefined`. */
  type Bag = map<string, Json>

  /** JavaScript truthiness of a number: only 0 and NaN are falsy. */
  predicate NumberTruthy(n: Number) {
    match n
    case Integral(v) => v != 0
    case NonIntegral => true
    case NaN => false
  }

  /** JavaScript truthiness. */
  predicate Truthy(v: Json) {
    match v
    case Null => false
    case Bool(b) => b
    case Num(n) => NumberTruthy(n)
    case Str(s) => s != ""
    case Obj(_) => true
  }

  /** `obj[key]` is truthy (`undefined` is falsy). */
  predicate FieldTruthy(obj: Bag, key: string) {
    key in obj && Truthy(obj[key])
  }

  /** `obj[key]`, with `undefined` as `None`. */
  function Field(obj: Bag, key: string): (r: Option<Json>)
    ensures r.Some? <==> key in obj
    ensures r.Some? ==> r.value == obj[key]
  {
    if key in obj then Some(obj[key]) else None
  }

  /** The object spread `{...obj, ...patch}`: keys of `patch` win. */
  function Merge(obj: Bag, patch: Bag): (r: Bag)
    ensures r.Keys == obj.Keys + patch.Keys
    ensures forall k :: k in patch ==> r[k] == patch[k]
    ensures forall k :: k in obj && k !in patch ==> r[k] == obj[k]
  {
    obj + patch
  }

  /** Merging a one-field patch is a single-field update. */
  lemma MergeOne(obj: Bag, k: string, v: Json)
    ensures Merge(obj, map[k := v]) == obj[k := v]
  {
    assert Merge(obj, map[k := v]).Keys == obj[k := v].Keys;
  }
}
