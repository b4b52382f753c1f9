/**
 * Unwrapping of the provider's boxed values: the provider wraps scalars in
 * one-element arrays, and `unboxObject` takes the first element of the
 * fields it is told to unwrap.
 */
module Api {
  import opened Json

  /** `x[0]`: the first element, or `undefined` for an empty array. */
  function Unbox(x: seq<Json>): (r: Json)
    ensures |x| > 0 ==> r == x[0]
    ensures |x| == 0 ==> r == Undefined
  {
    if |x| > 0 then x[0] else Undefined
  }

  /** `unboxObject(v)` with no keys: an array gives its first element, anything else a shallow copy. */
  function UnboxValue(v: Json): (r: Json)
    ensures v.Arr? ==> r == Unbox(v.elems)
    ensures v.Obj? ==> r == v
    ensures v.Num? || v.Bool? || v.Null? || v.Undefined? ==> r == Obj(map[])
    ensures v.Str? ==> r == Obj(Spread(v))
  {
    if v.Arr? then Unbox(v.elems) else Obj(Spread(v))
  }

  /** Whether `unboxObject(_, keys)` unwraps the field `k`. */
  predicate Listed(keys: seq<string>, k: string) {
    |keys| > 0 && k in keys
  }

  /** The value `unboxObject(x, keys)` returns. */
  function UnboxedObject(x: Json, keys: seq<string>): (r: Json)
    // an array is unwrapped whatever the keys
    ensures x.Arr? ==> r == Unbox(x.elems)
    // an object keeps exactly its keys; listed ones are unwrapped, the rest kept as they are
    ensures x.Obj? ==> r.Obj? && r.fields.Keys == x.fields.Keys
    ensures x.Obj? ==> forall k :: k in x.fields && !Listed(keys, k) ==> r.fields[k] == x.fields[k]
    ensures x.Obj? ==> forall k :: k in x.fields && Listed(keys, k) ==> r.fields[k] == UnboxValue(x.fields[k])
    // a number, boolean, null or undefined spreads to an empty object, a string to its characters
    ensures x.Num? || x.Bool? || x.Null? || x.Undefined? ==> r == Obj(map[])
    ensures x.Str? ==> r == Obj(Spread(x))
  {
    match x
    case Arr(elems) => Unbox(elems)
    case Obj(fields) => Obj(map k | k in fields :: if Listed(keys, k) then UnboxValue(fields[k]) else fields[k])
    case _ => Obj(Spread(x))
  }

  /** With no keys, an object comes back unchanged. */
  lemma UnboxWithoutKeysIsCopy(m: Record)
    ensures UnboxedObject(Obj(m), []) == Obj(m)
  {
    var r := UnboxedObject(Obj(m), []);
    assert r.fields == m;
  }

  /** A listed field holding a boxed value `[v, ...]` becomes `v`. */
  lemma ListedBoxedFieldIsUnwrapped(m: Record, keys: seq<string>, k: string, v: Json, rest: seq<Json>)
    requires k in m && k in keys && m[k] == Arr([v] + rest)
    ensures UnboxedObject(Obj(m), keys).fields[k] == v
  {
  }

  /** `unboxObject(x, keys)`: copy the object, then unwrap each listed entry in turn. */
  method UnboxObject(x: Json, keys: seq<string>) returns (r: Json)
    ensures r == UnboxedObject(x, keys)
    decreases |keys|
  {
    if x.Arr? {
      return Unbox(x.elems);
    }
    var copy := Spread(x);
    if x.Obj? {
      var entries := x.fields.Keys;
      while entries != {}
        invariant entries <= x.fields.Keys
        invariant copy.Keys == x.fields.Keys
        invariant forall k :: k in copy ==>
          copy[k] == if k !in entries && Listed(keys, k) then UnboxValue(x.fields[k]) else x.fields[k]
        decreases entries
      {
        var k :| k in entries;
        if |keys| > 0 && k in keys {
          var v := UnboxObject(x.fields[k], []);
          copy := copy[k := v];
        }
        entries := entries - {k};
      }
    }
    r := Obj(copy);
  }
}
