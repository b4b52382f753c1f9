/**
 * The JavaScript values that flow through the store: what the data provider
 * sends (decoded JSON) plus `undefined`, which reading a missing property or
 * an index past the end of an array yields.  Numbers are mathematical reals.
 */
module Json {
  import opened Wrappers

  datatype Json =
    | Undefined
    | Null
    | Bool(b: bool)
    | Num(n: real)
    | Str(s: string)
    | Arr(elems: seq<Json>)
    | Obj(fields: map<string, Json>)

  /** What a JavaScript `throw` can carry in the modelled code. */
  datatype Exception = TypeError | Error(message: string)

  /** A plain object, as produced by an object literal or a spread. */
  type Record = map<string, Json>

  /** `r.key` on a plain object: `undefined` when the key is absent. */
  function Prop(r: Record, key: string): (v: Json)
    ensures key in r ==> v == r[key]
    ensures key !in r ==> v == Undefined
  {
    if key in r then r[key] else Undefined
  }

  /**
   * `v.key` for a key that arrays, strings, numbers and booleans do not carry (no `length`, no
   * index, no prototype member): reading a property of `null` or `undefined` throws.
   */
  function Get(v: Json, key: string): (r: Result<Json, Exception>)
    ensures r.Err? <==> v.Null? || v.Undefined?
    ensures v.Obj? ==> r == Ok(Prop(v.fields, key))
    ensures !v.Obj? && r.Ok? ==> r.value == Undefined
  {
    match v
    case Null => Err(TypeError)
    case Undefined => Err(TypeError)
    case Obj(m) => Ok(Prop(m, key))
    case _ => Ok(Undefined)
  }

  /** JavaScript truthiness. */
  predicate Truthy(v: Json) {
    match v
    case Undefined => false
    case Null => false
    case Bool(b) => b
    case Num(n) => n != 0.0
    case Str(s) => |s| > 0
    case Arr(_) => true
    case Obj(_) => true
  }

  /** The decimal numeral of `n`, which is how an array index becomes a property key. */
  function DecimalString(n: nat): (s: string)
    ensures |s| > 0
    ensures forall k :: 0 <= k < |s| ==> '0' <= s[k] <= '9'
    decreases n
  {
    var digit := "0123456789"[n % 10];
    if n < 10 then [digit] else DecimalString(n / 10) + [digit]
  }

  /** A one-digit numeral exactly for the numbers below ten. */
  lemma DecimalStringLength(n: nat)
    ensures |DecimalString(n)| == 1 <==> n < 10
  {
  }

  /** Distinct indices have distinct numerals, so no index key overwrites another. */
  lemma {:induction false} DecimalStringInjective(a: nat, b: nat)
    requires DecimalString(a) == DecimalString(b)
    ensures a == b
    decreases a
  {
    var sa, sb := DecimalString(a), DecimalString(b);
    DecimalStringLength(a);
    DecimalStringLength(b);
    assert "0123456789"[a % 10] == sa[|sa| - 1] == sb[|sb| - 1] == "0123456789"[b % 10];
    assert a % 10 == b % 10;
    if a >= 10 {
      assert sa[..|sa| - 1] == DecimalString(a / 10);
      assert sb[..|sb| - 1] == DecimalString(b / 10);
      DecimalStringInjective(a / 10, b / 10);
    }
  }

  /** The keys `"0"`, ..., `"n-1"`. */
  function IndexKeys(n: nat): set<string> {
    set k | 0 <= k < n :: DecimalString(k)
  }

  /** The entries `{"0": vs[0], ..., "n-1": vs[n-1]}` that spreading an array-like yields. */
  function Indexed(vs: seq<Json>, n: nat): Record
    requires n <= |vs|
    decreases n
  {
    if n == 0 then map[] else Indexed(vs, n - 1)[DecimalString(n - 1) := vs[n - 1]]
  }

  /** One more index adds exactly its numeral. */
  lemma IndexKeysStep(n: nat)
    requires n > 0
    ensures IndexKeys(n) == IndexKeys(n - 1) + {DecimalString(n - 1)}
  {
    forall s | s in IndexKeys(n)
      ensures s in IndexKeys(n - 1) + {DecimalString(n - 1)}
    {
      var k :| 0 <= k < n && s == DecimalString(k);
      if k < n - 1 {
        assert s in IndexKeys(n - 1);
      }
    }
  }

  /** `Indexed` has exactly the index keys. */
  lemma {:induction false} IndexedKeys(vs: seq<Json>, n: nat)
    requires n <= |vs|
    ensures Indexed(vs, n).Keys == IndexKeys(n)
    decreases n
  {
    if n > 0 {
      IndexedKeys(vs, n - 1);
      IndexKeysStep(n);
    }
  }

  /** The numeral of index `k` holds item `k`: no later index overwrites it. */
  lemma {:induction false} IndexedAt(vs: seq<Json>, n: nat, k: nat)
    requires k < n <= |vs|
    ensures DecimalString(k) in Indexed(vs, n) && Indexed(vs, n)[DecimalString(k)] == vs[k]
    decreases n
  {
    if k < n - 1 {
      IndexedAt(vs, n - 1, k);
      if DecimalString(k) == DecimalString(n - 1) {
        DecimalStringInjective(k, n - 1);
      }
    }
  }

  /** `Indexed` has exactly the index keys, each holding its item. */
  lemma IndexedEntries(vs: seq<Json>, n: nat)
    requires n <= |vs|
    ensures Indexed(vs, n).Keys == IndexKeys(n)
    ensures forall k :: 0 <= k < n ==> DecimalString(k) in Indexed(vs, n) && Indexed(vs, n)[DecimalString(k)] == vs[k]
  {
    IndexedKeys(vs, n);
    forall k | 0 <= k < n
      ensures DecimalString(k) in Indexed(vs, n) && Indexed(vs, n)[DecimalString(k)] == vs[k]
    {
      IndexedAt(vs, n, k);
    }
  }

  /**
   * The own enumerable entries that `{...v}` copies into a new object: an object's fields,
   * an array's elements or a string's characters under their indices, and nothing for the
   * other primitives.
   */
  function Spread(v: Json): (m: Record)
    ensures v.Obj? ==> m == v.fields
    ensures v.Undefined? || v.Null? || v.Bool? || v.Num? ==> m == map[]
    ensures v.Arr? ==> m.Keys == IndexKeys(|v.elems|)
    ensures v.Arr? ==> forall k :: 0 <= k < |v.elems| ==> DecimalString(k) in m && m[DecimalString(k)] == v.elems[k]
    ensures v.Str? ==> m.Keys == IndexKeys(|v.s|)
    ensures v.Str? ==> forall k :: 0 <= k < |v.s| ==> DecimalString(k) in m && m[DecimalString(k)] == Str([v.s[k]])
  {
    match v
    case Obj(fields) => fields
    case Arr(elems) => IndexedEntries(elems, |elems|); Indexed(elems, |elems|)
    case Str(s) =>
      var chars := seq(|s|, k requires 0 <= k < |s| => Str([s[k]]));
      IndexedEntries(chars, |s|);
      Indexed(chars, |s|)
    case _ => map[]
  }
}
