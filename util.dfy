/** Small helpers: a 53-bit string hash, ids, index collection, kernel identity, pair enumeration. */
module Util {
  import opened Wrappers
  import opened Types

  // ---------------------------------------------------------------------
  // hash: the cyrb53 string hash over the UTF-16 code units of a string

  const TwoTo32: nat := 0x1_0000_0000
  const TwoTo53: nat := 0x20_0000_0000_0000

  /** The initial state `h1 = 0xdeadbeef ^ seed, h2 = 0x41c6ce57 ^ seed`. */
  function HashStart(seed: bv32): (bv32, bv32) {
    (0xdeadbeef ^ seed, 0x41c6ce57 ^ seed)
  }

  /** One loop iteration; `Math.imul` is multiplication modulo 2^32. */
  function HashRound(h: (bv32, bv32), ch: bv16): (bv32, bv32) {
    ((h.0 ^ ch as bv32) * 2654435761, (h.1 ^ ch as bv32) * 1597334677)
  }

  /** `(h1, h2)` after the loop has consumed the code units of `s`. */
  function HashRounds(s: seq<bv16>, seed: bv32): (bv32, bv32)
    decreases |s|
  {
    if |s| == 0 then HashStart(seed) else HashRound(HashRounds(s[..|s| - 1], seed), s[|s| - 1])
  }

  /** The final avalanche of `(h1, h2)`. */
  function Avalanche(h: (bv32, bv32)): (bv32, bv32) {
    var f1 := ((h.0 ^ (h.0 >> 16)) * 2246822507) ^ ((h.1 ^ (h.1 >> 13)) * 3266489909);
    var f2 := ((h.1 ^ (h.1 >> 16)) * 2246822507) ^ ((f1 ^ (f1 >> 13)) * 3266489909);
    (f1, f2)
  }

  /** `4294967296 * (2097151 & h2) + (h1 >>> 0)`: the low 21 bits of `h2` above all of `h1`. */
  function Combine(h: (bv32, bv32)): (r: nat)
    ensures r < TwoTo53
    ensures r % TwoTo32 == h.0 as int && r / TwoTo32 == LowBits(h.1)
  {
    PlaceValue(LowBits(h.1), h.0 as int)
  }

  /** `high * 2^32 + low`: a high part below 2^21 above a low part below 2^32, which splits back into them. */
  function PlaceValue(high: nat, low: nat): (r: nat)
    requires high < 0x20_0000 && low < TwoTo32
    ensures r < TwoTo53
    ensures r % TwoTo32 == low && r / TwoTo32 == high
  {
    var n := 0x1_0000_0000 * high + low;
    assert n % 0x1_0000_0000 == low && n / 0x1_0000_0000 == high;
    n
  }

  /** `2097151 & x`, the low 21 bits, as a number. */
  function LowBits(x: bv32): (r: nat)
    ensures r < 0x20_0000
  {
    (x & 0x1F_FFFF) as bv21 as int
  }

  /** The 53-bit hash of the code units `s` under `seed`. */
  function Cyrb53(s: seq<bv16>, seed: bv32): (r: nat)
    ensures r < TwoTo53
  {
    Combine(Avalanche(HashRounds(s, seed)))
  }

  /** `hash(str, seed)`: a safe integer below 2^53 determined by the code units and the seed. */
  method Hash(str: seq<bv16>, seed: bv32) returns (r: nat)
    ensures r == Cyrb53(str, seed)
    ensures r < TwoTo53
  {
    var start := HashStart(seed);
    var h1, h2 := start.0, start.1;
    var i := 0;
    while i < |str|
      invariant 0 <= i <= |str|
      invariant (h1, h2) == HashRounds(str[..i], seed)
    {
      assert str[..i + 1][..i] == str[..i];
      var next := HashRound((h1, h2), str[i]);
      h1, h2 := next.0, next.1;
      i := i + 1;
    }
    assert str[..i] == str;
    r := Combine(Avalanche((h1, h2)));
  }

  // ---------------------------------------------------------------------
  // groupVariableId

  function GroupVariableId(group: string, variable: string): (id: string)
    ensures |id| == |group| + 1 + |variable|
    ensures id[..|group|] == group && id[|group|] == '/' && id[|group| + 1..] == variable
  {
    group + "/" + variable
  }

  /** The first position of `c` in `s`. */
  function IndexOf(s: string, c: char): (r: Option<nat>)
    ensures r.Some? ==> r.value < |s| && s[r.value] == c && forall k :: 0 <= k < r.value ==> s[k] != c
    ensures r.None? ==> forall k :: 0 <= k < |s| ==> s[k] != c
  {
    if |s| == 0 then None
    else if s[0] == c then Some(0)
    else match IndexOf(s[1..], c)
      case Some(k) => Some(k + 1)
      case None => None
  }

  /** Splitting an id at its first `/`. */
  function SplitGroupVariableId(id: string): Option<(string, string)> {
    match IndexOf(id, '/')
    case Some(k) => Some((id[..k], id[k + 1..]))
    case None => None
  }

  /** The id determines group and variable when the group name has no `/`. */
  lemma GroupVariableIdSplits(group: string, variable: string)
    requires '/' !in group
    ensures SplitGroupVariableId(GroupVariableId(group, variable)) == Some((group, variable))
  {
    var id := GroupVariableId(group, variable);
    assert id[|group|] == '/';
  }

  // ---------------------------------------------------------------------
  // collect

  /** `indices.map(i => arr[i])`; an index outside the array reads `undefined` (None). */
  function Collect<T>(arr: seq<T>, indices: seq<int>): (r: seq<Option<T>>)
    ensures |r| == |indices|
    ensures forall k :: 0 <= k < |indices| && 0 <= indices[k] < |arr| ==> r[k] == Some(arr[indices[k]])
    ensures forall k :: 0 <= k < |indices| && !(0 <= indices[k] < |arr|) ==> r[k] == None
  {
    seq(|indices|, k requires 0 <= k < |indices| =>
      if 0 <= indices[k] < |arr| then Some(arr[indices[k]]) else None)
  }

  /** Collecting every index in order recovers the array. */
  lemma CollectEveryIndex<T>(arr: seq<T>)
    ensures Collect(arr, seq(|arr|, k requires 0 <= k < |arr| => k)) ==
      seq(|arr|, k requires 0 <= k < |arr| => Some(arr[k]))
  {
  }

  // ---------------------------------------------------------------------
  // sameKernel

  /** Kernels are the same when depth, index and region depth agree; an absent kernel matches nothing. */
  predicate SameKernel(k1: Option<KernelGuidance>, k2: Option<KernelGuidance>)
    ensures SameKernel(k1, k2) ==> k1.Some? && k2.Some?
    // a kernel is the same as any kernel that differs from it only in its ring and its data
    ensures k1.Some? && k2.Some? && k2.value == k1.value.(ring := k2.value.ring, numPoints := k2.value.numPoints, diffEv := k2.value.diffEv) ==>
      SameKernel(k1, k2)
    ensures SameKernel(k1, k2) ==> k1.value.(ring := k2.value.ring, numPoints := k2.value.numPoints, diffEv := k2.value.diffEv) == k2.value
  {
    && k1.Some? && k2.Some?
    && k1.value.depth == k2.value.depth
    && k1.value.index == k2.value.index
    && k1.value.regionDepth == k2.value.regionDepth
  }

  /** `SameKernel` is an equivalence on present kernels and never holds for an absent one. */
  lemma SameKernelIsEquivalence(a: Option<KernelGuidance>, b: Option<KernelGuidance>, c: Option<KernelGuidance>)
    ensures a.None? ==> !SameKernel(a, b) && !SameKernel(b, a)
    ensures a.Some? ==> SameKernel(a, a)
    ensures SameKernel(a, b) <==> SameKernel(b, a)
    ensures SameKernel(a, b) && SameKernel(b, c) ==> SameKernel(a, c)
  {
  }

  // ---------------------------------------------------------------------
  // forEachPair

  /** One call of the iteratee: `(a, b, i, j)` with `a = arr[i]` and `b = arr[j]`. */
  type Call<T> = (T, T, nat, nat)

  /** The number of pairs whose larger index is below `n`, i.e. n(n-1)/2. */
  function Tri(n: nat): nat {
    if n == 0 then 0 else Tri(n - 1) + (n - 1)
  }

  lemma {:induction false} TriClosedForm(n: nat)
    ensures 2 * Tri(n) == n * (n - 1)
  {
    if n > 0 {
      TriClosedForm(n - 1);
      assert n * (n - 1) == (n - 1) * (n - 2) + 2 * (n - 1);
    }
  }

  /** The calls for outer index `i` with inner index running from `i - 1` down to `lo`. */
  function RowCalls<T>(arr: seq<T>, i: nat, lo: nat): (r: seq<Call<T>>)
    requires lo <= i < |arr|
    ensures |r| == i - lo
    ensures forall t :: 0 <= t < i - lo ==> r[t] == (arr[i], arr[i - 1 - t], i, i - 1 - t)
  {
    seq(i - lo, t requires 0 <= t < i - lo => (arr[i], arr[i - 1 - t], i, i - 1 - t))
  }

  /** The calls made while the outer index runs over `0 .. n - 1`. */
  function PairCalls<T>(arr: seq<T>, n: nat): (r: seq<Call<T>>)
    requires n <= |arr|
    ensures |r| == Tri(n)
    ensures forall k :: 0 <= k < |r| ==> r[k].3 < r[k].2 < n && r[k].0 == arr[r[k].2] && r[k].1 == arr[r[k].3]
    decreases n
  {
    if n == 0 then [] else PairCalls(arr, n - 1) + RowCalls(arr, n - 1, 0)
  }

  /** Where the call for `(i, j)` stands: after all rows below `i`, `i - 1 - j` into row `i`. */
  function CallPosition(i: nat, j: nat): nat
    requires j < i
  {
    Tri(i) + (i - 1 - j)
  }

  /** Every pair `j < i < n` is called, at `CallPosition(i, j)`. */
  lemma {:induction false} PairCalledAt<T>(arr: seq<T>, n: nat, i: nat, j: nat)
    requires n <= |arr| && j < i < n
    ensures CallPosition(i, j) < |PairCalls(arr, n)|
    ensures PairCalls(arr, n)[CallPosition(i, j)] == (arr[i], arr[j], i, j)
    decreases n
  {
    if i < n - 1 {
      PairCalledAt(arr, n - 1, i, j);
      TriMonotone(i + 1, n - 1);
    }
  }

  lemma {:induction false} TriMonotone(a: nat, b: nat)
    requires a <= b
    ensures Tri(a) <= Tri(b)
    decreases b - a
  {
    if a < b {
      TriMonotone(a, b - 1);
    }
  }

  /** Each call stands at the position of its own pair: so no pair is called twice, and the
      order is `i` ascending, then `j` descending. */
  lemma {:induction false} CallsInPairOrder<T>(arr: seq<T>, n: nat, k: nat)
    requires n <= |arr| && k < |PairCalls(arr, n)|
    ensures var c := PairCalls(arr, n)[k]; c.3 < c.2 && CallPosition(c.2, c.3) == k
    decreases n
  {
    var prefix := PairCalls(arr, n - 1);
    if k < |prefix| {
      CallsInPairOrder(arr, n - 1, k);
    }
  }

  /** `forEachPair(arr, iteratee)`: the calls it makes to `iteratee`, in order. */
  method ForEachPair<T>(arr: seq<T>) returns (calls: seq<Call<T>>)
    ensures calls == PairCalls(arr, |arr|)
  {
    calls := [];
    var i := 0;
    while i < |arr|
      invariant 0 <= i <= |arr|
      invariant calls == PairCalls(arr, i)
    {
      var j := i - 1;
      while j >= 0
        invariant -1 <= j < i
        invariant calls == PairCalls(arr, i) + RowCalls(arr, i, j + 1)
      {
        assert RowCalls(arr, i, j) == RowCalls(arr, i, j + 1) + [(arr[i], arr[j], i, j)];
        calls := calls + [(arr[i], arr[j], i, j)];
        j := j - 1;
      }
      i := i + 1;
    }
  }
}
