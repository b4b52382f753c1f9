/** Element-wise equality of two arrays under a comparison function. */
module Vector {

  /**
   * `isEqual(a, b, compFn)`: the same array (or both null) is equal to itself without any
   * comparison; otherwise both must be present, of one length, and pairwise related by
   * `compFn`, which is applied index by index until it first fails.  `compared` counts
   * the calls of `compFn`.
   */
  method IsEqual<T>(a: array?<T>, b: array?<T>, compFn: (T, T) -> bool) returns (r: bool, ghost compared: nat)
    ensures a == b ==> r && compared == 0
    ensures a != b && (a == null || b == null) ==> !r && compared == 0
    ensures a != b && a != null && b != null && a.Length != b.Length ==> !r && compared == 0
    ensures a != b && a != null && b != null && a.Length == b.Length ==>
      (r <==> forall i :: 0 <= i < a.Length ==> compFn(a[i], b[i]))
    // the scan stops at the first index where compFn fails
    ensures a != b && a != null && b != null && a.Length == b.Length ==>
      && compared <= a.Length
      && (forall i :: 0 <= i < compared - 1 ==> compFn(a[i], b[i]))
      && (r ==> compared == a.Length)
      && (!r ==> 0 < compared && !compFn(a[compared - 1], b[compared - 1]))
  {
    if a == b {
      return true, 0;
    }
    if a == null || b == null {
      return false, 0;
    }
    if a.Length != b.Length {
      return false, 0;
    }
    var i := 0;
    compared := 0;
    while i < a.Length
      invariant 0 <= i <= a.Length && compared == i
      invariant forall k :: 0 <= k < i ==> compFn(a[k], b[k])
    {
      compared := compared + 1;
      if !compFn(a[i], b[i]) {
        return false, compared;
      }
      i := i + 1;
    }
    return true, compared;
  }
}
