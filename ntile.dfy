/** How a spatial-summary cell's percentile class is drawn: icon rotation, icon size, icon index. */
module Ntile {
  import opened Types

  /**
   * `isNotEmpty(pct)`: the type guard `pct is number` holds exactly for a finite number, so
   * `null`, `NaN` and the infinities are all empty.
   */
  predicate IsNotEmpty(c: CellValue)
    ensures IsNotEmpty(c) ==> c.Pct?
    ensures c.Empty? || c.NonFinite? ==> !IsNotEmpty(c)
    ensures c.Pct? ==> IsNotEmpty(c)
  {
    c.Pct?
  }

  /** `ntileToRotation(pct)`: lower classes point up, upper classes are turned over. */
  function NtileToRotation(c: CellValue): (r: int)
    ensures r == 0 || r == 180
    ensures r == 180 <==> IsNotEmpty(c) && c.pct > 3.0
  {
    if IsNotEmpty(c) then (if c.pct <= 3.0 then 0 else 180) else 0
  }

  /** `ntileToSize(pct)`: 0 for no data, 1 for the middle classes, 2 next to them, 3 for the extremes. */
  function NtileToSize(c: CellValue): (r: int)
    ensures 0 <= r <= 3
    ensures r == 0 <==> !IsNotEmpty(c)
    ensures r == 1 <==> IsNotEmpty(c) && 3.0 <= c.pct <= 4.0
    ensures r == 2 <==> IsNotEmpty(c) && (c.pct == 2.0 || c.pct == 5.0)
  {
    if IsNotEmpty(c) then
      if 3.0 <= c.pct <= 4.0 then 1
      else if c.pct == 2.0 || c.pct == 5.0 then 2
      else 3
    else 0
  }

  /** The size is mirror-symmetric about 3.5: class `p` and class `7 - p` are drawn equally large. */
  lemma SizeIsSymmetric(p: real)
    ensures NtileToSize(Pct(p)) == NtileToSize(Pct(7.0 - p))
  {
  }

  /** On the classes 0 to 7, class `p` and class `7 - p` are turned opposite ways. */
  lemma {:induction false} RotationIsMirrored(p: int)
    requires 0 <= p <= 7
    ensures NtileToRotation(Pct(p as real)) + NtileToRotation(Pct((7 - p) as real)) == 180
  {
    assert p as real <= 3.0 <==> p <= 3;
    assert (7 - p) as real <= 3.0 <==> p >= 4;
  }

  /** `getIconIndexForPercentile(pct, set)`: six icons per set. */
  function GetIconIndexForPercentile(pct: int, iconSet: int): (r: int)
    ensures 0 <= pct < 6 ==> r / 6 == iconSet && r % 6 == pct
  {
    iconSet * 6 + pct
  }

  /** Distinct (set, class) pairs with classes 0 to 5 get distinct icons. */
  lemma IconIndexIsInjective(p1: int, s1: int, p2: int, s2: int)
    requires 0 <= p1 < 6 && 0 <= p2 < 6
    requires GetIconIndexForPercentile(p1, s1) == GetIconIndexForPercentile(p2, s2)
    ensures p1 == p2 && s1 == s2
  {
  }
}
