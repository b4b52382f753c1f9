/**
 * The viewport mask over one level of a spatial summary: the summary is an
 * L by L grid laid over the dataset's bounding box, and a cell is marked when
 * its rectangle meets the viewport.  Both are axis-aligned rectangles, and
 * meeting is closed overlap, so a shared edge or corner counts.
 */
module Viewport {
  import opened Wrappers
  import opened Json
  import opened Types
  import opened Geo
  import opened Matrix

  function Abs(x: real): real {
    if x < 0.0 then -x else x
  }

  function Min(a: real, b: real): real {
    if a <= b then a else b
  }

  function Max(a: real, b: real): real {
    if a <= b then b else a
  }

  /** A closed axis-aligned rectangle `[xLo, xHi] x [yLo, yHi]`. */
  datatype Rect = Rect(xLo: real, xHi: real, yLo: real, yHi: real)

  /** Closed overlap, the meaning `booleanIntersects` has for axis-aligned rectangles. */
  predicate Overlaps(a: Rect, b: Rect) {
    a.xLo <= b.xHi && b.xLo <= a.xHi && a.yLo <= b.yHi && b.yLo <= a.yHi
  }

  /** The extent of a closed five-point ring. */
  function RingRect(ring: seq<Location>): Rect
    requires |ring| == 5
  {
    Rect(
      Min(Min(Min(ring[0].0, ring[1].0), Min(ring[2].0, ring[3].0)), ring[4].0),
      Max(Max(Max(ring[0].0, ring[1].0), Max(ring[2].0, ring[3].0)), ring[4].0),
      Min(Min(Min(ring[0].1, ring[1].1), Min(ring[2].1, ring[3].1)), ring[4].1),
      Max(Max(Max(ring[0].1, ring[1].1), Max(ring[2].1, ring[3].1)), ring[4].1))
  }

  /** The extent of a ring contains every point of it, and each of its sides touches one. */
  lemma RingRectIsExtent(ring: seq<Location>)
    requires |ring| == 5
    ensures var r := RingRect(ring);
      && (forall k :: 0 <= k < 5 ==> r.xLo <= ring[k].0 <= r.xHi && r.yLo <= ring[k].1 <= r.yHi)
      && (exists k :: 0 <= k < 5 && ring[k].0 == r.xLo)
      && (exists k :: 0 <= k < 5 && ring[k].0 == r.xHi)
      && (exists k :: 0 <= k < 5 && ring[k].1 == r.yLo)
      && (exists k :: 0 <= k < 5 && ring[k].1 == r.yHi)
  {
    var r := RingRect(ring);
    assert ring[0].0 == r.xLo || ring[1].0 == r.xLo || ring[2].0 == r.xLo || ring[3].0 == r.xLo || ring[4].0 == r.xLo;
    assert ring[0].0 == r.xHi || ring[1].0 == r.xHi || ring[2].0 == r.xHi || ring[3].0 == r.xHi || ring[4].0 == r.xHi;
    assert ring[0].1 == r.yLo || ring[1].1 == r.yLo || ring[2].1 == r.yLo || ring[3].1 == r.yLo || ring[4].1 == r.yLo;
    assert ring[0].1 == r.yHi || ring[1].1 == r.yHi || ring[2].1 == r.yHi || ring[3].1 == r.yHi || ring[4].1 == r.yHi;
  }

  /** `booleanIntersects` on two rectangular polygons given by their rings. */
  predicate BooleanIntersects(a: seq<Location>, b: seq<Location>)
    requires |a| == 5 && |b| == 5
  {
    Overlaps(RingRect(a), RingRect(b))
  }

  /** The rectangle a box spans, in GeoJSON order: x is the second coordinate, y the first. */
  function BoxRect(box: Bounds): Rect {
    Rect(Min(box.0.1, box.1.1), Max(box.0.1, box.1.1), Min(box.0.0, box.1.0), Max(box.0.0, box.1.0))
  }

  /** The ring `bboxToCoordinates(box, false)` spans exactly the box. */
  lemma RingOfBox(box: Bounds)
    ensures RingRect(BboxToCoordinates(box, false)) == BoxRect(box)
  {
    var ring := BboxToCoordinates(box, false);
    var c := Corners(box);
    assert ring[0] == (c[0].1, c[0].0) && ring[1] == (c[1].1, c[1].0);
    assert ring[2] == (c[2].1, c[2].0) && ring[3] == (c[3].1, c[3].0) && ring[4] == ring[0];
  }

  // ---------------------------------------------------------------------
  // the grid

  /** The northern edge of the dataset box `[[south, east], [north, west]]`. */
  function Top(dataset: Bounds): real {
    Max(dataset.0.0, dataset.1.0)
  }

  /** The western edge of the dataset box. */
  function Left(dataset: Bounds): real {
    Min(dataset.0.1, dataset.1.1)
  }

  function CellHeight(dataset: Bounds, l: nat): real
    requires l > 0
  {
    Abs(dataset.1.0 - dataset.0.0) / l as real
  }

  function CellWidth(dataset: Bounds, l: nat): real
    requires l > 0
  {
    Abs(dataset.0.1 - dataset.1.1) / l as real
  }

  /**
   * Cell (row `j`, column `i`) of the `l` by `l` grid: latitudes
   * `[top - (j + 1) h, top - j h]`, longitudes `[left + i w, left + (i + 1) w]`.
   * It depends on the box, `l` and the indices only.
   */
  function CellRect(dataset: Bounds, l: nat, i: nat, j: nat): Rect
    requires l > 0
  {
    var h, w := CellHeight(dataset, l), CellWidth(dataset, l);
    Rect(Left(dataset) + i as real * w, Left(dataset) + (i + 1) as real * w,
         Top(dataset) - (j + 1) as real * h, Top(dataset) - j as real * h)
  }

  /** Whether cell (row `j`, column `i`) meets the viewport. */
  predicate Hit(dataset: Bounds, l: nat, view: Bounds, i: nat, j: nat)
    requires l > 0
  {
    Overlaps(CellRect(dataset, l, i, j), BoxRect(view))
  }

  /** A row longer than the summary is high reaches `mask[i]` for an `i` past the mask, which throws. */
  predicate ShapeError<T>(dataset: Bounds, summary: seq<seq<T>>, view: Bounds) {
    exists j, i :: 0 <= j < |summary| && |summary| <= i < |summary[j]| && Hit(dataset, |summary|, view, i, j)
  }

  lemma MulMonotone(a: real, b: real, h: real)
    requires a <= b && 0.0 <= h
    ensures a * h <= b * h
  {
  }

  /** Whether the loop marks `mask[i][j]`: row `j` of the summary reaches column `i`, and that cell meets the viewport. */
  predicate Marked<T>(dataset: Bounds, summary: seq<seq<T>>, view: Bounds, i: nat, j: nat)
    requires 0 <= j < |summary|
  {
    i < |summary[j]| && Hit(dataset, |summary|, view, i, j)
  }

  /** The mask after the rows before `j`, and the first `i` cells of row `j`, have been visited. */
  predicate MaskSoFar<T>(mask: seq<seq<int>>, dataset: Bounds, summary: seq<seq<T>>, view: Bounds, j: nat, i: nat) {
    && |mask| == |summary|
    && (forall k :: 0 <= k < |mask| ==> |mask[k]| == |summary|)
    && forall i', j' :: 0 <= i' < |summary| && 0 <= j' < |summary| ==>
         mask[i'][j'] == if (j' < j || (j' == j && i' < i)) && Marked(dataset, summary, view, i', j') then 1 else 0
  }

  /**
   * `viewportInSpatialSummary(level, bounds)` for the summary level `summary`:
   * the L by L mask whose entry `[i][j]` is 1 exactly when cell (row `j`, column `i`) meets the viewport.
   */
  method ViewportInSpatialSummary<T>(dataset: Bounds, summary: seq<seq<T>>, bounds: Bounds)
    returns (r: Result<seq<seq<int>>, Exception>)
    ensures r.Err? <==> ShapeError(dataset, summary, bounds)
    ensures r.Err? ==> r.error == TypeError
    ensures r.Ok? ==> |r.value| == |summary| && forall i :: 0 <= i < |summary| ==> |r.value[i]| == |summary|
    ensures r.Ok? ==> forall i, j :: 0 <= i < |summary| && 0 <= j < |summary| ==>
      r.value[i][j] == if i < |summary[j]| && Hit(dataset, |summary|, bounds, i, j) then 1 else 0
  {
    var bboxPoly := BboxToCoordinates(bounds, false);
    RingOfBox(bounds);
    var l := |summary|;
    var mask := NewMatrix(l, l, 0);
    for j := 0 to l
      invariant MaskSoFar(mask, dataset, summary, bounds, j, 0)
      invariant forall j', i' :: 0 <= j' < j && l <= i' < |summary[j']| ==> !Hit(dataset, l, bounds, i', j')
    {
      var next := MarkRow(dataset, summary, bounds, bboxPoly, j, mask);
      if next.Err? {
        return Err(TypeError);
      }
      mask := next.value;
    }
    return Ok(mask);
  }

  /** `[cellNE, cellSW]` for cell (row `j`, column `i`), as the loop computes them. */
  function CellBox(dataset: Bounds, l: nat, i: nat, j: nat): Bounds
    requires l > 0
  {
    var cellHeight, cellWidth := CellHeight(dataset, l), CellWidth(dataset, l);
    var cellNE := (Top(dataset) - j as real * cellHeight, Left(dataset) + i as real * cellWidth);
    var cellSW := (Top(dataset) - (j + 1) as real * cellHeight, Left(dataset) + (i + 1) as real * cellWidth);
    (cellNE, cellSW)
  }

  /** The box the loop builds for a cell spans `CellRect`. */
  lemma CellBoxRect(dataset: Bounds, l: nat, i: nat, j: nat)
    requires l > 0
    ensures BoxRect(CellBox(dataset, l, i, j)) == CellRect(dataset, l, i, j)
  {
    MulMonotone(j as real, (j + 1) as real, CellHeight(dataset, l));
    MulMonotone(i as real, (i + 1) as real, CellWidth(dataset, l));
    OrderedBoxRect(CellBox(dataset, l, i, j));
  }

  /** A box given as `[north-west..., south-east...]` in order spans its own coordinates. */
  lemma OrderedBoxRect(box: Bounds)
    requires box.1.0 <= box.0.0 && box.0.1 <= box.1.1
    ensures BoxRect(box) == Rect(box.0.1, box.1.1, box.1.0, box.0.0)
  {
  }

  /** The loop's intersection test of the viewport polygon with the cell polygon is `Hit`. */
  lemma CellTestIsHit(dataset: Bounds, l: nat, bounds: Bounds, bboxPoly: seq<Location>, i: nat, j: nat)
    requires l > 0
    requires |bboxPoly| == 5 && RingRect(bboxPoly) == BoxRect(bounds)
    ensures BooleanIntersects(bboxPoly, BboxToCoordinates(CellBox(dataset, l, i, j), false)) == Hit(dataset, l, bounds, i, j)
  {
    RingOfBox(CellBox(dataset, l, i, j));
    CellBoxRect(dataset, l, i, j);
  }

  /** Visiting cell `i` of row `j` extends the mask by that one cell. */
  lemma MaskStep<T>(mask: seq<seq<int>>, dataset: Bounds, summary: seq<seq<T>>, view: Bounds, j: nat, i: nat)
    requires j < |summary| && i < |summary| && MaskSoFar(mask, dataset, summary, view, j, i)
    requires i < |summary[j]|
    ensures var next := if Hit(dataset, |summary|, view, i, j) then mask[i := mask[i][j := 1]] else mask;
      MaskSoFar(next, dataset, summary, view, j, i + 1)
  {
  }

  /** One pass of the inner loop, over the cells of summary row `j`. */
  method MarkRow<T>(dataset: Bounds, summary: seq<seq<T>>, bounds: Bounds, bboxPoly: seq<Location>, j: nat, mask0: seq<seq<int>>)
    returns (r: Result<seq<seq<int>>, Exception>)
    requires j < |summary|
    requires |bboxPoly| == 5 && RingRect(bboxPoly) == BoxRect(bounds)
    requires MaskSoFar(mask0, dataset, summary, bounds, j, 0)
    ensures r.Err? <==> exists i :: |summary| <= i < |summary[j]| && Hit(dataset, |summary|, bounds, i, j)
    ensures r.Ok? ==> MaskSoFar(r.value, dataset, summary, bounds, j + 1, 0)
  {
    var l := |summary|;
    var mask := mask0;
    var col := summary[j];
    for i := 0 to |col|
      invariant MaskSoFar(mask, dataset, summary, bounds, j, if i < l then i else l)
      invariant forall i' :: l <= i' < i ==> !Hit(dataset, l, bounds, i', j)
    {
      var cellPoly := BboxToCoordinates(CellBox(dataset, l, i, j), false);
      CellTestIsHit(dataset, l, bounds, bboxPoly, i, j);
      if i < l {
        MaskStep(mask, dataset, summary, bounds, j, i);
      }
      if BooleanIntersects(bboxPoly, cellPoly) {
        if i >= l {
          // `mask[i]` is undefined past the L rows of the mask
          return Err(TypeError);
        }
        mask := mask[i := mask[i][j := 1]];
      }
    }
    RowDone(mask, dataset, summary, bounds, j, if |col| < l then |col| else l);
    return Ok(mask);
  }

  /** Once the cells of row `j` are visited, the mask is the mask before row `j + 1`. */
  lemma RowDone<T>(mask: seq<seq<int>>, dataset: Bounds, summary: seq<seq<T>>, view: Bounds, j: nat, i: nat)
    requires j < |summary| && MaskSoFar(mask, dataset, summary, view, j, i)
    requires i == if |summary[j]| < |summary| then |summary[j]| else |summary|
    ensures MaskSoFar(mask, dataset, summary, view, j + 1, 0)
  {
  }

  // ---------------------------------------------------------------------
  // properties of the mask

  /** Grid line `k` and `k + 1` of `l` equal steps over a length `len` lie within `[0, len]`, in order. */
  lemma GridStep(len: real, l: nat, k: nat)
    requires 0.0 <= len && k < l
    ensures 0.0 <= k as real * (len / l as real) <= (k + 1) as real * (len / l as real) <= len
  {
    var step := len / l as real;
    assert 0.0 <= step;
    MulMonotone(0.0, k as real, step);
    MulMonotone(k as real, (k + 1) as real, step);
    MulMonotone((k + 1) as real, l as real, step);
    assert l as real * step == len;
  }

  /** Every cell of the grid lies inside the dataset box. */
  lemma CellInsideDataset(dataset: Bounds, l: nat, i: nat, j: nat)
    requires l > 0 && i < l && j < l
    ensures var c, d := CellRect(dataset, l, i, j), BoxRect(dataset);
      d.xLo <= c.xLo <= c.xHi <= d.xHi && d.yLo <= c.yLo <= c.yHi <= d.yHi
  {
    CellRectIsGridRect(dataset, l, i, j);
    GridRectInside(BoxRect(dataset), l, i, j);
  }

  /** The source's cell arithmetic lays the grid over the dataset box from its north-west corner. */
  lemma CellRectIsGridRect(dataset: Bounds, l: nat, i: nat, j: nat)
    requires l > 0
    ensures var d := BoxRect(dataset);
      d.xLo <= d.xHi && d.yLo <= d.yHi && CellRect(dataset, l, i, j) == GridRect(d, l, i, j)
  {
    var d := BoxRect(dataset);
    DatasetRect(dataset);
    assert CellWidth(dataset, l) == (d.xHi - d.xLo) / l as real;
    assert CellHeight(dataset, l) == (d.yHi - d.yLo) / l as real;
  }

  /** The dataset box starts at `Left` and `Top` and spans the absolute coordinate differences. */
  lemma DatasetRect(dataset: Bounds)
    ensures var d := BoxRect(dataset);
      && d.xLo == Left(dataset) && d.yHi == Top(dataset)
      && d.xHi - d.xLo == Abs(dataset.0.1 - dataset.1.1)
      && d.yHi - d.yLo == Abs(dataset.1.0 - dataset.0.0)
  {
  }

  /** Cell (row `j`, column `i`) of an `l` by `l` grid laid over `d` from its north-west corner. */
  function GridRect(d: Rect, l: nat, i: nat, j: nat): Rect
    requires l > 0
  {
    var w, h := (d.xHi - d.xLo) / l as real, (d.yHi - d.yLo) / l as real;
    Rect(d.xLo + i as real * w, d.xLo + (i + 1) as real * w, d.yHi - (j + 1) as real * h, d.yHi - j as real * h)
  }

  lemma GridRectInside(d: Rect, l: nat, i: nat, j: nat)
    requires l > 0 && i < l && j < l
    requires d.xLo <= d.xHi && d.yLo <= d.yHi
    ensures var c := GridRect(d, l, i, j);
      d.xLo <= c.xLo <= c.xHi <= d.xHi && d.yLo <= c.yLo <= c.yHi <= d.yHi
  {
    GridStep(d.xHi - d.xLo, l, i);
    GridStep(d.yHi - d.yLo, l, j);
  }

  /** A viewport that contains the dataset box meets every cell. */
  lemma ViewportCoveringDatasetHitsAll(dataset: Bounds, l: nat, view: Bounds, i: nat, j: nat)
    requires l > 0 && i < l && j < l
    requires var v, d := BoxRect(view), BoxRect(dataset);
      v.xLo <= d.xLo && d.xHi <= v.xHi && v.yLo <= d.yLo && d.yHi <= v.yHi
    ensures Hit(dataset, l, view, i, j)
  {
    CellInsideDataset(dataset, l, i, j);
  }

  /** A viewport apart from the dataset box meets no cell. */
  lemma ViewportApartFromDatasetHitsNone(dataset: Bounds, l: nat, view: Bounds, i: nat, j: nat)
    requires l > 0 && i < l && j < l
    requires !Overlaps(BoxRect(view), BoxRect(dataset))
    ensures !Hit(dataset, l, view, i, j)
  {
    CellInsideDataset(dataset, l, i, j);
  }

  /** On a square summary the mask never throws. */
  lemma SquareSummaryHasNoShapeError<T>(dataset: Bounds, summary: seq<seq<T>>, view: Bounds)
    requires forall j :: 0 <= j < |summary| ==> |summary[j]| == |summary|
    ensures !ShapeError(dataset, summary, view)
  {
  }
}
