/**
 * Geometry helpers: bounding boxes as closed rings, coordinate-order
 * switching, exterior-ring extraction, vertex snapping between two polygons
 * and annulus ("donut") construction.  Geodesic distance, circles and
 * polygon difference are foreign library calls and enter as parameters.
 */
module Geo {
  import opened Wrappers
  import opened Json
  import opened Types

  // ---------------------------------------------------------------------
  // Coordinate order

  function SwitchLatLng(loc: Location): (r: Location)
    ensures r.0 == loc.1 && r.1 == loc.0
  {
    (loc.1, loc.0)
  }

  lemma SwitchLatLngInvolution(loc: Location)
    ensures SwitchLatLng(SwitchLatLng(loc)) == loc
  {
  }

  function SwitchLatLngBounds(bounds: Bounds): (r: Bounds)
    ensures r.0 == SwitchLatLng(bounds.0) && r.1 == SwitchLatLng(bounds.1)
    ensures SwitchLatLng(r.0) == bounds.0 && SwitchLatLng(r.1) == bounds.1
  {
    (SwitchLatLng(bounds.0), SwitchLatLng(bounds.1))
  }

  /** The corners of `[min, max] = [[south, east], [north, west]]`, closed, in `[lat, lng]` order. */
  function Corners(bbox: Bounds): (r: seq<Location>)
    ensures |r| == 5 && r[0] == r[4]
    ensures r[0] == (bbox.1.0, bbox.0.1) && r[1] == (bbox.1.0, bbox.1.1)
    ensures r[2] == (bbox.0.0, bbox.1.1) && r[3] == (bbox.0.0, bbox.0.1)
  {
    var south, east := bbox.0.0, bbox.0.1;
    var north, west := bbox.1.0, bbox.1.1;
    [(north, east), (north, west), (south, west), (south, east), (north, east)]
  }

  function BboxToCoordinates(bbox: Bounds, latLng: bool): (r: seq<Location>)
    ensures |r| == 5 && r[0] == r[4]
    ensures latLng ==> r == Corners(bbox)
    ensures !latLng ==> forall k :: 0 <= k < 5 ==> r[k] == SwitchLatLng(Corners(bbox)[k])
  {
    var coords := Corners(bbox);
    if latLng then coords else seq(5, k requires 0 <= k < 5 => SwitchLatLng(coords[k]))
  }

  datatype LatLng = LatLng(lat: real, lng: real)
  datatype LeafletBounds = LeafletBounds(northEast: LatLng, southWest: LatLng)

  function LatLngToArray(leaflet: LatLng, latLng: bool): (r: Location)
    ensures latLng ==> r.0 == leaflet.lat && r.1 == leaflet.lng
    ensures !latLng ==> r.0 == leaflet.lng && r.1 == leaflet.lat
  {
    if latLng then (leaflet.lat, leaflet.lng) else (leaflet.lng, leaflet.lat)
  }

  function LatLngsToArray(latLngs: seq<LatLng>, latLng: bool): (r: seq<Location>)
    ensures |r| == |latLngs|
    ensures forall k :: 0 <= k < |r| ==> r[k] == LatLngToArray(latLngs[k], latLng)
  {
    seq(|latLngs|, k requires 0 <= k < |latLngs| => LatLngToArray(latLngs[k], latLng))
  }

  function LatLngBoundsToArray(bounds: LeafletBounds, latLng: bool): (r: Bounds)
    ensures r.0 == LatLngToArray(bounds.northEast, latLng)
    ensures r.1 == LatLngToArray(bounds.southWest, latLng)
  {
    var arr := ((bounds.northEast.lat, bounds.northEast.lng), (bounds.southWest.lat, bounds.southWest.lng));
    if !latLng then SwitchLatLngBounds(arr) else arr
  }

  // ---------------------------------------------------------------------
  // Nesting depth and exterior rings

  predicate NonEmptyArr(v: Json) {
    v.Arr? && |v.elems| > 0
  }

  /** `depth(arr, level)`: follow first elements while they are non-empty arrays. */
  function Depth(arr: Json, level: nat): (d: nat)
    ensures d >= level
    ensures !NonEmptyArr(arr) ==> d == level
    decreases arr
  {
    if NonEmptyArr(arr) then Depth(arr.elems[0], level + 1) else level
  }

  /** The result of `depth` is the starting level plus the number of levels descended. */
  lemma {:induction false} DepthCountsLevels(arr: Json, level: nat)
    ensures Depth(arr, level) == level + Depth(arr, 0)
    decreases arr
  {
    if NonEmptyArr(arr) {
      DepthCountsLevels(arr.elems[0], level + 1);
      DepthCountsLevels(arr.elems[0], 1);
    }
  }

  /** Depth at least 1 means a non-empty array whose first element has one level less. */
  lemma DepthDescends(arr: Json)
    requires Depth(arr, 0) >= 1
    ensures NonEmptyArr(arr) && Depth(arr.elems[0], 0) == Depth(arr, 0) - 1
  {
    DepthCountsLevels(arr.elems[0], 1);
  }

  /** A GeoJSON geometry: its `type` and its (nested number array) `coordinates`. */
  datatype Geometry = Geometry(kind: string, coordinates: Json)

  /** Coordinates of a polygon whose exterior ring can be located. */
  predicate HasExterior(g: Geometry) {
    g.kind == "Polygon" && (Depth(g.coordinates, 0) == 3 || Depth(g.coordinates, 0) == 2)
  }

  function GetExteriorLineString(g: Geometry): (r: Result<seq<Json>, Exception>)
    ensures g.kind == "MultiPolygon" ==> r == Err(Error("nope"))
    ensures g.kind != "MultiPolygon" && g.kind != "Polygon" ==> r == Err(Error("NAYYY"))
    ensures g.kind == "Polygon" && !HasExterior(g) ==> r == Err(Error("Malformed polygon?"))
    ensures r.Ok? <==> HasExterior(g)
    ensures r.Ok? && Depth(g.coordinates, 0) == 3 ==> Arr(r.value) == g.coordinates.elems[0]
    ensures r.Ok? && Depth(g.coordinates, 0) == 2 ==> Arr(r.value) == g.coordinates
    ensures r.Ok? ==> |r.value| > 0
  {
    if g.kind == "MultiPolygon" then Err(Error("nope"))
    else if g.kind == "Polygon" then
      var d := Depth(g.coordinates, 0);
      if d == 3 then
        DepthDescends(g.coordinates);
        DepthDescends(g.coordinates.elems[0]);
        Ok(g.coordinates.elems[0].elems)
      else if d == 2 then
        DepthDescends(g.coordinates);
        Ok(g.coordinates.elems)
      else Err(Error("Malformed polygon?"))
    else Err(Error("NAYYY"))
  }

  /** `g` with its exterior ring (where `GetExteriorLineString` found it) replaced by `ring`. */
  function ReplaceExterior(g: Geometry, ring: seq<Json>): (r: Geometry)
    requires HasExterior(g)
    ensures r.kind == g.kind
    // at depth 3 the first ring is replaced and the holes are kept
    ensures Depth(g.coordinates, 0) == 3 ==>
      r.coordinates.Arr? && |r.coordinates.elems| == |g.coordinates.elems|
      && r.coordinates.elems[0] == Arr(ring) && r.coordinates.elems[1..] == g.coordinates.elems[1..]
    // at depth 2 the coordinates are the ring itself
    ensures Depth(g.coordinates, 0) == 2 ==> r.coordinates == Arr(ring)
  {
    DepthDescends(g.coordinates);
    if Depth(g.coordinates, 0) == 3 then
      g.(coordinates := Arr([Arr(ring)] + g.coordinates.elems[1..]))
    else
      g.(coordinates := Arr(ring))
  }

  /** Writing back the ring that was read changes nothing. */
  lemma ReplaceExteriorRoundTrip(g: Geometry)
    requires HasExterior(g)
    ensures ReplaceExterior(g, GetExteriorLineString(g).value) == g
  {
    DepthDescends(g.coordinates);
    var es := g.coordinates.elems;
    if Depth(g.coordinates, 0) == 3 {
      assert [Arr(es[0].elems)] + es[1..] == es;
    }
  }

  /** A ring of the same nesting depth as the exterior it replaces reads back as the exterior. */
  lemma ReplaceExteriorReadBack(g: Geometry, ring: seq<Json>)
    requires HasExterior(g)
    requires Depth(Arr(ring), 0) == Depth(Arr(GetExteriorLineString(g).value), 0)
    ensures GetExteriorLineString(ReplaceExterior(g, ring)) == Ok(ring)
  {
    DepthDescends(g.coordinates);
    var r := ReplaceExterior(g, ring);
    if Depth(g.coordinates, 0) == 3 {
      DepthCountsLevels(Arr(ring), 1);
      assert Depth(r.coordinates, 0) == Depth(Arr(ring), 1);
    }
  }

  // ---------------------------------------------------------------------
  // Vertex snapping (matchPolygons)

  /** Indices `j < n` of `b` vertices within `threshold` of `aLoc`, ascending. */
  function Matches(aLoc: Json, bRing: seq<Json>, dist: (Json, Json) -> real, threshold: real, n: nat): (js: seq<nat>)
    requires n <= |bRing|
    ensures forall k :: 0 <= k < |js| ==> js[k] < n
  {
    if n == 0 then []
    else Matches(aLoc, bRing, dist, threshold, n - 1)
         + (if dist(aLoc, bRing[n - 1]) <= threshold then [n - 1] else [])
  }

  /** The last `b` vertex below `n` within `threshold` of `aLoc`, if any. */
  function LastMatch(aLoc: Json, bRing: seq<Json>, dist: (Json, Json) -> real, threshold: real, n: nat): (r: Option<nat>)
    requires n <= |bRing|
    ensures r.Some? ==> r.value < n && dist(aLoc, bRing[r.value]) <= threshold
    ensures r.Some? ==> forall j :: r.value < j < n ==> dist(aLoc, bRing[j]) > threshold
    ensures r.None? ==> forall j :: 0 <= j < n ==> dist(aLoc, bRing[j]) > threshold
  {
    if n == 0 then None
    else if dist(aLoc, bRing[n - 1]) <= threshold then Some(n - 1)
    else LastMatch(aLoc, bRing, dist, threshold, n - 1)
  }

  /** The ring of `a` after snapping: each vertex that has a `b` vertex within `threshold` becomes the last such one. */
  function Snapped(aRing: seq<Json>, bRing: seq<Json>, dist: (Json, Json) -> real, threshold: real): (r: seq<Json>)
    ensures |r| == |aRing|
    ensures forall i :: 0 <= i < |aRing| ==>
      ((forall j :: 0 <= j < |bRing| ==> dist(aRing[i], bRing[j]) > threshold) ==> r[i] == aRing[i])
  {
    seq(|aRing|, i requires 0 <= i < |aRing| =>
      match LastMatch(aRing[i], bRing, dist, threshold, |bRing|)
      case Some(j) => bRing[j]
      case None => aRing[i])
  }

  /** A snapped vertex equals the last `b` vertex in scan order that is within `threshold`. */
  lemma SnappedVertex(aRing: seq<Json>, bRing: seq<Json>, dist: (Json, Json) -> real, threshold: real, i: nat)
    requires i < |aRing|
    ensures (exists j :: 0 <= j < |bRing| && dist(aRing[i], bRing[j]) <= threshold) ==>
      exists j :: 0 <= j < |bRing| && dist(aRing[i], bRing[j]) <= threshold
        && Snapped(aRing, bRing, dist, threshold)[i] == bRing[j]
        && forall j' :: j < j' < |bRing| ==> dist(aRing[i], bRing[j']) > threshold
  {
    var m := LastMatch(aRing[i], bRing, dist, threshold, |bRing|);
    if m.Some? {
      assert Snapped(aRing, bRing, dist, threshold)[i] == bRing[m.value];
    }
  }

  /** The pairs `(i, j)` recorded for one `a` vertex `i`, given its matches. */
  function RowPairs(i: nat, js: seq<nat>): (ps: seq<(nat, nat)>)
    ensures |ps| == |js|
    ensures forall k :: 0 <= k < |js| ==> ps[k] == (i, js[k])
  {
    seq(|js|, k requires 0 <= k < |js| => (i, js[k]))
  }

  /** Every recorded pair indexes both rings. */
  predicate PairsInRange(ps: seq<(nat, nat)>, aLen: nat, bLen: nat) {
    forall k :: 0 <= k < |ps| ==> ps[k].0 < aLen && ps[k].1 < bLen
  }

  /** The matches of every `a` vertex against the whole of `b`. */
  function MatchRows(aRing: seq<Json>, bRing: seq<Json>, dist: (Json, Json) -> real, threshold: real): (rows: seq<seq<nat>>)
    ensures |rows| == |aRing|
    ensures forall i :: 0 <= i < |aRing| ==> rows[i] == Matches(aRing[i], bRing, dist, threshold, |bRing|)
  {
    seq(|aRing|, i requires 0 <= i < |aRing| => Matches(aRing[i], bRing, dist, threshold, |bRing|))
  }

  /** The first `m` rows, each expanded to its pairs, in order. */
  function PairsOfRows(rows: seq<seq<nat>>, m: nat): seq<(nat, nat)>
    requires m <= |rows|
  {
    if m == 0 then [] else PairsOfRows(rows, m - 1) + RowPairs(m - 1, rows[m - 1])
  }

  /** The `intersection` list after the outer scan has visited the first `m` vertices of `a`. */
  function MatchPairs(aRing: seq<Json>, bRing: seq<Json>, dist: (Json, Json) -> real, threshold: real, m: nat): seq<(nat, nat)>
    requires m <= |aRing|
  {
    PairsOfRows(MatchRows(aRing, bRing, dist, threshold), m)
  }

  lemma {:induction false} PairsOfRowsInRange(rows: seq<seq<nat>>, m: nat, bLen: nat)
    requires m <= |rows|
    requires forall i, k :: 0 <= i < |rows| && 0 <= k < |rows[i]| ==> rows[i][k] < bLen
    ensures PairsInRange(PairsOfRows(rows, m), m, bLen)
    decreases m
  {
    if m > 0 {
      PairsOfRowsInRange(rows, m - 1, bLen);
    }
  }

  /** Every pair recorded after `m` rows indexes both rings. */
  lemma MatchPairsInRange(aRing: seq<Json>, bRing: seq<Json>, dist: (Json, Json) -> real, threshold: real, m: nat)
    requires m <= |aRing|
    ensures PairsInRange(MatchPairs(aRing, bRing, dist, threshold, m), m, |bRing|)
  {
    PairsOfRowsInRange(MatchRows(aRing, bRing, dist, threshold), m, |bRing|);
  }

  /** `aPoly[aIdx] = bPoly[bIdx]` for every recorded pair, in order. */
  function Overwrite(ring: seq<Json>, bRing: seq<Json>, ps: seq<(nat, nat)>): (r: seq<Json>)
    requires PairsInRange(ps, |ring|, |bRing|)
    ensures |r| == |ring|
  {
    if |ps| == 0 then ring
    else
      var p := ps[|ps| - 1];
      Overwrite(ring, bRing, ps[..|ps| - 1])[p.0 := bRing[p.1]]
  }

  /** The `b` index of the last recorded pair for `a` vertex `x`. */
  function LastFor(ps: seq<(nat, nat)>, x: nat): Option<nat> {
    if |ps| == 0 then None
    else if ps[|ps| - 1].0 == x then Some(ps[|ps| - 1].1)
    else LastFor(ps[..|ps| - 1], x)
  }

  lemma {:induction false} OverwriteAt(ring: seq<Json>, bRing: seq<Json>, ps: seq<(nat, nat)>, x: nat)
    requires PairsInRange(ps, |ring|, |bRing|) && x < |ring|
    ensures LastFor(ps, x).Some? ==> LastFor(ps, x).value < |bRing|
    ensures Overwrite(ring, bRing, ps)[x] ==
      match LastFor(ps, x) case Some(j) => bRing[j] case None => ring[x]
    decreases |ps|
  {
    if |ps| > 0 {
      OverwriteAt(ring, bRing, ps[..|ps| - 1], x);
    }
  }

  lemma {:induction false} LastForConcat(p: seq<(nat, nat)>, q: seq<(nat, nat)>, x: nat)
    ensures LastFor(p + q, x) == if LastFor(q, x).Some? then LastFor(q, x) else LastFor(p, x)
    decreases |q|
  {
    if |q| == 0 {
      assert p + q == p;
    } else {
      assert (p + q)[..|p + q| - 1] == p + q[..|q| - 1];
      LastForConcat(p, q[..|q| - 1], x);
    }
  }

  lemma {:induction false} LastForRow(i: nat, js: seq<nat>, x: nat)
    ensures LastFor(RowPairs(i, js), x) == if x == i && |js| > 0 then Some(js[|js| - 1]) else None
    decreases |js|
  {
    if |js| > 0 {
      assert RowPairs(i, js)[..|js| - 1] == RowPairs(i, js[..|js| - 1]);
      LastForRow(i, js[..|js| - 1], x);
    }
  }

  /** The last pair for `x` among the first `m` rows ends row `x`, when that row is reached and not empty. */
  lemma {:induction false} LastForPairsOfRows(rows: seq<seq<nat>>, m: nat, x: nat)
    requires m <= |rows|
    ensures LastFor(PairsOfRows(rows, m), x) ==
      if x < m && |rows[x]| > 0 then Some(rows[x][|rows[x]| - 1]) else None
    decreases m
  {
    if m > 0 {
      var p, q := PairsOfRows(rows, m - 1), RowPairs(m - 1, rows[m - 1]);
      LastForConcat(p, q, x);
      LastForRow(m - 1, rows[m - 1], x);
      LastForPairsOfRows(rows, m - 1, x);
    }
  }

  lemma {:induction false} LastOfMatches(aLoc: Json, bRing: seq<Json>, dist: (Json, Json) -> real, threshold: real, n: nat)
    requires n <= |bRing|
    ensures var js := Matches(aLoc, bRing, dist, threshold, n);
      if |js| > 0 then LastMatch(aLoc, bRing, dist, threshold, n) == Some(js[|js| - 1])
      else LastMatch(aLoc, bRing, dist, threshold, n) == None
    decreases n
  {
    if n > 0 {
      LastOfMatches(aLoc, bRing, dist, threshold, n - 1);
    }
  }

  /** The last pair recorded for `x` names the last `b` vertex within `threshold` of it. */
  lemma LastForMatchPairs(aRing: seq<Json>, bRing: seq<Json>, dist: (Json, Json) -> real, threshold: real, m: nat, x: nat)
    requires m <= |aRing|
    ensures LastFor(MatchPairs(aRing, bRing, dist, threshold, m), x) ==
      if x < m then LastMatch(aRing[x], bRing, dist, threshold, |bRing|) else None
  {
    LastForPairsOfRows(MatchRows(aRing, bRing, dist, threshold), m, x);
    if x < m {
      LastOfMatches(aRing[x], bRing, dist, threshold, |bRing|);
    }
  }

  /** Replaying every recorded pair yields the snapped ring. */
  lemma OverwriteAllIsSnapped(aRing: seq<Json>, bRing: seq<Json>, dist: (Json, Json) -> real, threshold: real)
    ensures var ps := MatchPairs(aRing, bRing, dist, threshold, |aRing|);
      PairsInRange(ps, |aRing|, |bRing|) && Overwrite(aRing, bRing, ps) == Snapped(aRing, bRing, dist, threshold)
  {
    var ps := MatchPairs(aRing, bRing, dist, threshold, |aRing|);
    MatchPairsInRange(aRing, bRing, dist, threshold, |aRing|);
    forall x | 0 <= x < |aRing|
      ensures Overwrite(aRing, bRing, ps)[x] == Snapped(aRing, bRing, dist, threshold)[x]
    {
      OverwriteAt(aRing, bRing, ps, x);
      LastForMatchPairs(aRing, bRing, dist, threshold, |aRing|, x);
    }
  }

  /** What `matchPolygons(a, b)` returns: `a` with its exterior ring snapped onto `b`, and `b` itself. */
  function MatchedPolygons(a: Geometry, b: Geometry, dist: (Json, Json) -> real, threshold: real): (r: Result<(Geometry, Geometry), Exception>)
    ensures r.Err? <==> !HasExterior(a) || !HasExterior(b)
    ensures !HasExterior(a) ==> r == Err(GetExteriorLineString(a).error)
    ensures HasExterior(a) && !HasExterior(b) ==> r == Err(GetExteriorLineString(b).error)
    ensures r.Ok? ==> r.value.1 == b && r.value.0.kind == a.kind
    ensures r.Ok? ==>
      var aRing, bRing := GetExteriorLineString(a).value, GetExteriorLineString(b).value;
      r.value.0 == ReplaceExterior(a, Snapped(aRing, bRing, dist, threshold))
  {
    var aRing :- GetExteriorLineString(a);
    var bRing :- GetExteriorLineString(b);
    Ok((ReplaceExterior(a, Snapped(aRing, bRing, dist, threshold)), b))
  }

  /** With no pair of vertices within `threshold`, both polygons come back unchanged. */
  lemma MatchWithoutCloseVerticesIsIdentity(a: Geometry, b: Geometry, dist: (Json, Json) -> real, threshold: real)
    requires HasExterior(a) && HasExterior(b)
    requires var aRing, bRing := GetExteriorLineString(a).value, GetExteriorLineString(b).value;
      forall i, j :: 0 <= i < |aRing| && 0 <= j < |bRing| ==> dist(aRing[i], bRing[j]) > threshold
    ensures MatchedPolygons(a, b, dist, threshold) == Ok((a, b))
  {
    var aRing := GetExteriorLineString(a).value;
    var bRing := GetExteriorLineString(b).value;
    assert Snapped(aRing, bRing, dist, threshold) == aRing;
    ReplaceExteriorRoundTrip(a);
  }

  /**
   * When every vertex of `b` is a position of the same shape as `a`'s first vertex, the
   * returned `a` reads back with its exterior ring snapped onto `b`.
   */
  lemma MatchedExteriorIsSnapped(a: Geometry, b: Geometry, dist: (Json, Json) -> real, threshold: real)
    requires HasExterior(a) && HasExterior(b)
    requires var aRing, bRing := GetExteriorLineString(a).value, GetExteriorLineString(b).value;
      forall j :: 0 <= j < |bRing| ==> Depth(bRing[j], 0) == Depth(aRing[0], 0)
    ensures var aRing, bRing := GetExteriorLineString(a).value, GetExteriorLineString(b).value;
      GetExteriorLineString(MatchedPolygons(a, b, dist, threshold).value.0) == Ok(Snapped(aRing, bRing, dist, threshold))
  {
    var aRing, bRing := GetExteriorLineString(a).value, GetExteriorLineString(b).value;
    var snapped := Snapped(aRing, bRing, dist, threshold);
    assert Depth(snapped[0], 0) == Depth(aRing[0], 0) by {
      var m := LastMatch(aRing[0], bRing, dist, threshold, |bRing|);
      if m.Some? {
        assert snapped[0] == bRing[m.value];
      }
    }
    DepthCountsLevels(snapped[0], 1);
    DepthCountsLevels(aRing[0], 1);
    ReplaceExteriorReadBack(a, snapped);
  }

  /**
   * `matchPolygons`: record every `(i, j)` with `dist(a[i], b[j]) <= threshold`
   * in scan order, then overwrite `a`'s exterior vertices in place.
   */
  method MatchPolygons(a: Geometry, b: Geometry, dist: (Json, Json) -> real, threshold: real)
    returns (r: Result<(Geometry, Geometry), Exception>)
    ensures r == MatchedPolygons(a, b, dist, threshold)
  {
    var aExt := GetExteriorLineString(a);
    if aExt.Err? {
      return Err(aExt.error);
    }
    var bExt := GetExteriorLineString(b);
    if bExt.Err? {
      return Err(bExt.error);
    }
    var aRing, bRing := aExt.value, bExt.value;

    var intersection := RecordMatches(aRing, bRing, dist, threshold);
    MatchPairsInRange(aRing, bRing, dist, threshold, |aRing|);
    var snapped := ApplyMatches(aRing, bRing, intersection);
    OverwriteAllIsSnapped(aRing, bRing, dist, threshold);
    r := Ok((ReplaceExterior(a, snapped), b));
  }

  /** The scan of `matchPolygons`: every `(i, j)` within `threshold`, `i` ascending, then `j` ascending. */
  method RecordMatches(aRing: seq<Json>, bRing: seq<Json>, dist: (Json, Json) -> real, threshold: real)
    returns (intersection: seq<(nat, nat)>)
    ensures intersection == MatchPairs(aRing, bRing, dist, threshold, |aRing|)
  {
    intersection := [];
    var i := 0;
    while i < |aRing|
      invariant 0 <= i <= |aRing|
      invariant intersection == MatchPairs(aRing, bRing, dist, threshold, i)
    {
      var j := 0;
      while j < |bRing|
        invariant 0 <= j <= |bRing|
        invariant intersection == MatchPairs(aRing, bRing, dist, threshold, i)
                                  + RowPairs(i, Matches(aRing[i], bRing, dist, threshold, j))
      {
        ghost var before := Matches(aRing[i], bRing, dist, threshold, j);
        if dist(aRing[i], bRing[j]) <= threshold {
          assert RowPairs(i, before + [j]) == RowPairs(i, before) + [(i, j)];
          intersection := intersection + [(i, j)];
        }
        j := j + 1;
      }
      i := i + 1;
    }
  }

  /** The overwrite of `matchPolygons`: `aPoly[aIdx] = bPoly[bIdx]` on an array holding `a`'s ring. */
  method ApplyMatches(aRing: seq<Json>, bRing: seq<Json>, intersection: seq<(nat, nat)>) returns (ring: seq<Json>)
    requires PairsInRange(intersection, |aRing|, |bRing|)
    ensures ring == Overwrite(aRing, bRing, intersection)
  {
    var aPoly := new Json[|aRing|](k requires 0 <= k < |aRing| => aRing[k]);
    assert aPoly[..] == aRing;
    var k := 0;
    while k < |intersection|
      invariant 0 <= k <= |intersection|
      invariant aPoly[..] == Overwrite(aRing, bRing, intersection[..k])
    {
      var p := intersection[k];
      assert intersection[..k + 1][..k] == intersection[..k];
      aPoly[p.0] := bRing[p.1];
      k := k + 1;
    }
    assert intersection[..k] == intersection;
    ring := aPoly[..];
  }

  // ---------------------------------------------------------------------
  // Annuli

  /** What `donut` returns: a feature collection or a single feature. */
  datatype DonutShape<P> = Collection(features: seq<P>) | Single(feature: P)

  /**
   * `donut(center, radiusInner, radiusOuter)`; `circle` is `turf.circle` and
   * `difference` is `turf.difference`.
   */
  function Donut<C, P>(center: C, radiusInner: real, radiusOuter: real,
                       circle: (C, real) -> P, difference: (P, P) -> P): (d: DonutShape<P>)
    ensures radiusInner >= radiusOuter ==>
      d == Collection([circle(center, radiusInner), circle(center, radiusOuter)])
    ensures radiusInner < radiusOuter ==>
      d == Single(difference(circle(center, radiusOuter), circle(center, radiusInner)))
  {
    var circleOuter := circle(center, radiusOuter);
    var circleInner := circle(center, radiusInner);
    if radiusInner >= radiusOuter then Collection([circleInner, circleOuter])
    else Single(difference(circleOuter, circleInner))
  }

  /** The features a donut contributes to the flattened collection. */
  function Pieces<P>(d: DonutShape<P>): seq<P> {
    match d
    case Collection(fs) => fs
    case Single(f) => [f]
  }

  /** `donuts(center, [r1, r2, r1', r2', ...])`: one donut per consecutive pair, flattened. */
  function Donuts<C, P>(center: C, radii: seq<real>, circle: (C, real) -> P, difference: (P, P) -> P): (fs: seq<P>)
    requires |radii| % 2 == 0
    ensures |radii| / 2 <= |fs| <= |radii|
    decreases |radii|
  {
    if |radii| == 0 then []
    else Pieces(Donut(center, radii[0], radii[1], circle, difference))
         + Donuts(center, radii[2..], circle, difference)
  }

  /** The number of pairs whose inner radius is not below the outer one. */
  function DegeneratePairs(radii: seq<real>): nat
    requires |radii| % 2 == 0
    decreases |radii|
  {
    if |radii| == 0 then 0
    else (if radii[0] >= radii[1] then 1 else 0) + DegeneratePairs(radii[2..])
  }

  /** One feature per proper annulus, two per degenerate pair. */
  lemma {:induction false} DonutsCount<C, P>(center: C, radii: seq<real>, circle: (C, real) -> P, difference: (P, P) -> P)
    requires |radii| % 2 == 0
    ensures |Donuts(center, radii, circle, difference)| == |radii| / 2 + DegeneratePairs(radii)
    decreases |radii|
  {
    if |radii| > 0 {
      DonutsCount(center, radii[2..], circle, difference);
    }
  }

  /** When every pair has `r1 < r2` there is exactly one feature per pair. */
  lemma {:induction false} DonutsOfProperPairs<C, P>(center: C, radii: seq<real>, circle: (C, real) -> P, difference: (P, P) -> P)
    requires |radii| % 2 == 0
    requires forall k :: 0 <= k < |radii| / 2 ==> radii[2 * k] < radii[2 * k + 1]
    ensures |Donuts(center, radii, circle, difference)| == |radii| / 2
    decreases |radii|
  {
    if |radii| > 0 {
      assert radii[0] < radii[1] by { assert radii[2 * 0] < radii[2 * 0 + 1]; }
      var rest := radii[2..];
      forall k | 0 <= k < |rest| / 2 ensures rest[2 * k] < rest[2 * k + 1] {
        assert rest[2 * k] == radii[2 * (k + 1)] && rest[2 * k + 1] == radii[2 * (k + 1) + 1];
      }
      DonutsOfProperPairs(center, rest, circle, difference);
    }
  }
}
