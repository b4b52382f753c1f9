# sbss-vis store and utilities in Dafny

This project is a model of the non-UI logic of sbss-vis. sbss-vis is a Vue/Vuex front end for
spatial blind source separation, and the model covers:

- **Guidance trees.** Each partition strategy (`equal-area`, `cov-diff`, `user`) has a tree of
  regionalization levels and kernels.
- **Tagging.** The provider's boxed JSON is unboxed, and every region or kernel is tagged with the
  position of its level.
- **The `guidanceFocus` getter.** It resolves a strategy's focus record to one kernel and one region.
- **The viewport mask.** This marks the grid cells of a spatial summary that meet the map viewport.
- **The Vuex store.** Its mutations and synchronous actions become a class `Store.Store` with one
  field per piece of state. The class covers the focus, the user input, the in-flight request
  counter, zoom, center and the variables shown on the map.

Next to the store are the utilities it relies on:

- geometry: the bbox ring, lat/lng swapping, exterior-ring extraction, vertex snapping and donuts;
- JSON unboxing;
- the cyrb53 string hash on 32-bit words;
- group/variable ids, index collection, kernel identity and pair enumeration;
- dense matrices: construction, flattening, chunking and melting;
- element-wise array equality;
- the percentile-to-icon rules.

JavaScript values are modelled by `Json.Json`:

- `undefined`, `null`, booleans, numbers (as reals), strings, arrays and objects;
- member access throws a `TypeError` on `null` and `undefined` (`Json.Get`);
- object spread (`Json.Spread`) copies the fields of an object and the indexed items of an array or string
  (their indices as keys), and of nothing else.

Code that throws returns `Result<_, Exception>`.

Modules:

- `Wrappers` holds `Option` and `Result`, and `Json` holds the value model.
- `Types` holds the record shapes of `src/types/store.d.ts`.
- `Api` covers `src/util/api.ts`, `Geo` covers `src/util/geo.ts` and `Util` covers
  `src/util/util.ts`.
- `Matrix`, `Vector` and `Ntile` cover the files of the same names.
- `Tagging` covers `unboxRegionalizations` and `unboxKernels`.
- `FocusLookup` covers the focus records and `guidanceFocus`.
- `Viewport` covers `viewportInSpatialSummary`.
- `Store` covers the state, the mutations and the actions.

## Model

| member | source | states |
|---|---|---|
| Json.Get | src/store/index.ts:27-47 | for the keys the modelled code reads (`apiData.regions`, `region.region_guidance`, `apiData.kernels` here, `r.patch` and `r.ring` at src/store/index.ts:444-446; none of them `length`, an index or a prototype member), reading a property throws exactly on `null`/`undefined`; an object yields its field or `undefined`, any other value `undefined` |
| Json.DecimalStringInjective | src/util/api.ts:9 | distinct indices have distinct numerals, so no spread index key overwrites another |
| Json.IndexedEntries | src/util/api.ts:9 | the entries of a spread array-like are exactly the index keys, each holding its item |
| Json.Spread | src/util/api.ts:9 | spreading an object copies its fields; an array or a string gives exactly the index keys, each holding its element or its one-character string; a number, a boolean, `null` or `undefined` gives `{}` |
| Api.Unbox | src/util/api.ts:1-3 | `unbox(x)` is `x[0]`, or `undefined` for an empty array |
| Api.UnboxValue | src/util/api.ts:13 | the keyless recursive call: an array gives its first element, an object a copy of itself, a string its characters under their indices, a number, boolean, null or undefined `{}` |
| Api.UnboxedObject | src/util/api.ts:5-18 | an array input gives its first element whatever the keys; an object input keeps exactly its keys, unlisted ones unchanged and listed ones unboxed; a number, boolean, `null` or `undefined` gives `{}`; a string gives its characters under their indices |
| Api.UnboxWithoutKeysIsCopy | src/util/api.ts:9-17 | with no keys an object comes back unchanged |
| Api.ListedBoxedFieldIsUnwrapped | src/util/api.ts:12-14 | a listed key holding a non-empty array becomes that array's first element |
| Api.UnboxObject | src/util/api.ts:5-18 | the copy-then-loop implementation computes `UnboxedObject` |
| Geo.SwitchLatLng | src/util/geo.ts:21-23 | the two coordinates are exchanged |
| Geo.SwitchLatLngInvolution | src/util/geo.ts:21-23 | swapping twice is the identity |
| Geo.SwitchLatLngBounds | src/util/geo.ts:25-30 | both corners are swapped, and swapping them back gives the input |
| Geo.Corners | src/util/geo.ts:6-16 | five points, closed, in the order `[north,east]`, `[north,west]`, `[south,west]`, `[south,east]`, `[north,east]` |
| Geo.BboxToCoordinates | src/util/geo.ts:5-19 | five points, first equal to last; the corners themselves when `latLng`, else each corner reversed |
| Geo.LatLngToArray | src/util/geo.ts:38-41 | `[lat, lng]` when `latLng`, `[lng, lat]` otherwise |
| Geo.LatLngsToArray | src/util/geo.ts:43-45 | same length, each point converted by `LatLngToArray` |
| Geo.LatLngBoundsToArray | src/util/geo.ts:47-56 | north-east then south-west, each converted with the same orientation flag |
| Geo.Depth | src/util/geo.ts:98-103 | at least the starting level, and the starting level itself for anything but a non-empty array |
| Geo.DepthCountsLevels | src/util/geo.ts:98-103 | depth from `level` is `level` plus the number of first-element levels descended |
| Geo.DepthDescends | src/util/geo.ts:99-100 | positive depth means a non-empty array whose first element is one level shallower |
| Geo.GetExteriorLineString | src/util/geo.ts:105-123 | throws "nope" on MultiPolygon, "NAYYY" on other non-polygons, "Malformed polygon?" unless the depth is 2 or 3; depth 3 gives the first ring, depth 2 the coordinates themselves |
| Geo.ReplaceExterior | src/util/geo.ts:105-123 | writing a ring keeps the geometry's type; at depth 3 it replaces the first ring and keeps the holes, at depth 2 it replaces the coordinates |
| Geo.ReplaceExteriorReadBack | src/util/geo.ts:105-123 | reading the exterior after writing a ring of the same nesting gives that ring |
| Geo.ReplaceExteriorRoundTrip | src/util/geo.ts:105-123 | writing back the ring that was read gives the same geometry |
| Geo.LastMatch | src/util/geo.ts:84-88 | the last `b` vertex within the distance (inclusive) of an `a` vertex, or none when all are farther |
| Geo.Snapped | src/util/geo.ts:83-93 | same length as `a`'s ring; a vertex with a close `b` vertex becomes the last one, others stay |
| Geo.SnappedVertex | src/util/geo.ts:83-93 | a snapped vertex is a `b` vertex within the distance with none later in the scan |
| Geo.MatchPairsInRange | src/util/geo.ts:83-89 | every recorded pair indexes both rings |
| Geo.OverwriteAllIsSnapped | src/util/geo.ts:91-93 | replaying the recorded pairs in order yields the snapped ring |
| Geo.MatchedPolygons | src/util/geo.ts:65-96 | fails exactly when either exterior cannot be read, with that error; otherwise `b` is returned unchanged and `a` is `a` with its exterior replaced by the snapped ring |
| Geo.MatchedExteriorIsSnapped | src/util/geo.ts:83-96 | for vertices of one nesting, reading back `a`'s exterior after matching gives exactly `Snapped` of the two rings |
| Geo.MatchWithoutCloseVerticesIsIdentity | src/util/geo.ts:83-95 | when no vertex of `a`'s ring is within the distance of a vertex of `b`'s ring, both polygons come back unchanged |
| Geo.MatchPolygons | src/util/geo.ts:65-96 | the loop implementation computes `MatchedPolygons` |
| Geo.RecordMatches | src/util/geo.ts:81-89 | the nested scan records exactly `MatchPairs`, `i` ascending then `j` ascending |
| Geo.ApplyMatches | src/util/geo.ts:91-93 | the in-place overwrite loop yields `Overwrite` of the recorded pairs |
| Geo.Donut | src/util/geo.ts:125-138 | `radiusInner >= radiusOuter` gives the collection `[inner, outer]`, otherwise the difference of outer and inner |
| Geo.Donuts | src/util/geo.ts:140-155 | between one and two features per pair of radii |
| Geo.DonutsCount | src/util/geo.ts:140-155 | one feature per pair plus one more per degenerate pair |
| Geo.DonutsOfProperPairs | src/util/geo.ts:140-155 | when every pair has `r1 < r2` there is exactly one feature per pair |
| Util.Combine | src/util/util.ts:17 | the result is below 2^53, its low 32 bits are `h1 >>> 0` and the rest is `h2 & 0x1FFFFF` |
| Util.PlaceValue | src/util/util.ts:17 | `4294967296 * high + low` stays below 2^53 and splits back into `high` and `low` |
| Util.Cyrb53 | src/util/util.ts:3-18 | the hash is a natural number below 2^53 |
| Util.Hash | src/util/util.ts:3-18 | the loop over code units computes `Cyrb53`, below 2^53 |
| Util.GroupVariableId | src/util/util.ts:20-22 | the group, a `/`, then the variable |
| Util.GroupVariableIdSplits | src/util/util.ts:20-22 | for a group without `/` the id splits back into group and variable |
| Util.Collect | src/util/util.ts:40-42 | one entry per index, `arr[i]` in range and `undefined` outside |
| Util.CollectEveryIndex | src/util/util.ts:40-42 | collecting every index in order gives the array back |
| Util.SameKernel | src/util/util.ts:44-53 | false when either kernel is undefined; otherwise true exactly when depth, index and region depth agree, whatever the ring and the data |
| Util.SameKernelIsEquivalence | src/util/util.ts:44-53 | false when either kernel is absent, otherwise reflexive, symmetric and transitive |
| Util.TriClosedForm | src/util/util.ts:55-65 | the number of pairs is n(n-1)/2 |
| Util.PairCalls | src/util/util.ts:55-65 | n(n-1)/2 calls, each with `j < i < n` and the elements at those positions |
| Util.PairCalledAt | src/util/util.ts:59-63 | every pair `j < i < n` is called, at its position in the order |
| Util.CallsInPairOrder | src/util/util.ts:59-63 | call `k` is the pair whose position is `k`: `i` ascending and, within `i`, `j` descending |
| Util.ForEachPair | src/util/util.ts:55-65 | the nested loops make exactly the calls `PairCalls` lists |
| Matrix.NewMatrix | src/util/matrix.ts:3-17 | `range(rows)` rows of `range(cols)` entries, all equal to `init` |
| Matrix.FlattenLength | src/util/matrix.ts:19-25 | the flattened length is the sum of the row lengths |
| Matrix.FlattenIndex | src/util/matrix.ts:19-25 | entry `(i, j)` sits after the earlier rows' entries, in row order |
| Matrix.MatrixToVector | src/util/matrix.ts:19-25 | the loop computes the row-order concatenation |
| Matrix.VectorToMatrix | src/util/matrix.ts:27-33 | `s` rows, row `i` the slice `v[i*s .. (i+1)*s]` clamped at the end; no rows for `s <= 0` |
| Matrix.ChunkFlattenedSquare | src/util/matrix.ts:19-33 | chunk `i` of a flattened square matrix is row `i` |
| Matrix.VectorToMatrixOfMatrixToVector | src/util/matrix.ts:19-33 | for an s×s matrix `vectorToMatrix(matrixToVector(M), s) == M` |
| Matrix.Melt | src/util/matrix.ts:43-61 | throws exactly when the column names default on an empty matrix; otherwise the row-major cells with the given or default names |
| Matrix.MoltenLength | src/util/matrix.ts:48-60 | one cell per entry |
| Matrix.MoltenIndex | src/util/matrix.ts:48-60 | the cell after the earlier rows' entries has position `(i, j)`, those rows' names and value `M[i][j]` |
| Matrix.DefaultNames | src/util/matrix.ts:45-46 | for a non-empty matrix with no row longer than the first, default names make every `rowName` "row" and every `colName` "col" |
| Matrix.DefaultColNamePastFirstRow | src/util/matrix.ts:46-55 | the default column names come from the first row, so a cell of a longer row past the first row's length gets `colName` `undefined` |
| Matrix.MoltenCellsInRange | src/util/matrix.ts:49-50 | every cell's indices are positions of the matrix |
| Vector.IsEqual | src/util/vector.ts:1-10 | the same reference gives true; one null gives false; different lengths give false; otherwise true iff `compFn` holds at every index, stopping at the first failure |
| Ntile.NtileToRotation | src/util/ntile.ts:10-15 | 0 or 180, and 180 exactly for a non-empty cell above 3 |
| Ntile.NtileToSize | src/util/ntile.ts:17-28 | 0 exactly for empty, 1 exactly for 3..4, 2 exactly for 2 or 5, 3 otherwise |
| Ntile.SizeIsSymmetric | src/util/ntile.ts:17-28 | the size of percentile `p` equals the size of `7 - p` |
| Ntile.RotationIsMirrored | src/util/ntile.ts:10-15 | on 0..7 the rotations of `p` and `7 - p` add up to 180 |
| Ntile.GetIconIndexForPercentile | src/util/ntile.ts:30-32 | for `0 <= pct < 6`, index div 6 is the set and index mod 6 the percentile |
| Ntile.IconIndexIsInjective | src/util/ntile.ts:30-32 | distinct (percentile, set) pairs in range get distinct icons |
| Ntile.IsNotEmpty | src/util/ntile.ts:3-8 | the type guard holds exactly for a finite number: `null`, `NaN` and the infinities are empty |
| Tagging.TagKernel | src/store/index.ts:48-51 | keys are the raw record's plus `region_depth`; `region_depth` is the level unless the raw record has it; listed keys unboxed, others kept |
| Tagging.TagKernelLevels | src/store/index.ts:47-52 | fails exactly when a level is not an array; otherwise level `d` holds the kernels tagged with `d` |
| Tagging.KernelsField | src/store/index.ts:47 | `apiData.kernels || []`: throws on a missing response, `[]` for a missing or falsy field |
| Tagging.UnboxKernels | src/store/index.ts:46-53 | succeeds exactly when the kernels field is an array of arrays; level `d` is tagged with `d` |
| Tagging.MissingKernelsIsEmpty | src/store/index.ts:47 | a response without a truthy `kernels` field yields no levels |
| Tagging.KernelTaggedWithLevel | src/store/index.ts:46-53 | kernel `k` of level `d` has `region_depth = d` unless the raw record carries its own |
| Tagging.GuidanceFields | src/store/index.ts:35-40 | the fields spread from `region_guidance`: an object's keys, `type`, `num_points`, `diff_ev` and `diff_cov` unboxed and the rest kept; a boxed `[{...}]` gives the first element's fields; an empty array or a primitive other than a string gives none |
| Tagging.TagRegion | src/store/index.ts:28-43 | throws exactly on a `null`/`undefined` region; for an object region the keys are `depth`, the region's and the guidance's; guidance fields win, then the region's with `id`, `index` and `depth` unboxed, then the level; an array region gives its first element spread after the level; a number or boolean gives only the level |
| Tagging.RegionDepth | src/store/index.ts:28-43 | `depth` comes from the guidance record (also when it is boxed as `[{...}]`), else the region's own field unboxed, else the level |
| Tagging.TagRegionLevel | src/store/index.ts:28-44 | succeeds exactly when no region is `null`/`undefined`, each region tagged |
| Tagging.TagRegionLevels | src/store/index.ts:27-44 | succeeds exactly when every level is an array without `null`/`undefined` |
| Tagging.UnboxRegionalizations | src/store/index.ts:26-45 | succeeds exactly when `apiData.regions` is an array of such levels, with one tagged level per raw level |
| Tagging.RegionTaggedWithLevel | src/store/index.ts:27-44 | region `k` of level `d` is the raw region tagged with `d` |
| Tagging.TreeFromResponse | src/store/index.ts:426-434 | succeeds exactly when both unboxings do, holding their results |
| FocusLookup.Merge | src/store/index.ts:276-280 | every field the patch carries replaces the old one, the others are kept |
| FocusLookup.MergeLaws | src/store/index.ts:276-280 | merging the same patch twice changes nothing more, and an empty patch changes nothing |
| FocusLookup.MergeAssociates | src/store/index.ts:276-280 | merging two patches one after the other equals merging their merge |
| FocusLookup.FindIndex | src/store/index.ts:184-189 | the position of the first element satisfying the predicate, or none when none does |
| FocusLookup.Find | src/store/index.ts:184-189 | finds something exactly when some element satisfies the predicate, and what it finds satisfies it |
| FocusLookup.FindIsFirstMatch | src/store/index.ts:184-189 | `find` returns the first element satisfying the predicate, or nothing |
| FocusLookup.GuidanceFocus | src/store/index.ts:168-191 | `{}` for an unknown strategy; throws on a missing focus; no kernel and region for an empty tree; otherwise throws exactly for a level outside the tree and else the first matching kernel and region |
| Viewport.RingRectIsExtent | src/store/index.ts:232 | the rectangle spanned by a five-point ring: contains every point, and each side touches one |
| Viewport.RingOfBox | src/store/index.ts:232 | the ring of a bbox spans exactly the bbox rectangle |
| Viewport.ViewportInSpatialSummary | src/store/index.ts:222-266 | throws exactly when a column longer than L has a hit past row L; otherwise an L×L mask, 1 exactly at the cells whose rectangle meets the viewport |
| Viewport.CellBoxRect | src/store/index.ts:246-256 | the box built from a cell's two corners spans the cell rectangle |
| Viewport.CellTestIsHit | src/store/index.ts:256-259 | the polygon intersection test on a cell is exactly `Hit` for that cell |
| Viewport.CellRectIsGridRect | src/store/index.ts:227-256 | the cell arithmetic is the `l` by `l` grid laid over the dataset box from its north-west corner |
| Viewport.MarkRow | src/store/index.ts:245-263 | one column's inner loop marks exactly the hit cells, or throws when a hit falls outside the mask |
| Viewport.CellInsideDataset | src/store/index.ts:228-256 | every cell of the grid lies within the dataset bbox |
| Viewport.ViewportCoveringDatasetHitsAll | src/store/index.ts:245-263 | a viewport covering the dataset marks every cell |
| Viewport.ViewportApartFromDatasetHitsNone | src/store/index.ts:245-263 | a viewport apart from the dataset marks no cell |
| Viewport.SquareSummaryHasNoShapeError | src/store/index.ts:238-263 | a square summary never throws |
| Store.MergedUserData | src/store/index.ts:366-369 | keys are the old input's plus the payload's without `__fetch__`; payload values win, the old ones are kept elsewhere |
| Store.Without | src/store/index.ts:330-334 | the remaining entries are exactly those different from the removed pair, each as often as before (multiset) |
| Store.WithoutConcat | src/store/index.ts:330-334 | filtering distributes over concatenation, so the order of the remaining entries is kept |
| Store.WithoutAbsent | src/store/index.ts:330-334 | removing a pair that is not shown changes nothing |
| Store.RemoveAfterAdd | src/store/index.ts:327-334 | removing a pair just added gives what removing it before would have |
| Store.RegionsAt | src/store/index.ts:383-385 | the focused level's regions when the level is an index of the tree, `undefined` otherwise |
| Store.KernelsFor | src/store/index.ts:386-387 | `[kernel]` when the focused kernel resolves, `[]` otherwise |
| Store.CopyPayload | src/store/index.ts:383-389 | exactly the keys `regions`, `kernels` and `__fetch__`; the focused level's regions, `[kernel]` or `[]`, and a truthy `__fetch__` |
| Store.LatLngOf | src/store/index.ts:444 | destructuring `[lng, lat]` throws exactly on a value that is not an array or string; a pair gives `{lat, lng}` swapped, an empty array two `undefined` |
| Store.PatchLatLngs | src/store/index.ts:444 | mapping a region's patch throws exactly when the patch is missing, not an array or holds an undestructurable vertex; else one `{lat, lng}` per vertex |
| Store.RequestBody | src/store/index.ts:442-447 | building the body throws exactly when `RequestBuildable` fails (always a `TypeError`); otherwise `{regions, kernels}` with one converted patch per region and one ring per kernel |
| Store.CopyOfMissingLevelCannotBeSent | src/store/index.ts:375-390 | copying a focus whose level has no regions sends `regions: undefined`, so building the request body throws |
| Store.Store.constructor | src/store/index.ts:81-153 | the default state: equal-area active, the initial focus and empty trees for all strategies, empty user input, no requests, zoom 5, center (12, 53) |
| Store.Store.Focused | src/store/index.ts:168-191 | in a valid state (a focus and a tree for every strategy) the getter throws only for a known strategy with a non-empty tree whose level is out of range |
| Store.Store.SetParameterInputFocus | src/store/index.ts:274-283 | only the target strategy's focus changes, to the old one patched field by field; it becomes active |
| Store.Store.IncInflightRequests | src/store/index.ts:284-286 | the counter goes up by one |
| Store.Store.DecInflightRequests | src/store/index.ts:287-289 | the counter goes down by one |
| Store.Store.SetGuidance | src/store/index.ts:318-323 | only that strategy's tree is replaced |
| Store.Store.CommitUserData | src/store/index.ts:335-337 | the user input is replaced |
| Store.Store.AddVariableToMap | src/store/index.ts:327-329 | the pair is appended |
| Store.Store.RemoveVariableFromMap | src/store/index.ts:330-334 | every occurrence of the pair is removed, order kept |
| Store.Store.SetUserData | src/store/index.ts:365-374 | the merged input is committed; a request for it goes out exactly when `__fetch__` is truthy |
| Store.Store.CopyGuidanceFocusToUserData | src/store/index.ts:375-390 | does nothing without a focus record; throws without a tree or exactly when the getter throws; with both and a getter that succeeds it always commits and requests the focused level's regions and `[kernel]` or `[]`; in a valid state it never does nothing |
| Store.Store.SetZoom | src/store/index.ts:401-405 | commits exactly when the zoom differs; the zoom is then the requested one |
| Store.Store.SetCenter | src/store/index.ts:406-414 | commits exactly when a coordinate moved by more than 0.000001; the center ends within that of the request |
| Store.Store.GuidanceResponse | src/store/index.ts:422-435 | a failed request stores nothing; a response that unboxes replaces the strategy's tree |
| Store.Store.FetchGuidance | src/store/index.ts:55-72 | the counter is one higher during the body and back to its old value after, also when the body throws; a response that unboxes becomes the tree of the partition type (default equal-area) |
| Store.Store.FetchGuidanceForUserData | src/store/index.ts:437-460 | the same counter discipline; the body `RequestBody` builds is posted exactly when it builds; the "user" tree is replaced only when it builds and the response unboxes |

## Left out

- HTTP: the axios requests of the `fetch*` actions are not modelled. Each response becomes a parameter (`Option<Json>`, None for a failed request), and the posted body is returned as built by `Store.RequestBody`.
- Async scheduling and races between responses are not modelled, because they are concurrency. A tracked action runs to completion inside one method.
- `console.error`, `Vue.set` and `Object.freeze` are not modelled; they have no effect beyond the assignment.
- turf: `turf.distance`, `turf.circle` and `turf.difference` are function parameters (a foreign geometry library). `booleanIntersects` is closed overlap of the axis-aligned rectangles the two rings span.
- `bboxAspectRatio`, `src/util/format.ts`, `getIconUrlForPercentile` and `vh`/`vw` are not modelled: they are float formatting, an environment path and DOM reads.
- The remaining mutations and getters are not modelled: they are assignments of transport results or projections outside the core. These are `setResult`, `setVisibleLocations`, `setLocationDensity`, `setBounds`, `setSpatialSummary`, `setDataset`, `setDataGroup` and `setUserFeatures`, the getters `initialized`, `userKernels`, `inputVarsInMap`, `bbox`, `bboxPolygon` and `colIndex`, and the actions `setBounds`, `resetViewport` and `setLocationDensity`, which dispatch viewport fetches.
- `Viewport.ViewportInSpatialSummary`: the lookup of `spatialSummaries[group][colnames[0]][level]` is not modelled; the chosen summary level is a parameter.
- `addPropsToFeature` is not modelled; it is a single object spread.
- Numbers are reals: floating-point rounding is not modelled, and NaN and the infinities appear only as the `NonFinite` cell value of a spatial summary.
- `Matrix.NewMatrix` and `Matrix.VectorToMatrix` take integer sizes; lodash `range` and the `<=` loop bound on fractional sizes are not modelled.
- `Geo.Donuts` requires an even number of radii; the destructuring of a trailing single radius (`r2` undefined) is not modelled.
- `Util.Hash` takes the string as UTF-16 code units (`seq<bv16>`), which is what `charCodeAt` yields.
- `Util.Hash` takes the seed as a 32-bit word (`bv32`): it is the seed after JavaScript's ToInt32, which the `^` of `src/util/util.ts:4` applies; seeds that are not integers or lie outside 32 bits are not modelled separately.
- `Util.ForEachPair` records the calls it makes; the iteratee's own effects, and an exception it throws part-way, are not modelled.
- `Geo.MatchPolygons` works on values: the source overwrites the caller's `a` in place, and when `a` and `b` (or their exterior rings) are the same array it reads vertices it has already overwritten. This update in place and this aliasing are not modelled; for `a = b = [p0, p1, p2]` with `p0` close to `p1` and to `p2` but `p1` not close to `p2`, the source ends with `[p2, p2, p2]` in both, the model with `[p2, p1, p2]` and `b` unchanged.
- `Json.Spread` spreads a string per Unicode scalar value (one `char` per index); JavaScript spreads per UTF-16 code unit, so a character outside the Basic Multilingual Plane takes one index here and two there.
- `Json.Get` does not model `length`, index reads or prototype members of arrays and strings; the modelled code reads none of them through `Get`.
- `Vector.IsEqual` takes the comparison as a parameter; the default `===` is not modelled separately.
- `Tagging.KernelTaggedWithLevel` is stated for raw kernels that are not arrays. An array raw kernel is unboxed to its first element, whose own fields then decide `region_depth`.
- Object key order (`Object.entries`) is not modelled; objects are maps.
