/**
 * Turning the provider's guidance response into the store's guidance tree:
 * every region of `regions[d]` is tagged with `depth = d` and every kernel of
 * `kernels[d]` with `region_depth = d`.  The positional tag is written first
 * and the unboxed raw record is spread over it, so a raw field of the same
 * name wins.
 */
module Tagging {
  import opened Wrappers
  import opened Json
  import opened Api

  /** A strategy's guidance: regionalization levels of regions, and kernels per level. */
  datatype Tree = Tree(regions: seq<seq<Record>>, kernels: seq<seq<Record>>)

  const KernelKeys: seq<string> := ["type", "index", "depth"]
  const RegionKeys: seq<string> := ["id", "index", "depth"]
  const RegionGuidanceKeys: seq<string> := ["type", "num_points", "diff_ev", "diff_cov"]

  // ---------------------------------------------------------------------
  // kernels

  /** `{region_depth: d, ...unboxObject(ring, ["type", "index", "depth"])}`. */
  function TagKernel(ring: Json, d: nat): (r: Record)
    ensures "region_depth" in r
    ensures ring.Obj? ==> r.Keys == ring.fields.Keys + {"region_depth"}
    ensures ring.Obj? && "region_depth" !in ring.fields ==> r["region_depth"] == Num(d as real)
    ensures ring.Obj? && "region_depth" in ring.fields ==> r["region_depth"] == ring.fields["region_depth"]
    ensures ring.Obj? ==> forall k :: k in ring.fields && k in KernelKeys ==> r[k] == UnboxValue(ring.fields[k])
    ensures ring.Obj? ==> forall k :: k in ring.fields && k !in KernelKeys ==> r[k] == ring.fields[k]
    ensures ring.Null? || ring.Undefined? || ring.Num? || ring.Bool? ==> r == map["region_depth" := Num(d as real)]
  {
    map["region_depth" := Num(d as real)] + Spread(UnboxedObject(ring, KernelKeys))
  }

  /** `kernels.map(ring => ...)` for the level at position `d`. */
  function TagKernelLevel(level: seq<Json>, d: nat): seq<Record> {
    seq(|level|, k requires 0 <= k < |level| => TagKernel(level[k], d))
  }

  /** `levels.map((kernels, d) => kernels.map(...))` over the first `n` levels; a level that is not an array throws. */
  function TagKernelLevels(levels: seq<Json>, n: nat): (r: Result<seq<seq<Record>>, Exception>)
    requires n <= |levels|
    ensures r.Err? ==> r.error == TypeError
    ensures r.Ok? <==> forall d :: 0 <= d < n ==> levels[d].Arr?
    ensures r.Ok? ==> |r.value| == n
    ensures r.Ok? ==> forall d :: 0 <= d < n ==> r.value[d] == TagKernelLevel(levels[d].elems, d)
    decreases n
  {
    if n == 0 then Ok([])
    else
      var init :- TagKernelLevels(levels, n - 1);
      if levels[n - 1].Arr? then Ok(init + [TagKernelLevel(levels[n - 1].elems, n - 1)]) else Err(TypeError)
  }

  /** `apiData.kernels || []`: reading the field throws on a missing response; a falsy field means no kernels. */
  function KernelsField(api: Json): (r: Result<Json, Exception>)
    ensures r.Err? <==> api.Null? || api.Undefined?
    ensures api.Obj? && ("kernels" !in api.fields || !Truthy(api.fields["kernels"])) ==> r == Ok(Arr([]))
    ensures api.Obj? && "kernels" in api.fields && Truthy(api.fields["kernels"]) ==> r == Ok(api.fields["kernels"])
  {
    var k :- Get(api, "kernels");
    Ok(if Truthy(k) then k else Arr([]))
  }

  /** `unboxKernels(apiData)`. */
  function UnboxKernels(api: Json): (r: Result<seq<seq<Record>>, Exception>)
    ensures r.Err? ==> r.error == TypeError
    ensures KernelsField(api).Err? ==> r.Err?
    ensures KernelsField(api).Ok? ==>
      var ks := KernelsField(api).value;
      (r.Ok? <==> ks.Arr? && forall d :: 0 <= d < |ks.elems| ==> ks.elems[d].Arr?)
    ensures r.Ok? ==>
      var levels := KernelsField(api).value.elems;
      && |r.value| == |levels|
      && forall d :: 0 <= d < |levels| ==> r.value[d] == TagKernelLevel(levels[d].elems, d)
  {
    var ks :- KernelsField(api);
    if ks.Arr? then TagKernelLevels(ks.elems, |ks.elems|) else Err(TypeError)
  }

  /** A response without a (truthy) `kernels` field yields no kernel levels. */
  lemma MissingKernelsIsEmpty(m: Record)
    requires "kernels" !in m || !Truthy(m["kernels"])
    ensures UnboxKernels(Obj(m)) == Ok([])
  {
  }

  /** Kernel `k` of level `d` carries `region_depth = d` unless its raw record (not a boxed array) has that field. */
  lemma KernelTaggedWithLevel(api: Json, d: nat, k: nat)
    requires UnboxKernels(api).Ok?
    requires d < |UnboxKernels(api).value| && k < |UnboxKernels(api).value[d]|
    ensures var raw := KernelsField(api).value.elems[d].elems[k];
      k < |KernelsField(api).value.elems[d].elems| &&
      var expected := if raw.Obj? && "region_depth" in raw.fields then raw.fields["region_depth"] else Num(d as real);
      (!raw.Arr? ==> UnboxKernels(api).value[d][k]["region_depth"] == expected)
  {
    var raw := KernelsField(api).value.elems[d].elems[k];
    assert UnboxKernels(api).value[d][k] == TagKernel(raw, d);
    if raw.Str? {
      var s := raw.s;
      IndexedKeysAreNumerals(seq(|s|, i requires 0 <= i < |s| => Str([s[i]])), |s|, "region_depth");
    }
  }

  /** An index-keyed record only has decimal numerals as keys. */
  lemma {:induction false} IndexedKeysAreNumerals(vs: seq<Json>, n: nat, key: string)
    requires n <= |vs|
    requires |key| > 0 && !('0' <= key[0] <= '9')
    ensures key !in Indexed(vs, n)
    decreases n
  {
    if n > 0 {
      IndexedKeysAreNumerals(vs, n - 1, key);
      var s := DecimalString(n - 1);
      assert '0' <= s[0] <= '9';
    }
  }

  // ---------------------------------------------------------------------
  // regions

  /**
   * `{...unboxObject(rg, ["type", "num_points", "diff_ev", "diff_cov"])}`: the fields a region's
   * `region_guidance` contributes.  A boxed guidance `[g, ...]` contributes the fields of `g`.
   */
  function GuidanceFields(rg: Json): (g: Record)
    ensures rg.Obj? ==> g.Keys == rg.fields.Keys
    ensures rg.Obj? ==> forall k :: k in rg.fields && k in RegionGuidanceKeys ==> g[k] == UnboxValue(rg.fields[k])
    ensures rg.Obj? ==> forall k :: k in rg.fields && k !in RegionGuidanceKeys ==> g[k] == rg.fields[k]
    ensures rg.Arr? && |rg.elems| > 0 && rg.elems[0].Obj? ==> g == rg.elems[0].fields
    ensures (rg.Arr? && |rg.elems| == 0) || rg.Null? || rg.Undefined? || rg.Num? || rg.Bool? ==> g == map[]
  {
    Spread(UnboxedObject(rg, RegionGuidanceKeys))
  }

  /**
   * `{depth: d, ...unboxObject(region, ["id", "index", "depth"]), ...unboxObject(region.region_guidance, [...])}`;
   * reading `region_guidance` throws on a `null` or `undefined` region.
   */
  function TagRegion(region: Json, d: nat): (r: Result<Record, Exception>)
    ensures r.Err? <==> region.Null? || region.Undefined?
    ensures r.Err? ==> r.error == TypeError
    ensures r.Ok? ==> "depth" in r.value
    ensures region.Obj? ==>
      var g := GuidanceFields(Prop(region.fields, "region_guidance"));
      && r.value.Keys == region.fields.Keys + g.Keys + {"depth"}
      // the guidance record is spread last and wins for its own fields ...
      && (forall k :: k in g ==> r.value[k] == g[k])
      // ... then the region's own fields, the listed ones unboxed ...
      && (forall k :: k in region.fields && k !in g && k in RegionKeys ==> r.value[k] == UnboxValue(region.fields[k]))
      && (forall k :: k in region.fields && k !in g && k !in RegionKeys ==> r.value[k] == region.fields[k])
      // ... and only then the positional tag
      && ("depth" !in region.fields && "depth" !in g ==> r.value["depth"] == Num(d as real))
    // a boxed region is its first element, spread over the tag; it has no `region_guidance`
    ensures region.Arr? ==> r.value == map["depth" := Num(d as real)] + Spread(Unbox(region.elems))
    ensures region.Num? || region.Bool? ==> r.value == map["depth" := Num(d as real)]
  {
    var rg :- Get(region, "region_guidance");
    var tagged := map["depth" := Num(d as real)] + Spread(UnboxedObject(region, RegionKeys));
    Ok(tagged + GuidanceFields(rg))
  }

  /** Which spread decides the `depth` of a tagged region record, also for a boxed guidance record. */
  lemma RegionDepth(region: Json, d: nat)
    requires region.Obj?
    ensures var rg := Prop(region.fields, "region_guidance");
      var g := GuidanceFields(rg);
      && TagRegion(region, d).value["depth"] ==
           (if "depth" in g then g["depth"]
            else if "depth" in region.fields then UnboxValue(region.fields["depth"])
            else Num(d as real))
      && (rg.Arr? && |rg.elems| > 0 && rg.elems[0].Obj? && "depth" in rg.elems[0].fields ==>
            TagRegion(region, d).value["depth"] == rg.elems[0].fields["depth"])
  {
  }

  /** `regionalization.map(region => ...)` for the level at position `d`: any region that throws makes the map throw. */
  function TagRegionLevel(level: seq<Json>, d: nat): (r: Result<seq<Record>, Exception>)
    ensures r.Err? ==> r.error == TypeError
    ensures r.Ok? <==> forall k :: 0 <= k < |level| ==> !level[k].Null? && !level[k].Undefined?
    ensures r.Ok? ==> |r.value| == |level| && forall k :: 0 <= k < |level| ==> Ok(r.value[k]) == TagRegion(level[k], d)
  {
    if forall k :: 0 <= k < |level| ==> TagRegion(level[k], d).Ok? then
      Ok(seq(|level|, k requires 0 <= k < |level| => TagRegion(level[k], d).value))
    else Err(TypeError)
  }

  /** Whether level `d` can be tagged: an array without `null` or `undefined` regions. */
  predicate RegionLevelOk(level: Json) {
    level.Arr? && forall k :: 0 <= k < |level.elems| ==> !level.elems[k].Null? && !level.elems[k].Undefined?
  }

  /** Whether level `d` tags without throwing. */
  predicate LevelTags(levels: seq<Json>, d: nat)
    requires d < |levels|
  {
    levels[d].Arr? && TagRegionLevel(levels[d].elems, d).Ok?
  }

  /** `regions.map((regionalization, depth) => ...)`: any level that throws makes the whole map throw. */
  function TagRegionLevels(levels: seq<Json>): (r: Result<seq<seq<Record>>, Exception>)
    ensures r.Err? ==> r.error == TypeError
    ensures r.Ok? <==> forall d :: 0 <= d < |levels| ==> RegionLevelOk(levels[d])
    ensures r.Ok? ==> |r.value| == |levels|
    ensures r.Ok? ==> forall d :: 0 <= d < |levels| ==>
      Ok(r.value[d]) == TagRegionLevel(levels[d].elems, d)
  {
    assert forall d :: 0 <= d < |levels| ==> (LevelTags(levels, d) <==> RegionLevelOk(levels[d]));
    if forall d :: 0 <= d < |levels| ==> LevelTags(levels, d) then
      Ok(seq(|levels|, d requires 0 <= d < |levels| && LevelTags(levels, d) =>
        TagRegionLevel(levels[d].elems, d).value))
    else Err(TypeError)
  }

  /** `unboxRegionalizations(apiData)`: `apiData.regions` must be an array of arrays of records. */
  function UnboxRegionalizations(api: Json): (r: Result<seq<seq<Record>>, Exception>)
    ensures r.Err? ==> r.error == TypeError
    ensures r.Ok? <==>
      && api.Obj? && "regions" in api.fields && api.fields["regions"].Arr?
      && forall d :: 0 <= d < |api.fields["regions"].elems| ==> RegionLevelOk(api.fields["regions"].elems[d])
    ensures r.Ok? ==> |r.value| == |api.fields["regions"].elems|
  {
    var regions :- Get(api, "regions");
    if regions.Arr? then TagRegionLevels(regions.elems) else Err(TypeError)
  }

  /** Region `k` of level `d` of a response is the tagged raw region. */
  lemma RegionTaggedWithLevel(api: Json, d: nat, k: nat)
    requires UnboxRegionalizations(api).Ok?
    requires d < |UnboxRegionalizations(api).value| && k < |UnboxRegionalizations(api).value[d]|
    ensures var level := api.fields["regions"].elems[d].elems;
      k < |level| && Ok(UnboxRegionalizations(api).value[d][k]) == TagRegion(level[k], d)
  {
  }

  /** The tree a guidance response yields: regions are unboxed first, then kernels. */
  function TreeFromResponse(api: Json): (r: Result<Tree, Exception>)
    ensures r.Ok? <==> UnboxRegionalizations(api).Ok? && UnboxKernels(api).Ok?
    ensures r.Ok? ==> r.value.regions == UnboxRegionalizations(api).value && r.value.kernels == UnboxKernels(api).value
  {
    var regions :- UnboxRegionalizations(api);
    var kernels :- UnboxKernels(api);
    Ok(Tree(regions, kernels))
  }
}
