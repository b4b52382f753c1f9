/**
 * The per-strategy focus (regionalization level, region, kernel) and the
 * `guidanceFocus` getter that resolves it against a strategy's guidance tree.
 */
module FocusLookup {
  import opened Wrappers
  import opened Json
  import opened Tagging

  /** The strategies the getter knows. */
  const Strategies: set<string> := {"equal-area", "cov-diff", "user"}

  /** A focus record; a field a partial update never supplied reads `undefined` (None). */
  datatype Focus = Focus(
    regionalizationLevel: Option<int>,
    regionIndex: Option<int>,
    kernelDepth: Option<int>,
    kernelIndex: Option<int>)

  /** The focus every strategy starts with: level, region, kernel depth and kernel index 0. */
  const InitialFocus := Focus(Some(0), Some(0), Some(0), Some(0))

  /** `{...undefined}`: the focus of a strategy that has none yet. */
  const NoFocus := Focus(None, None, None, None)

  /** `{...old, ...patch}`: every field the patch carries replaces the old one. */
  function Merge(prior: Focus, patch: Focus): (r: Focus)
    ensures patch.regionalizationLevel.Some? ==> r.regionalizationLevel == patch.regionalizationLevel
    ensures patch.regionalizationLevel.None? ==> r.regionalizationLevel == prior.regionalizationLevel
    ensures patch.regionIndex.Some? ==> r.regionIndex == patch.regionIndex
    ensures patch.regionIndex.None? ==> r.regionIndex == prior.regionIndex
    ensures patch.kernelDepth.Some? ==> r.kernelDepth == patch.kernelDepth
    ensures patch.kernelDepth.None? ==> r.kernelDepth == prior.kernelDepth
    ensures patch.kernelIndex.Some? ==> r.kernelIndex == patch.kernelIndex
    ensures patch.kernelIndex.None? ==> r.kernelIndex == prior.kernelIndex
  {
    Focus(
      Or(patch.regionalizationLevel, prior.regionalizationLevel),
      Or(patch.regionIndex, prior.regionIndex),
      Or(patch.kernelDepth, prior.kernelDepth),
      Or(patch.kernelIndex, prior.kernelIndex))
  }

  function Or<T>(first: Option<T>, second: Option<T>): Option<T> {
    if first.Some? then first else second
  }

  /** Merging is idempotent, and the empty patch changes nothing. */
  lemma MergeLaws(f: Focus, p: Focus)
    ensures Merge(Merge(f, p), p) == Merge(f, p)
    ensures Merge(f, NoFocus) == f
    ensures Merge(NoFocus, p) == p
  {
  }

  /** A later patch is applied on top of an earlier one. */
  lemma MergeAssociates(f: Focus, p: Focus, q: Focus)
    ensures Merge(Merge(f, p), q) == Merge(f, Merge(p, q))
  {
  }

  /** The JavaScript value of an optional number: the number, or `undefined`. */
  function OptNum(o: Option<int>): (v: Json)
    ensures o.Some? ==> v == Num(o.value as real)
    ensures o.None? ==> v == Undefined
  {
    if o.Some? then Num(o.value as real) else Undefined
  }

  // ---------------------------------------------------------------------
  // find

  /** `s.find(p)` as the position of the first element satisfying `p`. */
  function FindIndex<T>(s: seq<T>, p: T -> bool): (r: Option<nat>)
    ensures r.Some? ==> r.value < |s| && p(s[r.value]) && forall j :: 0 <= j < r.value ==> !p(s[j])
    ensures r.None? ==> forall j :: 0 <= j < |s| ==> !p(s[j])
    decreases |s|
  {
    if |s| == 0 then None
    else if p(s[0]) then Some(0)
    else match FindIndex(s[1..], p)
      case Some(k) => Some(k + 1)
      case None => None
  }

  /** `s.find(p)`: the first element satisfying `p`, or `undefined`. */
  function Find<T>(s: seq<T>, p: T -> bool): (r: Option<T>)
    ensures r.Some? <==> exists i :: 0 <= i < |s| && p(s[i])
    ensures r.Some? ==> p(r.value)
  {
    match FindIndex(s, p)
    case Some(k) => Some(s[k])
    case None => None
  }

  /** `r` is what `find` must return: the first element satisfying `p`, or nothing when none does. */
  predicate IsFirstMatch<T(==)>(s: seq<T>, p: T -> bool, r: Option<T>) {
    if r.Some? then exists i :: 0 <= i < |s| && s[i] == r.value && p(s[i]) && forall j :: 0 <= j < i ==> !p(s[j])
    else forall j :: 0 <= j < |s| ==> !p(s[j])
  }

  lemma FindIsFirstMatch<T>(s: seq<T>, p: T -> bool)
    ensures IsFirstMatch(s, p, Find(s, p))
  {
  }

  // ---------------------------------------------------------------------
  // guidanceFocus

  /** What the getter returns: `{}` for an unknown strategy, or the resolved kernel and region. */
  datatype FocusView = NoStrategy | Resolved(kernel: Option<Record>, region: Option<Record>)

  /** `k.depth === kernelDepth && k.index === kernelIndex`. */
  predicate KernelMatches(k: Record, f: Focus) {
    Prop(k, "depth") == OptNum(f.kernelDepth) && Prop(k, "index") == OptNum(f.kernelIndex)
  }

  /** `r.index === regionIndex`. */
  predicate RegionMatches(r: Record, f: Focus) {
    Prop(r, "index") == OptNum(f.regionIndex)
  }

  /** `xs[level]` exists: an integer level within the array. */
  predicate ValidLevel<T>(xs: seq<T>, level: Option<int>) {
    level.Some? && 0 <= level.value < |xs|
  }

  /** `strategy || focusActiveStrategy`. */
  function ActualStrategy(active: string, strategy: Option<string>): string {
    if strategy.Some? && |strategy.value| > 0 then strategy.value else active
  }

  /**
   * `guidanceFocus(strategy?)`.  Destructuring a missing focus record throws, and so does
   * calling `find` on `kernels[level]` or `regions[level]` when the level is not an index.
   */
  function GuidanceFocus(guidance: map<string, Tree>, focus: map<string, Focus>, active: string, strategy: Option<string>)
    : (r: Result<FocusView, Exception>)
    ensures r.Err? ==> r.error == TypeError
    ensures var s := ActualStrategy(active, strategy);
      s !in Strategies ==> r == Ok(NoStrategy)
    ensures var s := ActualStrategy(active, strategy);
      s in Strategies && s !in focus ==> r.Err?
    ensures var s := ActualStrategy(active, strategy);
      s in Strategies && s in focus && (s !in guidance || |guidance[s].kernels| == 0 || |guidance[s].regions| == 0) ==>
        r == Ok(Resolved(None, None))
    ensures var s := ActualStrategy(active, strategy);
      s in Strategies && s in focus && s in guidance && |guidance[s].kernels| > 0 && |guidance[s].regions| > 0 ==>
        var f, t := focus[s], guidance[s];
        && (r.Ok? <==> ValidLevel(t.kernels, f.regionalizationLevel) && ValidLevel(t.regions, f.regionalizationLevel))
        && (r.Ok? ==>
              && r.value.Resolved?
              && IsFirstMatch(t.kernels[f.regionalizationLevel.value], k => KernelMatches(k, f), r.value.kernel)
              && IsFirstMatch(t.regions[f.regionalizationLevel.value], x => RegionMatches(x, f), r.value.region))
  {
    var s := ActualStrategy(active, strategy);
    if s !in Strategies then Ok(NoStrategy)
    else if s !in focus then Err(TypeError)
    else
      var f := focus[s];
      if s !in guidance || |guidance[s].kernels| == 0 || |guidance[s].regions| == 0 then Ok(Resolved(None, None))
      else
        var t := guidance[s];
        if !ValidLevel(t.kernels, f.regionalizationLevel) then Err(TypeError)
        else
          var kernel := Find(t.kernels[f.regionalizationLevel.value], k => KernelMatches(k, f));
          FindIsFirstMatch(t.kernels[f.regionalizationLevel.value], k => KernelMatches(k, f));
          if !ValidLevel(t.regions, f.regionalizationLevel) then Err(TypeError)
          else
            var region := Find(t.regions[f.regionalizationLevel.value], x => RegionMatches(x, f));
            FindIsFirstMatch(t.regions[f.regionalizationLevel.value], x => RegionMatches(x, f));
            Ok(Resolved(kernel, region))
  }
}
