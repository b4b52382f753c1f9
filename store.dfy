/**
 * The store: per-strategy guidance trees, per-strategy focus and the active
 * strategy, the user's own input, the in-flight request counter and the map
 * view (zoom, center, variables shown).  Mutations assign one part of the
 * state; actions decide whether to commit and what to request next.
 */
module Store {
  import opened Wrappers
  import opened Json
  import opened Types
  import opened Tagging
  import opened FocusLookup
  import Viewport

  /** The tolerance below which `setCenter` treats two centers as the same. */
  const Eps: real := 0.000001

  /** `{...userInput, ...omit(payload, "__fetch__")}`. */
  function MergedUserData(userInput: Record, payload: Record): (r: Record)
    ensures r.Keys == userInput.Keys + (payload.Keys - {"__fetch__"})
    ensures forall k :: k in payload && k != "__fetch__" ==> r[k] == payload[k]
    ensures forall k :: k in userInput && (k !in payload || k == "__fetch__") ==> r[k] == userInput[k]
  {
    userInput + (payload - {"__fetch__"})
  }

  /** `s.filter(y => y !== x)`: the entries other than `x`, in their order. */
  function Without<T(==)>(s: seq<T>, x: T): (r: seq<T>)
    ensures forall i :: 0 <= i < |r| ==> r[i] in s && r[i] != x
    ensures forall i :: 0 <= i < |s| && s[i] != x ==> s[i] in r
    ensures multiset(r) == multiset(s)[x := 0]
    ensures |r| <= |s|
    decreases |s|
  {
    if |s| == 0 then []
    else
      var rest := Without(s[1..], x);
      assert s == [s[0]] + s[1..];
      (if s[0] == x then [] else [s[0]]) + rest
  }

  /** The filter keeps the order: filtering a concatenation filters each part. */
  lemma {:induction false} WithoutConcat<T>(s: seq<T>, t: seq<T>, x: T)
    ensures Without(s + t, x) == Without(s, x) + Without(t, x)
    decreases |s|
  {
    if |s| == 0 {
      assert s + t == t;
    } else {
      assert (s + t)[1..] == s[1..] + t;
      WithoutConcat(s[1..], t, x);
    }
  }

  /** Removing an entry that is not there changes nothing. */
  lemma {:induction false} WithoutAbsent<T>(s: seq<T>, x: T)
    requires x !in s
    ensures Without(s, x) == s
    decreases |s|
  {
    if |s| > 0 {
      assert s[0] != x && x !in s[1..];
      WithoutAbsent(s[1..], x);
      assert Without(s, x) == [s[0]] + Without(s[1..], x);
      assert s == [s[0]] + s[1..];
    }
  }

  /** Removing an entry just added removes it everywhere, as if it had never been added. */
  lemma {:induction false} RemoveAfterAdd<T>(s: seq<T>, x: T)
    ensures Without(s + [x], x) == Without(s, x)
    decreases |s|
  {
    if |s| == 0 {
      assert Without([x], x) == [] + Without([x][1..], x);
    } else {
      assert (s + [x])[1..] == s[1..] + [x];
      RemoveAfterAdd(s[1..], x);
    }
  }

  /** `guidance[active].regions[focus.regionalizationLevel]`: the level's regions, or `undefined`. */
  function RegionsAt(t: Tree, level: Option<int>): (v: Json)
    ensures ValidLevel(t.regions, level) ==> v.Arr? && |v.elems| == |t.regions[level.value]|
    ensures ValidLevel(t.regions, level) ==> forall k :: 0 <= k < |v.elems| ==> v.elems[k] == Obj(t.regions[level.value][k])
    ensures !ValidLevel(t.regions, level) ==> v == Undefined
  {
    if ValidLevel(t.regions, level) then
      var row := t.regions[level.value];
      Arr(seq(|row|, k requires 0 <= k < |row| => Obj(row[k])))
    else Undefined
  }

  /** `kernel ? [kernel] : []` for the kernel `guidanceFocus()` resolves. */
  function KernelsFor(view: FocusView): (v: Json)
    ensures view.Resolved? && view.kernel.Some? ==> v == Arr([Obj(view.kernel.value)])
    ensures !(view.Resolved? && view.kernel.Some?) ==> v == Arr([])
  {
    if view.Resolved? && view.kernel.Some? then Arr([Obj(view.kernel.value)]) else Arr([])
  }

  /** `{regions, kernels, __fetch__: true}`: the focused level's regions and kernel, always asking for a fetch. */
  function CopyPayload(t: Tree, f: Focus, view: FocusView): (p: Record)
    ensures p.Keys == {"regions", "kernels", "__fetch__"} && Truthy(p["__fetch__"])
    ensures p["regions"] == RegionsAt(t, f.regionalizationLevel) && p["kernels"] == KernelsFor(view)
  {
    map["regions" := RegionsAt(t, f.regionalizationLevel), "kernels" := KernelsFor(view), "__fetch__" := Bool(true)]
  }

  /** A value `[lng, lat]` can be destructured from: an array or a string. */
  predicate Iterable(v: Json) {
    v.Arr? || v.Str?
  }

  /** `r.patch.map(([lng, lat]) => ...)` does not throw. */
  predicate PatchReadable(r: Json) {
    Get(r, "patch").Ok? && Get(r, "patch").value.Arr? &&
    forall k :: 0 <= k < |Get(r, "patch").value.elems| ==> Iterable(Get(r, "patch").value.elems[k])
  }

  /** When building the `/user-guidance` request body from the payload does not throw. */
  predicate RequestBuildable(payload: Record) {
    var regions, kernels := Prop(payload, "regions"), Prop(payload, "kernels");
    && regions.Arr? && (forall k :: 0 <= k < |regions.elems| ==> PatchReadable(regions.elems[k]))
    && kernels.Arr? && (forall k :: 0 <= k < |kernels.elems| ==> Get(kernels.elems[k], "ring").Ok?)
  }

  /** Item `k` of a list: `undefined` past its end. */
  function Item(xs: seq<Json>, k: nat): Json {
    if k < |xs| then xs[k] else Undefined
  }

  /** The items that destructuring iterates over: an array's elements or a string's characters. */
  function Items(v: Json): seq<Json>
    requires Iterable(v)
  {
    if v.Arr? then v.elems else seq(|v.s|, k requires 0 <= k < |v.s| => Str([v.s[k]]))
  }

  /** `([lng, lat]) => ({lat, lng})`: destructuring anything but an array or a string throws. */
  function LatLngOf(v: Json): (r: Result<Json, Exception>)
    ensures r.Ok? <==> Iterable(v)
    ensures r.Err? ==> r.error == TypeError
    ensures v.Arr? && |v.elems| >= 2 ==> r == Ok(Obj(map["lat" := v.elems[1], "lng" := v.elems[0]]))
    ensures v.Arr? && |v.elems| == 0 ==> r == Ok(Obj(map["lat" := Undefined, "lng" := Undefined]))
  {
    if Iterable(v) then
      var items := Items(v);
      Ok(Obj(map["lat" := Item(items, 1), "lng" := Item(items, 0)]))
    else Err(TypeError)
  }

  /** `r.patch.map(([lng, lat]) => ({lat, lng}))`. */
  function PatchLatLngs(region: Json): (r: Result<Json, Exception>)
    ensures r.Ok? <==> PatchReadable(region)
    ensures r.Err? ==> r.error == TypeError
    ensures r.Ok? ==> var patch := Get(region, "patch").value.elems;
      r.value.Arr? && |r.value.elems| == |patch| && forall k :: 0 <= k < |patch| ==> Ok(r.value.elems[k]) == LatLngOf(patch[k])
  {
    var patch :- Get(region, "patch");
    if patch.Arr? && forall k :: 0 <= k < |patch.elems| ==> LatLngOf(patch.elems[k]).Ok? then
      Ok(Arr(seq(|patch.elems|, k requires 0 <= k < |patch.elems| && LatLngOf(patch.elems[k]).Ok? =>
        LatLngOf(patch.elems[k]).value)))
    else Err(TypeError)
  }

  /**
   * `{regions: payload.regions.map(r => r.patch.map(...)), kernels: payload.kernels.map(r => r.ring)}`:
   * the body `fetchGuidanceForUserData` posts, or the `TypeError` building it throws.
   */
  function RequestBody(payload: Record): (r: Result<Json, Exception>)
    ensures r.Ok? <==> RequestBuildable(payload)
    ensures r.Err? ==> r.error == TypeError
    ensures r.Ok? ==>
      var regions, kernels := Prop(payload, "regions").elems, Prop(payload, "kernels").elems;
      && r.value.Obj? && r.value.fields.Keys == {"regions", "kernels"}
      && r.value.fields["regions"].Arr? && |r.value.fields["regions"].elems| == |regions|
      && (forall k :: 0 <= k < |regions| ==> Ok(r.value.fields["regions"].elems[k]) == PatchLatLngs(regions[k]))
      && r.value.fields["kernels"].Arr? && |r.value.fields["kernels"].elems| == |kernels|
      && (forall k :: 0 <= k < |kernels| ==> Ok(r.value.fields["kernels"].elems[k]) == Get(kernels[k], "ring"))
  {
    var regions, kernels := Prop(payload, "regions"), Prop(payload, "kernels");
    if regions.Arr? && (forall k :: 0 <= k < |regions.elems| ==> PatchLatLngs(regions.elems[k]).Ok?)
       && kernels.Arr? && (forall k :: 0 <= k < |kernels.elems| ==> Get(kernels.elems[k], "ring").Ok?)
    then
      var rs := seq(|regions.elems|, k requires 0 <= k < |regions.elems| && PatchLatLngs(regions.elems[k]).Ok? =>
        PatchLatLngs(regions.elems[k]).value);
      var ks := seq(|kernels.elems|, k requires 0 <= k < |kernels.elems| && Get(kernels.elems[k], "ring").Ok? =>
        Get(kernels.elems[k], "ring").value);
      Ok(Obj(map["regions" := Arr(rs), "kernels" := Arr(ks)]))
    else Err(TypeError)
  }

  /** When the focused level has no regions, the copied payload cannot be sent. */
  lemma CopyOfMissingLevelCannotBeSent(userInput: Record, t: Tree, f: Focus, view: FocusView)
    requires !ValidLevel(t.regions, f.regionalizationLevel)
    ensures !RequestBuildable(MergedUserData(userInput, CopyPayload(t, f, view)))
  {
    assert MergedUserData(userInput, CopyPayload(t, f, view))["regions"] == Undefined;
  }

  class Store {
    /** `guidance`: the tree of each strategy. */
    var guidance: map<string, Tree>
    /** `view.parameterInput.focus` and `view.parameterInput.focusActiveStrategy`. */
    var focus: map<string, Focus>
    var focusActiveStrategy: string
    /** `view.parameterInput.userInput`. */
    var userInput: Record
    var inflightRequests: int
    /** `view.zoom`, `view.center` and `view.variablesInMap` (pairs of group and column). */
    var zoom: real
    var center: Location
    var variablesInMap: seq<(string, string)>

    /** The active strategy has a focus, and every known strategy has a focus and a tree. */
    predicate Valid()
      reads this
    {
      && focusActiveStrategy in focus
      && Strategies <= focus.Keys
      && Strategies <= guidance.Keys
    }

    /** The initial state. */
    constructor()
      ensures guidance == map["user" := Tree([], []), "equal-area" := Tree([], []), "cov-diff" := Tree([], [])]
      ensures focus == map["equal-area" := InitialFocus, "cov-diff" := InitialFocus, "user" := InitialFocus]
      ensures focusActiveStrategy == "equal-area"
      ensures userInput == map["kernels" := Arr([]), "regions" := Arr([])]
      ensures inflightRequests == 0
      ensures zoom == 5.0 && center == (12.0, 53.0) && variablesInMap == []
      ensures Valid()
    {
      guidance := map["user" := Tree([], []), "equal-area" := Tree([], []), "cov-diff" := Tree([], [])];
      focus := map["equal-area" := InitialFocus, "cov-diff" := InitialFocus, "user" := InitialFocus];
      focusActiveStrategy := "equal-area";
      userInput := map["kernels" := Arr([]), "regions" := Arr([])];
      inflightRequests := 0;
      zoom := 5.0;
      center := (12.0, 53.0);
      variablesInMap := [];
    }

    /**
     * The `guidanceFocus` getter on this state.  In a valid state every known strategy has a
     * focus and a tree, so the getter throws only for a focused level outside a non-empty tree.
     */
    function Focused(strategy: Option<string>): (r: Result<FocusView, Exception>)
      reads this
      ensures Valid() && r.Err? ==>
        var s := ActualStrategy(focusActiveStrategy, strategy);
        && s in Strategies && |guidance[s].kernels| > 0 && |guidance[s].regions| > 0
        && !(ValidLevel(guidance[s].kernels, focus[s].regionalizationLevel) && ValidLevel(guidance[s].regions, focus[s].regionalizationLevel))
    {
      GuidanceFocus(guidance, focus, focusActiveStrategy, strategy)
    }

    // -------------------------------------------------------------------
    // mutations

    /** `setParameterInputFocus({strategy, focus})`: patch that strategy's focus and make it active. */
    method SetParameterInputFocus(strategy: string, patch: Focus)
      modifies this`focus, this`focusActiveStrategy
      ensures focus == old(focus)[strategy := Merge(if strategy in old(focus) then old(focus)[strategy] else NoFocus, patch)]
      ensures focusActiveStrategy == strategy
      ensures old(Valid()) ==> Valid()
    {
      var prior := if strategy in focus then focus[strategy] else NoFocus;
      focus := focus[strategy := Merge(prior, patch)];
      focusActiveStrategy := strategy;
    }

    method IncInflightRequests()
      modifies this`inflightRequests
      ensures inflightRequests == old(inflightRequests) + 1
    {
      inflightRequests := inflightRequests + 1;
    }

    method DecInflightRequests()
      modifies this`inflightRequests
      ensures inflightRequests == old(inflightRequests) - 1
    {
      inflightRequests := inflightRequests - 1;
    }

    /** `setGuidance([strategy, tree])`: replace one strategy's tree. */
    method SetGuidance(strategy: string, tree: Tree)
      modifies this`guidance
      ensures guidance == old(guidance)[strategy := tree]
      ensures old(Valid()) ==> Valid()
    {
      guidance := guidance[strategy := tree];
    }

    /** The `setUserData` mutation: replace the user input. */
    method CommitUserData(payload: Record)
      modifies this`userInput
      ensures userInput == payload
    {
      userInput := payload;
    }

    method AddVariableToMap(group: string, column: string)
      modifies this`variablesInMap
      ensures variablesInMap == old(variablesInMap) + [(group, column)]
    {
      variablesInMap := variablesInMap + [(group, column)];
    }

    method RemoveVariableFromMap(group: string, column: string)
      modifies this`variablesInMap
      ensures variablesInMap == Without(old(variablesInMap), (group, column))
    {
      variablesInMap := Without(variablesInMap, (group, column));
    }

    // -------------------------------------------------------------------
    // actions

    /**
     * The `setUserData` action: merge the payload (without `__fetch__`) into the user input,
     * and return the user-guidance request it dispatches when `__fetch__` is truthy.
     */
    method SetUserData(payload: Record) returns (request: Option<Record>)
      modifies this`userInput
      ensures userInput == MergedUserData(old(userInput), payload)
      ensures request.Some? <==> Truthy(Prop(payload, "__fetch__"))
      ensures request.Some? ==> request.value == userInput
    {
      var newUserData := MergedUserData(userInput, payload);
      CommitUserData(newUserData);
      if Truthy(Prop(payload, "__fetch__")) {
        request := Some(newUserData);
      } else {
        request := None;
      }
    }

    /**
     * `copyGuidanceFocusToUserData`: send the focused level's regions and the focused kernel
     * as user input.  Without a focus record for the active strategy nothing happens; reading
     * the regions of a missing tree, or a getter that throws, aborts before any change.
     */
    method CopyGuidanceFocusToUserData() returns (r: Result<Option<Record>, Exception>)
      modifies this`userInput
      ensures focusActiveStrategy !in focus ==> r == Ok(None)
      ensures focusActiveStrategy in focus && focusActiveStrategy !in guidance ==> r == Err(TypeError)
      ensures focusActiveStrategy in focus && focusActiveStrategy in guidance ==>
        (r.Err? <==> Focused(None).Err?)
      ensures focusActiveStrategy in focus && focusActiveStrategy in guidance && Focused(None).Ok? ==>
        r.Ok? && r.value.Some?
      // in a valid state the copy always happens or throws
      ensures old(Valid()) ==> r != Ok(None)
      ensures r.Err? || r == Ok(None) ==> userInput == old(userInput)
      ensures r.Ok? && r.value.Some? ==>
        var s := focusActiveStrategy;
        && userInput == MergedUserData(old(userInput), CopyPayload(guidance[s], focus[s], Focused(None).value))
        && r.value.value == userInput
    {
      var s := focusActiveStrategy;
      if s !in focus {
        return Ok(None);
      }
      var f := focus[s];
      if s !in guidance {
        return Err(TypeError);
      }
      var regions := RegionsAt(guidance[s], f.regionalizationLevel);
      var view :- Focused(None);
      var kernels := KernelsFor(view);
      var request := SetUserData(map["regions" := regions, "kernels" := kernels, "__fetch__" := Bool(true)]);
      return Ok(request);
    }

    /** The `setZoom` action commits only a different zoom. */
    method SetZoom(z: real) returns (committed: bool)
      modifies this`zoom
      ensures committed <==> old(zoom) != z
      ensures zoom == z
    {
      committed := zoom != z;
      if committed {
        zoom := z;
      }
    }

    /**
     * The `setCenter` action commits only a center that moved by more than `Eps` in some
     * coordinate; either way the center ends within `Eps` of the requested one.
     */
    method SetCenter(c: Location) returns (committed: bool)
      modifies this`center
      ensures committed <==> Viewport.Abs(old(center).0 - c.0) > Eps || Viewport.Abs(old(center).1 - c.1) > Eps
      ensures center == if committed then c else old(center)
      ensures Viewport.Abs(center.0 - c.0) <= Eps && Viewport.Abs(center.1 - c.1) <= Eps
    {
      committed := Viewport.Abs(center.0 - c.0) > Eps || Viewport.Abs(center.1 - c.1) > Eps;
      if committed {
        center := c;
      }
    }

    // -------------------------------------------------------------------
    // tracked requests

    /** The body of `fetchGuidance`: unbox the response and store it as the strategy's tree. */
    method GuidanceResponse(strategy: string, response: Option<Json>) returns (outcome: Result<Tree, Exception>)
      modifies this`guidance
      ensures response.None? ==> outcome.Err?
      ensures response.Some? ==> outcome == TreeFromResponse(response.value)
      ensures guidance == if outcome.Ok? then old(guidance)[strategy := outcome.value] else old(guidance)
    {
      if response.None? {
        return Err(Error("request failed"));
      }
      outcome := TreeFromResponse(response.value);
      if outcome.Ok? {
        SetGuidance(strategy, outcome.value);
      }
    }

    /**
     * `fetchGuidance(partitionType)` under `trackedAsyncAction`: one increment before the body,
     * one decrement after it whether it succeeded or threw, and the error is swallowed.
     * `response` is the provider's answer, or None when the request itself failed.
     */
    method FetchGuidance(partitionType: Option<string>, response: Option<Json>) returns (ghost during: int)
      modifies this`inflightRequests, this`guidance
      ensures during == old(inflightRequests) + 1
      ensures inflightRequests == old(inflightRequests)
      ensures var strategy := if partitionType.Some? then partitionType.value else "equal-area";
        guidance == if response.Some? && TreeFromResponse(response.value).Ok?
                    then old(guidance)[strategy := TreeFromResponse(response.value).value]
                    else old(guidance)
      ensures old(Valid()) ==> Valid()
    {
      IncInflightRequests();
      during := inflightRequests;
      var strategy := if partitionType.Some? then partitionType.value else "equal-area";
      var _ := GuidanceResponse(strategy, response);
      DecInflightRequests();
    }

    /**
     * `fetchGuidanceForUserData(payload)` under `trackedAsyncAction`: building the request body
     * can throw before anything is sent; a successful answer becomes the "user" tree.
     */
    method FetchGuidanceForUserData(payload: Record, response: Option<Json>) returns (sent: Option<Json>, ghost during: int)
      modifies this`inflightRequests, this`guidance
      ensures sent.Some? <==> RequestBuildable(payload)
      ensures sent.Some? ==> Ok(sent.value) == RequestBody(payload)
      ensures during == old(inflightRequests) + 1
      ensures inflightRequests == old(inflightRequests)
      ensures guidance == if RequestBuildable(payload) && response.Some? && TreeFromResponse(response.value).Ok?
                          then old(guidance)["user" := TreeFromResponse(response.value).value]
                          else old(guidance)
      ensures old(Valid()) ==> Valid()
    {
      IncInflightRequests();
      during := inflightRequests;
      var body := RequestBody(payload);
      if body.Ok? {
        sent := Some(body.value);
        var _ := GuidanceResponse("user", response);
      } else {
        sent := None;
      }
      DecInflightRequests();
    }
  }
}
