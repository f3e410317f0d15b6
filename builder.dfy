/**
 * `ViewModelBuilder` (src/ignition_lint/model/builder.py): six passes over
 * the flattened view derive its components, bindings, scripts and
 * properties. Every decision is a prefix, suffix or substring test on a
 * path. Text fields of nodes hold the `str()` of the stored value.
 */
module Builder {
  import opened Wrappers
  import opened PyStr
  import opened JsonValue
  import opened FlatMaps
  import opened Nodes
  import Dicts

  /** `self.model`: the eleven lists, in the dict's key order. */
  datatype ViewModel = ViewModel(
    components: seq<Node>,
    bindings: seq<Node>,
    scripts: seq<Node>,
    eventHandlers: seq<Node>,
    messageHandlers: seq<Node>,
    customMethods: seq<Node>,
    expressionBindings: seq<Node>,
    propertyBindings: seq<Node>,
    tagBindings: seq<Node>,
    scriptTransforms: seq<Node>,
    properties: seq<Node>)

  const EmptyModel := ViewModel([], [], [], [], [], [], [], [], [], [], [])

  /** `flattened_json.get(key, fallback)` */
  function GetOr(flat: seq<Entry>, key: string, fallback: Json): (r: Json)
    ensures key !in Dicts.DictKeys(flat) ==> r == fallback
    ensures key in Dicts.DictKeys(flat) ==> Lookup(flat, key) == Some(r)
  {
    match Lookup(flat, key)
    case None => fallback
    case Some(v) => v
  }

  // ---------------------------------------------------------------------
  // Pass 1: one component per `….meta.name` key.

  function ComponentAt(flat: seq<Entry>, e: Entry): seq<Node> {
    if !EndsWith(e.0, ".meta.name") then []
    else
      var cp := BeforeLast(e.0, ".meta.name");
      [Component(cp, Text(e.1), Text(GetOr(flat, cp + ".type", JString("unknown"))))]
  }

  /** `_collect_components` over the entries `es` of `flat`. */
  function ComponentsOf(flat: seq<Entry>, n: nat): seq<Node>
    requires n <= |flat|
  {
    if n == 0 then [] else ComponentsOf(flat, n - 1) + ComponentAt(flat, flat[n - 1])
  }

  lemma ComponentsStep(flat: seq<Entry>, i: nat)
    requires i < |flat|
    ensures ComponentsOf(flat, i + 1) == ComponentsOf(flat, i) + ComponentAt(flat, flat[i])
  {
  }

  // ---------------------------------------------------------------------
  // Pass 2: bindings, one per distinct prefix of a `.binding.type` key.

  /** A binding site: the binding's path and the value of the first key that named it. */
  type Site = (string, Json)

  /** `visited_paths`, each with the `binding_type` seen when it was first added. */
  function SitesOf(flat: seq<Entry>, n: nat): seq<Site>
    requires n <= |flat|
  {
    if n == 0 then []
    else
      var s := SitesOf(flat, n - 1);
      var e := flat[n - 1];
      if !Contains(e.0, ".binding.type") then s
      else
        var bp := BeforeLast(e.0, ".binding.type");
        if bp in Dicts.DictKeys(s) then s else s + [(bp, e.1)]
  }

  /** A key that names no new binding site leaves the sites as they are. */
  lemma SitesSkip(flat: seq<Entry>, i: nat)
    requires i < |flat|
    requires !Contains(flat[i].0, ".binding.type") || BeforeLast(flat[i].0, ".binding.type") in Dicts.DictKeys(SitesOf(flat, i))
    ensures SitesOf(flat, i + 1) == SitesOf(flat, i)
  {
  }

  /** A key that names a new binding site appends it, with the key's value. */
  lemma SitesAdd(flat: seq<Entry>, i: nat)
    requires i < |flat|
    requires Contains(flat[i].0, ".binding.type") && BeforeLast(flat[i].0, ".binding.type") !in Dicts.DictKeys(SitesOf(flat, i))
    ensures SitesOf(flat, i + 1) == SitesOf(flat, i) + [(BeforeLast(flat[i].0, ".binding.type"), flat[i].1)]
  {
  }

  predicate IsExpressionType(t: Json) {
    t == JString("expression") || t == JString("expr")
  }

  /** The binding node of a site, if its type is one the builder knows. */
  function BindingAt(flat: seq<Entry>, site: Site): seq<Node> {
    var bp := site.0;
    if IsExpressionType(site.1) then
      [ExpressionBinding(bp, Text(GetOr(flat, bp + ".binding.config.expression", JString("unknown"))))]
    else if site.1 == JString("property") then
      [PropertyBinding(bp, Text(GetOr(flat, bp + ".binding.config.path", JString("unknown"))))]
    else if site.1 == JString("tag") then
      [TagBinding(bp, Text(GetOr(flat, bp + ".binding.config.tagPath", JString("unknown"))), "direct", [])]
    else []
  }

  function BindingsOf(flat: seq<Entry>, sites: seq<Site>): seq<Node> {
    if sites == [] then [] else BindingsOf(flat, sites[..|sites| - 1]) + BindingAt(flat, sites[|sites| - 1])
  }

  /** The sub-list of one binding kind. */
  function KindOf(nodes: seq<Node>, t: NodeType): seq<Node> {
    FilterByTypes(nodes, {t})
  }

  /** `_get_script_transforms`, first loop: the base of each script transform's `.type` key. */
  function TransformPaths(flat: seq<Entry>, bindingPath: string, n: nat): seq<string>
    requires n <= |flat|
  {
    if n == 0 then []
    else
      var e := flat[n - 1];
      TransformPaths(flat, bindingPath, n - 1) +
        (if StartsWith(e.0, bindingPath + ".transforms") && EndsWith(e.0, ".type") && e.1 == JString("script")
         then [BeforeLast(e.0, ".type")] else [])
  }

  lemma TransformPathsStep(flat: seq<Entry>, bindingPath: string, i: nat)
    requires i < |flat|
    ensures var e := flat[i];
      TransformPaths(flat, bindingPath, i + 1) == TransformPaths(flat, bindingPath, i) +
        (if StartsWith(e.0, bindingPath + ".transforms") && EndsWith(e.0, ".type") && e.1 == JString("script")
         then [BeforeLast(e.0, ".type")] else [])
  {
  }

  /** Second loop: the bases that have a sibling `.script`, with that script. */
  function TransformScripts(flat: seq<Entry>, paths: seq<string>): seq<(string, Json)> {
    if paths == [] then []
    else
      var tp := paths[|paths| - 1];
      TransformScripts(flat, paths[..|paths| - 1]) +
        (if tp + ".script" in Dicts.DictKeys(flat) then [(tp, GetOr(flat, tp + ".script", JNull))] else [])
  }

  lemma TransformScriptsStep(flat: seq<Entry>, paths: seq<string>, j: nat)
    requires j < |paths|
    ensures var tp := paths[j];
      TransformScripts(flat, paths[..j + 1]) == TransformScripts(flat, paths[..j]) +
        (if tp + ".script" in Dicts.DictKeys(flat) then [(tp, GetOr(flat, tp + ".script", JNull))] else [])
  {
    assert paths[..j + 1][..j] == paths[..j];
  }

  function TransformNodes(ts: seq<(string, Json)>, bindingPath: string): (r: seq<Node>)
    ensures |r| == |ts|
    ensures forall i :: 0 <= i < |ts| ==> r[i] == Transform(ts[i].0, Text(ts[i].1), bindingPath)
  {
    seq(|ts|, i requires 0 <= i < |ts| => Transform(ts[i].0, Text(ts[i].1), bindingPath))
  }

  /** The transform nodes of one binding path, whatever the binding's type. */
  function TransformsAt(flat: seq<Entry>, bindingPath: string): seq<Node> {
    TransformNodes(TransformScripts(flat, TransformPaths(flat, bindingPath + ".binding", |flat|)), bindingPath)
  }

  function TransformsOf(flat: seq<Entry>, sites: seq<Site>): seq<Node> {
    if sites == [] then [] else TransformsOf(flat, sites[..|sites| - 1]) + TransformsAt(flat, sites[|sites| - 1].0)
  }

  lemma SitesSnoc(flat: seq<Entry>, sites: seq<Site>, site: Site)
    ensures BindingsOf(flat, sites + [site]) == BindingsOf(flat, sites) + BindingAt(flat, site)
    ensures TransformsOf(flat, sites + [site]) == TransformsOf(flat, sites) + TransformsAt(flat, site.0)
  {
    assert (sites + [site])[..|sites|] == sites;
  }

  // ---------------------------------------------------------------------
  // Pass 3: message handlers.

  function MessageHandlerAt(flat: seq<Entry>, e: Entry): seq<Node> {
    if !(Contains(e.0, ".scripts.messageHandlers") && EndsWith(e.0, ".messageType")) then []
    else
      var base := BeforeLast(e.0, ".messageType");
      var scope := MessageScope(
        GetOr(flat, base + ".pageScope", JBool(false)),
        GetOr(flat, base + ".sessionScope", JBool(false)),
        GetOr(flat, base + ".viewScope", JBool(false)));
      [MessageHandler(base, Text(GetOr(flat, base + ".script", JString(""))), Text(e.1), scope)]
  }

  function MessageHandlersOf(flat: seq<Entry>, n: nat): seq<Node>
    requires n <= |flat|
  {
    if n == 0 then [] else MessageHandlersOf(flat, n - 1) + MessageHandlerAt(flat, flat[n - 1])
  }

  lemma MessageHandlersStep(flat: seq<Entry>, i: nat)
    requires i < |flat|
    ensures MessageHandlersOf(flat, i + 1) == MessageHandlersOf(flat, i) + MessageHandlerAt(flat, flat[i])
  {
  }

  // ---------------------------------------------------------------------
  // Pass 4: custom methods.

  /** `lit` occurs at `j` and is followed by a non-empty digit run and `]`. */
  predicate BracketHit(s: string, lit: string, j: nat)
    requires j <= |s|
  {
    OccursAt(s, lit, j) && var c := DigitsEnd(s, j + |lit|); j + |lit| < c < |s| && s[c] == ']'
  }

  /**
   * `re.search(lit + r'(\d+)\]', s)` for a literal `lit` ending in `[`:
   * the digits of the leftmost match at or after index `i`.
   */
  function BracketIndexFrom(s: string, lit: string, i: nat): (r: Option<string>)
    requires i <= |s|
    decreases |s| - i
    ensures r.Some? ==> r.value != [] && AllDigits(r.value)
  {
    if BracketHit(s, lit, i) then
      var b := i + |lit|;
      var c := DigitsEnd(s, b);
      assert forall m :: 0 <= m < c - b ==> s[b..c][m] == s[b + m];
      Some(s[b..c])
    else if i == |s| then None
    else BracketIndexFrom(s, lit, i + 1)
  }

  /** `j` is the leftmost index at or after `i` where `lit` is followed by digits and `]`. */
  predicate LeftmostBracket(s: string, lit: string, i: nat, j: nat) {
    i <= j <= |s| && BracketHit(s, lit, j)
    && forall j' :: i <= j' < j ==> !BracketHit(s, lit, j')
  }

  /** A successful scan stops at the leftmost match at or after `i`. */
  lemma {:induction false} BracketIndexLeftmost(s: string, lit: string, i: nat)
    requires i <= |s|
    decreases |s| - i
    ensures BracketIndexFrom(s, lit, i).Some? ==>
      exists j: nat :: LeftmostBracket(s, lit, i, j) && BracketIndexFrom(s, lit, i).value == s[j + |lit|..DigitsEnd(s, j + |lit|)]
  {
    if BracketHit(s, lit, i) {
      assert LeftmostBracket(s, lit, i, i);
    } else if i < |s| {
      var r := BracketIndexFrom(s, lit, i + 1);
      assert BracketIndexFrom(s, lit, i) == r;
      BracketIndexLeftmost(s, lit, i + 1);
      if r.Some? {
        var j: nat :| LeftmostBracket(s, lit, i + 1, j) && r.value == s[j + |lit|..DigitsEnd(s, j + |lit|)];
        assert LeftmostBracket(s, lit, i, j);
      }
    }
  }

  /** A failed scan means no match at or after `i`. */
  lemma {:induction false} BracketIndexNone(s: string, lit: string, i: nat)
    requires i <= |s|
    decreases |s| - i
    ensures BracketIndexFrom(s, lit, i).None? ==> forall j :: i <= j <= |s| ==> !BracketHit(s, lit, j)
  {
    if !BracketHit(s, lit, i) && i < |s| {
      BracketIndexNone(s, lit, i + 1);
    }
  }

  function BracketIndex(s: string, lit: string): (r: Option<string>)
    ensures r.Some? ==> r.value != [] && AllDigits(r.value)
  {
    BracketIndexFrom(s, lit, 0)
  }

  /** What the builder gathers for one custom method before creating its node. */
  datatype MethodData = MethodData(path: string, name: Json, params: seq<Json>, script: Json)

  /** `params[k] = v` after padding the list with `''` up to index `k`. */
  function SetParam(params: seq<Json>, k: nat, v: Json): (r: seq<Json>)
    ensures |r| == if k < |params| then |params| else k + 1
    ensures r[k] == v
    ensures forall i :: 0 <= i < |r| && i != k ==> r[i] == (if i < |params| then params[i] else JString(""))
  {
    var padded := if k < |params| then params else params + seq(k + 1 - |params|, _ => JString(""));
    padded[k := v]
  }

  /** The padding loop of `_collect_custom_methods`, then the assignment. */
  method PadAndSet(params: seq<Json>, k: nat, v: Json) returns (r: seq<Json>)
    ensures r == SetParam(params, k, v)
  {
    r := params;
    while |r| <= k
      invariant |params| <= |r| <= (if k < |params| then |params| else k + 1)
      invariant r[..|params|] == params
      invariant forall i :: |params| <= i < |r| ==> r[i] == JString("")
      decreases k + 1 - |r|
    {
      r := r + [JString("")];
    }
    r := r[k := v];
  }

  /** `custom_method_data`: method ids in first-seen order, with their data. */
  type MethodTable = seq<(string, MethodData)>

  function TableIndex(t: MethodTable, id: string): (r: int)
    ensures -1 <= r < |t|
    ensures r == -1 <==> id !in Dicts.DictKeys(t)
    ensures r >= 0 ==> t[r].0 == id
  {
    if t == [] then -1
    else if t[|t| - 1].0 == id then |t| - 1
    else TableIndex(t[..|t| - 1], id)
  }

  /** How one entry under a custom method changes that method's data. */
  function UpdateMethod(d: MethodData, path: string, value: Json): MethodData {
    if EndsWith(path, ".name") then d.(name := value)
    else if EndsWith(path, ".script") then d.(script := value)
    else if Contains(path, "params") then
      match BracketIndex(path, "params[")
      case None => d
      case Some(digits) => d.(params := SetParam(d.params, DigitsValue(digits), value))
    else d
  }

  /** The method id and default data of a key under `.scripts.customMethods[i]`. */
  function MethodSlot(path: string): Option<(string, MethodData)> {
    if !Contains(path, ".scripts.customMethods") then None
    else
      match BracketIndex(path, ".scripts.customMethods[")
      case None => None
      case Some(digits) =>
        var idx := NatToString(DigitsValue(digits));
        var cp := BeforeFirst(path, ".scripts.customMethods");
        Some((cp + ".customMethod_" + idx,
              MethodData(cp + ".scripts.customMethods[" + idx + "]", JString("unknown_method"), [], JString(""))))
  }

  function TableStep(t: MethodTable, e: Entry): MethodTable {
    match MethodSlot(e.0)
    case None => t
    case Some(slot) =>
      var i := TableIndex(t, slot.0);
      if i == -1 then t + [(slot.0, UpdateMethod(slot.1, e.0, e.1))]
      else t[i := (slot.0, UpdateMethod(t[i].1, e.0, e.1))]
  }

  function MethodTableOf(flat: seq<Entry>, n: nat): MethodTable
    requires n <= |flat|
  {
    if n == 0 then [] else TableStep(MethodTableOf(flat, n - 1), flat[n - 1])
  }

  lemma MethodTableStep(flat: seq<Entry>, i: nat)
    requires i < |flat|
    ensures MethodTableOf(flat, i + 1) == TableStep(MethodTableOf(flat, i), flat[i])
  {
  }

  function TextParams(ps: seq<Json>): (r: seq<string>)
    ensures |r| == |ps| && forall i :: 0 <= i < |ps| ==> r[i] == Text(ps[i])
  {
    seq(|ps|, i requires 0 <= i < |ps| => Text(ps[i]))
  }

  function MethodNode(d: MethodData): Node {
    CustomMethod(d.path, Text(d.name), Text(d.script), TextParams(d.params))
  }

  function MethodNodes(t: MethodTable): (r: seq<Node>)
    ensures |r| == |t| && forall i :: 0 <= i < |t| ==> r[i] == MethodNode(t[i].1)
  {
    seq(|t|, i requires 0 <= i < |t| => MethodNode(t[i].1))
  }

  // ---------------------------------------------------------------------
  // Pass 5: event handlers.

  /** `re.search(r'\.events\.([^.]+)$', p)`: the segment after `.events.` when it is the last one. */
  function EventTypeOf(p: string): (r: Option<string>)
    ensures r.Some? ==> r.value != "" && EndsWith(p, ".events." + r.value)
  {
    var x := AfterLast(p, ".");
    if x != "" && EndsWith(p, ".events." + x) then Some(x) else None
  }

  /** The event path of a handler script key: before `.config.script`, else before `.script`. */
  function EventPathOf(p: string): string {
    if Contains(p, ".config.script") then BeforeFirst(p, ".config.script") else BeforeFirst(p, ".script")
  }

  predicate IsEventScriptKey(p: string) {
    Contains(p, ".events.") && (Contains(p, ".config.script") || EndsWith(p, ".script"))
  }

  function EventHandlerAt(flat: seq<Entry>, e: Entry): seq<Node> {
    if !IsEventScriptKey(e.0) then []
    else
      var ep := EventPathOf(e.0);
      match EventTypeOf(ep)
      case None => []
      case Some(et) => [EventHandler(ep, "component", et, Text(e.1), GetOr(flat, ep + ".scope", JString("L")))]
  }

  function EventHandlersOf(flat: seq<Entry>, n: nat): seq<Node>
    requires n <= |flat|
  {
    if n == 0 then [] else EventHandlersOf(flat, n - 1) + EventHandlerAt(flat, flat[n - 1])
  }

  lemma EventHandlersStep(flat: seq<Entry>, i: nat)
    requires i < |flat|
    ensures EventHandlersOf(flat, i + 1) == EventHandlersOf(flat, i) + EventHandlerAt(flat, flat[i])
  {
  }

  // ---------------------------------------------------------------------
  // Pass 6: properties.

  /**
   * `_is_property_persistent`: the truthiness of a stored non-null
   * `propConfig.<path>.persistent`, otherwise True.
   */
  predicate Persistent(flat: seq<Entry>, path: string) {
    var v := Lookup(flat, "propConfig." + path + ".persistent");
    if v.Some? && v.value != JNull then Truthy(v.value) else true
  }

  /** Keys the property pass leaves to the other passes. */
  predicate Excluded(p: string) {
    Contains(p, ".meta.") || Contains(p, ".binding.") || Contains(p, ".scripts.") || Contains(p, ".events.")
    || EndsWith(p, ".type") || StartsWith(p, "propConfig.")
  }

  /** The owner loop: the first component path of greatest length that prefixes `path`. */
  function OwnerOf(comps: seq<Node>, path: string): (r: Option<string>)
    ensures r.None? <==> forall i :: 0 <= i < |comps| ==> !StartsWith(path, comps[i].path)
    ensures r.Some? ==> StartsWith(path, r.value) && exists i :: 0 <= i < |comps| && comps[i].path == r.value
    ensures r.Some? ==> forall i :: 0 <= i < |comps| && StartsWith(path, comps[i].path) ==> |comps[i].path| <= |r.value|
  {
    if comps == [] then None
    else
      var prev := OwnerOf(comps[..|comps| - 1], path);
      var c := comps[|comps| - 1].path;
      assert forall i :: 0 <= i < |comps| - 1 ==> comps[..|comps| - 1][i] == comps[i];
      if StartsWith(path, c) && (prev.None? || |c| > |prev.value|) then Some(c) else prev
  }

  function PropertyAt(flat: seq<Entry>, comps: seq<Node>, e: Entry): seq<Node> {
    var p := e.0;
    var prop := [Property(p, AfterLast(p, "."), e.1, None, None)];
    if Excluded(p) then []
    else if StartsWith(p, "custom.") || StartsWith(p, "params.") then
      if Persistent(flat, p) then prop else []
    else
      match OwnerOf(comps, p)
      case None => []
      case Some(owner) =>
        if owner == "" then []
        else if Contains(p, ".custom.") && !Persistent(flat, p) then []
        else prop
  }

  function PropertiesOf(flat: seq<Entry>, comps: seq<Node>, n: nat): seq<Node>
    requires n <= |flat|
  {
    if n == 0 then [] else PropertiesOf(flat, comps, n - 1) + PropertyAt(flat, comps, flat[n - 1])
  }

  lemma PropertiesStep(flat: seq<Entry>, comps: seq<Node>, i: nat)
    requires i < |flat|
    ensures PropertiesOf(flat, comps, i + 1) == PropertiesOf(flat, comps, i) + PropertyAt(flat, comps, flat[i])
  {
  }

  // ---------------------------------------------------------------------
  // The whole build, as one function of the flattened view.

  function ComponentsPass(m: ViewModel, flat: seq<Entry>): ViewModel {
    m.(components := m.components + ComponentsOf(flat, |flat|))
  }

  function BindingsPass(m: ViewModel, flat: seq<Entry>): ViewModel {
    var sites := SitesOf(flat, |flat|);
    var bs := BindingsOf(flat, sites);
    var ts := TransformsOf(flat, sites);
    m.(bindings := m.bindings + bs,
       expressionBindings := m.expressionBindings + KindOf(bs, ExpressionBindingType),
       propertyBindings := m.propertyBindings + KindOf(bs, PropertyBindingType),
       tagBindings := m.tagBindings + KindOf(bs, TagBindingType),
       scriptTransforms := m.scriptTransforms + ts,
       scripts := m.scripts + ts)
  }

  function MessageHandlersPass(m: ViewModel, flat: seq<Entry>): ViewModel {
    var hs := MessageHandlersOf(flat, |flat|);
    m.(messageHandlers := m.messageHandlers + hs, scripts := m.scripts + hs)
  }

  function CustomMethodsPass(m: ViewModel, flat: seq<Entry>): ViewModel {
    var ms := MethodNodes(MethodTableOf(flat, |flat|));
    m.(customMethods := m.customMethods + ms, scripts := m.scripts + ms)
  }

  function EventHandlersPass(m: ViewModel, flat: seq<Entry>): ViewModel {
    var hs := EventHandlersOf(flat, |flat|);
    m.(eventHandlers := m.eventHandlers + hs, scripts := m.scripts + hs)
  }

  /** Properties are attached to the components already collected in `m`. */
  function PropertiesPass(m: ViewModel, flat: seq<Entry>): ViewModel {
    m.(properties := m.properties + PropertiesOf(flat, m.components, |flat|))
  }

  /** `build_model`: the six passes in order, from an empty model. */
  function ModelOf(flat: seq<Entry>): ViewModel {
    PropertiesPass(EventHandlersPass(CustomMethodsPass(MessageHandlersPass(
      BindingsPass(ComponentsPass(EmptyModel, flat), flat), flat), flat), flat), flat)
  }

  /** `all_nodes`: the lists concatenated in key order. */
  function AllNodes(m: ViewModel): seq<Node> {
    m.components + m.bindings + m.scripts + m.eventHandlers + m.messageHandlers + m.customMethods
    + m.expressionBindings + m.propertyBindings + m.tagBindings + m.scriptTransforms + m.properties
  }

  // ---------------------------------------------------------------------
  // The builder object.

  class ViewModelBuilder {
    var flattenedJson: seq<Entry>
    var model: ViewModel

    constructor()
      ensures flattenedJson == [] && model == EmptyModel
    {
      flattenedJson := [];
      model := EmptyModel;
    }

    /** The loop of `_collect_components`. */
    method ComponentLoop() returns (cs: seq<Node>)
      ensures cs == ComponentsOf(flattenedJson, |flattenedJson|)
    {
      var flat := flattenedJson;
      cs := [];
      var i := 0;
      while i < |flat|
        invariant 0 <= i <= |flat|
        invariant cs == ComponentsOf(flat, i)
      {
        ComponentsStep(flat, i);
        cs := cs + ComponentAt(flat, flat[i]);
        i := i + 1;
      }
    }

    method CollectComponents()
      modifies this
      ensures model == ComponentsPass(old(model), old(flattenedJson)) && flattenedJson == old(flattenedJson)
    {
      var cs := ComponentLoop();
      model := model.(components := model.components + cs);
    }

    /** `_get_script_transforms(f"{binding_path}.binding")` */
    method GetScriptTransforms(bindingPath: string) returns (ts: seq<(string, Json)>)
      ensures ts == TransformScripts(flattenedJson, TransformPaths(flattenedJson, bindingPath + ".binding", |flattenedJson|))
    {
      var flat := flattenedJson;
      var full := bindingPath + ".binding";
      var paths: seq<string> := [];
      var i := 0;
      while i < |flat|
        invariant 0 <= i <= |flat|
        invariant paths == TransformPaths(flat, full, i)
      {
        var e := flat[i];
        TransformPathsStep(flat, full, i);
        if StartsWith(e.0, full + ".transforms") && EndsWith(e.0, ".type") && e.1 == JString("script") {
          paths := paths + [BeforeLast(e.0, ".type")];
        }
        i := i + 1;
      }
      ts := [];
      var j := 0;
      while j < |paths|
        invariant 0 <= j <= |paths|
        invariant ts == TransformScripts(flat, paths[..j])
      {
        TransformScriptsStep(flat, paths, j);
        var sp := paths[j] + ".script";
        if sp in Dicts.DictKeys(flat) {
          ts := ts + [(paths[j], GetOr(flat, sp, JNull))];
        }
        j := j + 1;
      }
      assert paths[..j] == paths;
    }

    /** The body of the `_collect_bindings` loop for entry `i`: a new binding site adds its nodes. */
    method BindingStep(i: nat, visited: seq<Site>, bs: seq<Node>, ts: seq<Node>)
      returns (visited': seq<Site>, bs': seq<Node>, ts': seq<Node>)
      requires i < |flattenedJson| && visited == SitesOf(flattenedJson, i)
      requires bs == BindingsOf(flattenedJson, visited) && ts == TransformsOf(flattenedJson, visited)
      ensures visited' == SitesOf(flattenedJson, i + 1)
      ensures bs' == BindingsOf(flattenedJson, visited') && ts' == TransformsOf(flattenedJson, visited')
    {
      var flat := flattenedJson;
      var e := flat[i];
      visited', bs', ts' := visited, bs, ts;
      if Contains(e.0, ".binding.type") {
        var bp := BeforeLast(e.0, ".binding.type");
        if bp !in Dicts.DictKeys(visited) {
          SitesAdd(flat, i);
          SitesSnoc(flat, visited, (bp, e.1));
          visited' := visited + [(bp, e.1)];
          bs' := bs + BindingAt(flat, (bp, e.1));
          var scripts := GetScriptTransforms(bp);
          ts' := ts + TransformNodes(scripts, bp);
        } else {
          SitesSkip(flat, i);
        }
      } else {
        SitesSkip(flat, i);
      }
    }

    /** The loop of `_collect_bindings`: the binding and transform nodes, in order. */
    method BindingLoop() returns (bs: seq<Node>, ts: seq<Node>)
      ensures bs == BindingsOf(flattenedJson, SitesOf(flattenedJson, |flattenedJson|))
      ensures ts == TransformsOf(flattenedJson, SitesOf(flattenedJson, |flattenedJson|))
    {
      var visited: seq<Site> := [];
      bs := [];
      ts := [];
      var i := 0;
      while i < |flattenedJson|
        invariant 0 <= i <= |flattenedJson|
        invariant visited == SitesOf(flattenedJson, i)
        invariant bs == BindingsOf(flattenedJson, visited) && ts == TransformsOf(flattenedJson, visited)
      {
        visited, bs, ts := BindingStep(i, visited, bs, ts);
        i := i + 1;
      }
    }

    method CollectBindings()
      modifies this
      ensures model == BindingsPass(old(model), old(flattenedJson)) && flattenedJson == old(flattenedJson)
    {
      var bs, ts := BindingLoop();
      model := model.(
        bindings := model.bindings + bs,
        expressionBindings := model.expressionBindings + KindOf(bs, ExpressionBindingType),
        propertyBindings := model.propertyBindings + KindOf(bs, PropertyBindingType),
        tagBindings := model.tagBindings + KindOf(bs, TagBindingType),
        scriptTransforms := model.scriptTransforms + ts,
        scripts := model.scripts + ts);
    }

    /** The loop of `_collect_message_handlers`. */
    method MessageHandlerLoop() returns (hs: seq<Node>)
      ensures hs == MessageHandlersOf(flattenedJson, |flattenedJson|)
    {
      var flat := flattenedJson;
      hs := [];
      var i := 0;
      while i < |flat|
        invariant 0 <= i <= |flat|
        invariant hs == MessageHandlersOf(flat, i)
      {
        MessageHandlersStep(flat, i);
        hs := hs + MessageHandlerAt(flat, flat[i]);
        i := i + 1;
      }
    }

    method CollectMessageHandlers()
      modifies this
      ensures model == MessageHandlersPass(old(model), old(flattenedJson)) && flattenedJson == old(flattenedJson)
    {
      var hs := MessageHandlerLoop();
      model := model.(messageHandlers := model.messageHandlers + hs, scripts := model.scripts + hs);
    }

    /** The first loop of `_collect_custom_methods`: `custom_method_data`. */
    method MethodTableLoop() returns (table: MethodTable)
      ensures table == MethodTableOf(flattenedJson, |flattenedJson|)
    {
      var flat := flattenedJson;
      table := [];
      var i := 0;
      while i < |flat|
        invariant 0 <= i <= |flat|
        invariant table == MethodTableOf(flat, i)
      {
        MethodTableStep(flat, i);
        table := TableStep(table, flat[i]);
        i := i + 1;
      }
    }

    method CollectCustomMethods()
      modifies this
      ensures model == CustomMethodsPass(old(model), old(flattenedJson)) && flattenedJson == old(flattenedJson)
    {
      var table := MethodTableLoop();
      var ms: seq<Node> := [];
      var j := 0;
      while j < |table|
        invariant 0 <= j <= |table|
        invariant ms == MethodNodes(table[..j])
      {
        ms := ms + [MethodNode(table[j].1)];
        j := j + 1;
      }
      assert table[..j] == table;
      model := model.(customMethods := model.customMethods + ms, scripts := model.scripts + ms);
    }

    /** The loop of `_collect_event_handlers`. */
    method EventHandlerLoop() returns (hs: seq<Node>)
      ensures hs == EventHandlersOf(flattenedJson, |flattenedJson|)
    {
      var flat := flattenedJson;
      hs := [];
      var i := 0;
      while i < |flat|
        invariant 0 <= i <= |flat|
        invariant hs == EventHandlersOf(flat, i)
      {
        EventHandlersStep(flat, i);
        hs := hs + EventHandlerAt(flat, flat[i]);
        i := i + 1;
      }
    }

    method CollectEventHandlers()
      modifies this
      ensures model == EventHandlersPass(old(model), old(flattenedJson)) && flattenedJson == old(flattenedJson)
    {
      var hs := EventHandlerLoop();
      model := model.(eventHandlers := model.eventHandlers + hs, scripts := model.scripts + hs);
    }

    /** The owner loop of `_collect_properties`. */
    method FindOwner(path: string) returns (owner: Option<string>)
      ensures owner == OwnerOf(model.components, path)
    {
      var comps := model.components;
      owner := None;
      var k := 0;
      while k < |comps|
        invariant 0 <= k <= |comps|
        invariant owner == OwnerOf(comps[..k], path)
      {
        assert comps[..k + 1][..k] == comps[..k];
        var c := comps[k].path;
        if StartsWith(path, c) && (owner.None? || |c| > |owner.value|) {
          owner := Some(c);
        }
        k := k + 1;
      }
      assert comps[..k] == comps;
    }

    /** The body of the `_collect_properties` loop for one entry. */
    method PropertyFor(e: Entry) returns (add: seq<Node>)
      ensures add == PropertyAt(flattenedJson, model.components, e)
    {
      var flat := flattenedJson;
      var p := e.0;
      var prop := [Property(p, AfterLast(p, "."), e.1, None, None)];
      add := [];
      if !Excluded(p) {
        if StartsWith(p, "custom.") || StartsWith(p, "params.") {
          if Persistent(flat, p) {
            add := prop;
          }
        } else {
          var owner := FindOwner(p);
          if owner.Some? && owner.value != "" && !(Contains(p, ".custom.") && !Persistent(flat, p)) {
            add := prop;
          }
        }
      }
    }

    /** The loop of `_collect_properties`, against the components collected so far. */
    method PropertyLoop() returns (ps: seq<Node>)
      ensures ps == PropertiesOf(flattenedJson, model.components, |flattenedJson|)
    {
      var flat := flattenedJson;
      ps := [];
      var i := 0;
      while i < |flat|
        invariant 0 <= i <= |flat|
        invariant ps == PropertiesOf(flat, model.components, i)
      {
        var add := PropertyFor(flat[i]);
        PropertiesStep(flat, model.components, i);
        ps := ps + add;
        i := i + 1;
      }
    }

    method CollectProperties()
      modifies this
      ensures model == PropertiesPass(old(model), old(flattenedJson)) && flattenedJson == old(flattenedJson)
    {
      var ps := PropertyLoop();
      model := model.(properties := model.properties + ps);
    }

    /** `build_model`: every list is reset, then the six passes run in order. */
    method BuildModel(flat: seq<Entry>) returns (m: ViewModel)
      modifies this
      ensures flattenedJson == flat
      ensures m == model == ModelOf(flat)
    {
      flattenedJson := flat;
      model := EmptyModel;
      CollectComponents();
      CollectBindings();
      CollectMessageHandlers();
      CollectCustomMethods();
      CollectEventHandlers();
      CollectProperties();
      m := model;
    }
  }
}
