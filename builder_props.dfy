/**
 * What the builder's passes derive, stated against the flattened view
 * itself: which keys give which nodes, and what each node carries.
 */
module BuilderProps {
  import opened Wrappers
  import opened PyStr
  import opened JsonValue
  import opened FlatMaps
  import opened Nodes
  import opened Builder
  import Dicts

  // ---------------------------------------------------------------------
  // Components

  /** The `.meta.name` entries among the first `n`, in order. */
  function MetaEntries(flat: seq<Entry>, n: nat): seq<Entry>
    requires n <= |flat|
  {
    if n == 0 then []
    else MetaEntries(flat, n - 1) + (if EndsWith(flat[n - 1].0, ".meta.name") then [flat[n - 1]] else [])
  }

  lemma {:induction false} MetaEntriesMembers(flat: seq<Entry>, n: nat)
    requires n <= |flat|
    ensures forall e :: e in MetaEntries(flat, n) <==> e in flat[..n] && EndsWith(e.0, ".meta.name")
  {
    if n > 0 {
      MetaEntriesMembers(flat, n - 1);
      assert flat[..n] == flat[..n - 1] + [flat[n - 1]];
    }
  }

  /** `c` is the component of the `.meta.name` entry `e`. */
  predicate ComponentOfEntry(flat: seq<Entry>, c: Node, e: Entry) {
    c.Component? && c.path + ".meta.name" == e.0 && c.name == Text(e.1)
    && c.typeName == Text(GetOr(flat, c.path + ".type", JString("unknown")))
  }

  /** `cs[j]` is the component of `ms[j]`, for every `j`. */
  predicate ComponentsPaired(flat: seq<Entry>, cs: seq<Node>, ms: seq<Entry>) {
    |cs| == |ms| && forall j :: 0 <= j < |ms| ==> ComponentOfEntry(flat, cs[j], ms[j])
  }

  lemma ComponentsPairedSnoc(flat: seq<Entry>, cs: seq<Node>, ms: seq<Entry>, c: Node, e: Entry)
    requires ComponentsPaired(flat, cs, ms) && ComponentOfEntry(flat, c, e)
    ensures ComponentsPaired(flat, cs + [c], ms + [e])
  {
    forall j | 0 <= j < |ms| + 1 ensures ComponentOfEntry(flat, (cs + [c])[j], (ms + [e])[j]) {
      if j < |ms| {
        assert (cs + [c])[j] == cs[j] && (ms + [e])[j] == ms[j];
      }
    }
  }

  /** A `.meta.name` entry yields exactly its own component, any other entry none. */
  lemma ComponentAtEntry(flat: seq<Entry>, e: Entry)
    ensures EndsWith(e.0, ".meta.name") ==>
      |ComponentAt(flat, e)| == 1 && ComponentOfEntry(flat, ComponentAt(flat, e)[0], e)
    ensures !EndsWith(e.0, ".meta.name") ==> ComponentAt(flat, e) == []
  {
    if EndsWith(e.0, ".meta.name") {
      BeforeLastOfSuffix(e.0, ".meta.name");
    }
  }

  /**
   * One component per `.meta.name` key, in key order, at the key's prefix,
   * named by its value and typed by `<prefix>.type` or "unknown".
   */
  lemma {:induction false} ComponentPerMetaName(flat: seq<Entry>, n: nat)
    requires n <= |flat|
    ensures ComponentsPaired(flat, ComponentsOf(flat, n), MetaEntries(flat, n))
  {
    if n > 0 {
      ComponentPerMetaName(flat, n - 1);
      var cs, ms := ComponentsOf(flat, n - 1), MetaEntries(flat, n - 1);
      var e := flat[n - 1];
      ComponentAtEntry(flat, e);
      assert ComponentsOf(flat, n) == cs + ComponentAt(flat, e);
      if EndsWith(e.0, ".meta.name") {
        var c := ComponentAt(flat, e)[0];
        assert ComponentAt(flat, e) == [c];
        assert MetaEntries(flat, n) == ms + [e];
        ComponentsPairedSnoc(flat, cs, ms, c, e);
      } else {
        assert ComponentsOf(flat, n) == cs + [];
        assert MetaEntries(flat, n) == ms + [];
      }
    }
  }

  // ---------------------------------------------------------------------
  // Binding sites

  predicate BindingKey(p: string) {
    Contains(p, ".binding.type")
  }

  /** Entry `k` is the first of the first `n` to name the binding at `bp`. */
  predicate FirstBindingKey(flat: seq<Entry>, k: nat, bp: string)
    requires k < |flat|
  {
    BindingKey(flat[k].0) && BeforeLast(flat[k].0, ".binding.type") == bp
    && forall k' :: 0 <= k' < k && BindingKey(flat[k'].0) ==> BeforeLast(flat[k'].0, ".binding.type") != bp
  }

  /** The site was added by the first key, among the first `n`, that names its path. */
  predicate SiteFromKey(flat: seq<Entry>, n: nat, site: Site)
    requires n <= |flat|
  {
    exists k :: 0 <= k < n && FirstBindingKey(flat, k, site.0) && flat[k].1 == site.1
  }

  /** `visited_paths` never holds a path twice. */
  lemma {:induction false} SitesDistinct(flat: seq<Entry>, n: nat)
    requires n <= |flat|
    ensures forall a, b :: 0 <= a < b < |SitesOf(flat, n)| ==> SitesOf(flat, n)[a].0 != SitesOf(flat, n)[b].0
  {
    if n > 0 {
      SitesDistinct(flat, n - 1);
      var s := SitesOf(flat, n - 1);
      forall a | 0 <= a < |s|
        ensures s[a].0 in Dicts.DictKeys(s)
      {
        assert Dicts.DictKeys(s)[a] == s[a].0;
      }
    }
  }

  /** Every `.binding.type` key's prefix is visited. */
  lemma {:induction false} SitesComplete(flat: seq<Entry>, n: nat)
    requires n <= |flat|
    ensures forall k :: 0 <= k < n && BindingKey(flat[k].0) ==> BeforeLast(flat[k].0, ".binding.type") in Dicts.DictKeys(SitesOf(flat, n))
  {
    if n > 0 {
      SitesComplete(flat, n - 1);
      var s := SitesOf(flat, n - 1);
      var s' := SitesOf(flat, n);
      assert s' == s || s' == s + [s'[|s'| - 1]];
      forall x | x in Dicts.DictKeys(s)
        ensures x in Dicts.DictKeys(s')
      {
        var a :| 0 <= a < |s| && Dicts.DictKeys(s)[a] == x;
        assert s'[a] == s[a];
        assert Dicts.DictKeys(s')[a] == x;
      }
    }
  }

  /** Every visited path comes from the first key naming it, with that key's value as its type. */
  lemma {:induction false} SitesSound(flat: seq<Entry>, n: nat)
    requires n <= |flat|
    ensures forall i :: 0 <= i < |SitesOf(flat, n)| ==> SiteFromKey(flat, n, SitesOf(flat, n)[i])
  {
    if n > 0 {
      SitesSound(flat, n - 1);
      SitesComplete(flat, n - 1);
      var s := SitesOf(flat, n - 1);
      var s' := SitesOf(flat, n);
      var e := flat[n - 1];
      forall i | 0 <= i < |s'|
        ensures SiteFromKey(flat, n, s'[i])
      {
        if i < |s| {
          assert s'[i] == s[i];
          assert SiteFromKey(flat, n - 1, s[i]);
          var k :| 0 <= k < n - 1 && FirstBindingKey(flat, k, s[i].0) && flat[k].1 == s[i].1;
        } else {
          var bp := BeforeLast(e.0, ".binding.type");
          assert BindingKey(e.0) && bp !in Dicts.DictKeys(s) && s' == s + [(bp, e.1)];
          assert FirstBindingKey(flat, n - 1, bp);
        }
      }
    }
  }

  // ---------------------------------------------------------------------
  // Binding nodes

  /** Each binding node comes from one site whose type it matches, and lies at that site. */
  lemma {:induction false} BindingsFromSites(flat: seq<Entry>, sites: seq<Site>)
    ensures forall b :: b in BindingsOf(flat, sites) ==>
      exists j :: 0 <= j < |sites| && BindingAt(flat, sites[j]) == [b] && b.path == sites[j].0
  {
    if sites != [] {
      var init := sites[..|sites| - 1];
      BindingsFromSites(flat, init);
      forall b | b in BindingsOf(flat, sites)
        ensures exists j :: 0 <= j < |sites| && BindingAt(flat, sites[j]) == [b] && b.path == sites[j].0
      {
        if b in BindingsOf(flat, init) {
          var j :| 0 <= j < |init| && BindingAt(flat, init[j]) == [b] && b.path == init[j].0;
          assert sites[j] == init[j];
        } else {
          assert b in BindingAt(flat, sites[|sites| - 1]);
        }
      }
    }
  }

  /** Every site of a known type has its binding node, with "unknown" for a missing config field. */
  lemma {:induction false} BindingPerSite(flat: seq<Entry>, sites: seq<Site>, i: nat)
    requires i < |sites|
    ensures var bp := sites[i].0;
      (IsExpressionType(sites[i].1) ==>
        ExpressionBinding(bp, Text(GetOr(flat, bp + ".binding.config.expression", JString("unknown")))) in BindingsOf(flat, sites))
      && (sites[i].1 == JString("property") ==>
        PropertyBinding(bp, Text(GetOr(flat, bp + ".binding.config.path", JString("unknown")))) in BindingsOf(flat, sites))
      && (sites[i].1 == JString("tag") ==>
        TagBinding(bp, Text(GetOr(flat, bp + ".binding.config.tagPath", JString("unknown"))), "direct", []) in BindingsOf(flat, sites))
  {
    var init := sites[..|sites| - 1];
    if i < |sites| - 1 {
      BindingPerSite(flat, init, i);
      assert init[i] == sites[i];
    }
  }

  /** A site of any other type gives no binding node at its path. */
  lemma UnknownTypeNoBinding(flat: seq<Entry>, sites: seq<Site>, i: nat)
    requires i < |sites|
    requires forall a, b :: 0 <= a < b < |sites| ==> sites[a].0 != sites[b].0
    requires !IsExpressionType(sites[i].1) && sites[i].1 != JString("property") && sites[i].1 != JString("tag")
    ensures forall b :: b in BindingsOf(flat, sites) ==> b.path != sites[i].0
  {
    BindingsFromSites(flat, sites);
  }

  /** The three kind lists split the bindings list. */
  lemma {:induction false} KindsPartition(flat: seq<Entry>, sites: seq<Site>)
    ensures var bs := BindingsOf(flat, sites);
      |KindOf(bs, ExpressionBindingType)| + |KindOf(bs, PropertyBindingType)| + |KindOf(bs, TagBindingType)| == |bs|
  {
    if sites != [] {
      var init := sites[..|sites| - 1];
      KindsPartition(flat, init);
      var b := BindingAt(flat, sites[|sites| - 1]);
      FilterAppend(BindingsOf(flat, init), b, {ExpressionBindingType});
      FilterAppend(BindingsOf(flat, init), b, {PropertyBindingType});
      FilterAppend(BindingsOf(flat, init), b, {TagBindingType});
      if b != [] {
        FilterSnoc([], b[0], ExpressionBindingType);
        FilterSnoc([], b[0], PropertyBindingType);
        FilterSnoc([], b[0], TagBindingType);
        assert [] + [b[0]] == b;
      }
    }
  }

  // ---------------------------------------------------------------------
  // Script transforms

  /** A `<full>.transforms….type` entry whose value is "script". */
  predicate ScriptTransformKey(e: Entry, full: string) {
    StartsWith(e.0, full + ".transforms") && EndsWith(e.0, ".type") && e.1 == JString("script")
  }

  /** `tp + ".type"` is a script-transform key among the first `n`. */
  predicate TransformKeyOf(flat: seq<Entry>, n: nat, full: string, tp: string)
    requires n <= |flat|
  {
    exists k :: 0 <= k < n && ScriptTransformKey(flat[k], full) && flat[k].0 == tp + ".type"
  }

  lemma {:induction false} TransformPathsExact(flat: seq<Entry>, full: string, n: nat)
    requires n <= |flat|
    ensures forall tp :: tp in TransformPaths(flat, full, n) <==> TransformKeyOf(flat, n, full, tp)
  {
    if n > 0 {
      TransformPathsExact(flat, full, n - 1);
      var e := flat[n - 1];
      if ScriptTransformKey(e, full) {
        BeforeLastOfSuffix(e.0, ".type");
        var tp := BeforeLast(e.0, ".type");
        assert tp + ".type" == e.0;
        forall x | TransformKeyOf(flat, n, full, x)
          ensures x in TransformPaths(flat, full, n)
        {
          var k :| 0 <= k < n && ScriptTransformKey(flat[k], full) && flat[k].0 == x + ".type";
          if k == n - 1 {
            assert x == e.0[..|e.0| - 5];
          } else {
            assert TransformKeyOf(flat, n - 1, full, x);
          }
        }
      } else {
        forall x | TransformKeyOf(flat, n, full, x)
          ensures TransformKeyOf(flat, n - 1, full, x)
        {
          var k :| 0 <= k < n && ScriptTransformKey(flat[k], full) && flat[k].0 == x + ".type";
          assert k != n - 1;
        }
      }
    }
  }

  lemma {:induction false} TransformScriptsExact(flat: seq<Entry>, paths: seq<string>)
    ensures forall x :: x in TransformScripts(flat, paths) <==>
      x.0 in paths && x.0 + ".script" in Dicts.DictKeys(flat) && x.1 == GetOr(flat, x.0 + ".script", JNull)
  {
    if paths != [] {
      var init := paths[..|paths| - 1];
      TransformScriptsExact(flat, init);
      assert paths == init + [paths[|paths| - 1]];
    }
  }

  /**
   * The transforms of a binding path: one per script-transform key under
   * `<bp>.binding.transforms` with a sibling `.script`, carrying that
   * script and `bp` as its binding path.
   */
  lemma TransformsAtExact(flat: seq<Entry>, bp: string)
    ensures forall t :: t in TransformsAt(flat, bp) ==>
      t.Transform? && t.bindingPath == bp && TransformKeyOf(flat, |flat|, bp + ".binding", t.path)
      && t.path + ".script" in Dicts.DictKeys(flat) && t.script == Text(GetOr(flat, t.path + ".script", JNull))
    ensures forall tp :: TransformKeyOf(flat, |flat|, bp + ".binding", tp) && tp + ".script" in Dicts.DictKeys(flat) ==>
      Transform(tp, Text(GetOr(flat, tp + ".script", JNull)), bp) in TransformsAt(flat, bp)
  {
    var paths := TransformPaths(flat, bp + ".binding", |flat|);
    var ts := TransformScripts(flat, paths);
    TransformPathsExact(flat, bp + ".binding", |flat|);
    TransformScriptsExact(flat, paths);
    forall t | t in TransformsAt(flat, bp)
      ensures t.Transform? && t.bindingPath == bp && TransformKeyOf(flat, |flat|, bp + ".binding", t.path)
        && t.path + ".script" in Dicts.DictKeys(flat) && t.script == Text(GetOr(flat, t.path + ".script", JNull))
    {
      var i :| 0 <= i < |ts| && TransformNodes(ts, bp)[i] == t;
      assert ts[i] in ts;
    }
    forall tp | TransformKeyOf(flat, |flat|, bp + ".binding", tp) && tp + ".script" in Dicts.DictKeys(flat)
      ensures Transform(tp, Text(GetOr(flat, tp + ".script", JNull)), bp) in TransformsAt(flat, bp)
    {
      var x := (tp, GetOr(flat, tp + ".script", JNull));
      assert x in ts;
      var i :| 0 <= i < |ts| && ts[i] == x;
      assert TransformNodes(ts, bp)[i] == Transform(tp, Text(GetOr(flat, tp + ".script", JNull)), bp);
    }
  }

  /** Every visited binding path contributes its transforms, whatever the binding's type, and nothing else does. */
  lemma {:induction false} TransformsOfSites(flat: seq<Entry>, sites: seq<Site>)
    ensures forall i, t :: 0 <= i < |sites| && t in TransformsAt(flat, sites[i].0) ==> t in TransformsOf(flat, sites)
    ensures forall t :: t in TransformsOf(flat, sites) ==> exists i :: 0 <= i < |sites| && t in TransformsAt(flat, sites[i].0)
  {
    if sites != [] {
      var init := sites[..|sites| - 1];
      TransformsOfSites(flat, init);
      forall i | 0 <= i < |init|
        ensures init[i] == sites[i]
      {
      }
    }
  }

  // ---------------------------------------------------------------------
  // Message handlers

  predicate MessageTypeKey(p: string) {
    Contains(p, ".scripts.messageHandlers") && EndsWith(p, ".messageType")
  }

  function MessageEntries(flat: seq<Entry>, n: nat): seq<Entry>
    requires n <= |flat|
  {
    if n == 0 then []
    else MessageEntries(flat, n - 1) + (if MessageTypeKey(flat[n - 1].0) then [flat[n - 1]] else [])
  }

  /** `h` is the handler of the `.messageType` entry `e`: script "" and scopes False when absent. */
  predicate HandlerOfEntry(flat: seq<Entry>, h: Node, e: Entry) {
    h.MessageHandler? && h.path + ".messageType" == e.0 && h.messageType == Text(e.1)
    && h.script == Text(GetOr(flat, h.path + ".script", JString("")))
    && h.scope == MessageScope(
         GetOr(flat, h.path + ".pageScope", JBool(false)),
         GetOr(flat, h.path + ".sessionScope", JBool(false)),
         GetOr(flat, h.path + ".viewScope", JBool(false)))
  }

  /** `hs[j]` is the handler of `ms[j]`, for every `j`. */
  predicate HandlersPaired(flat: seq<Entry>, hs: seq<Node>, ms: seq<Entry>) {
    |hs| == |ms| && forall j :: 0 <= j < |ms| ==> HandlerOfEntry(flat, hs[j], ms[j])
  }

  lemma HandlersPairedSnoc(flat: seq<Entry>, hs: seq<Node>, ms: seq<Entry>, h: Node, e: Entry)
    requires HandlersPaired(flat, hs, ms) && HandlerOfEntry(flat, h, e)
    ensures HandlersPaired(flat, hs + [h], ms + [e])
  {
    forall j | 0 <= j < |ms| + 1 ensures HandlerOfEntry(flat, (hs + [h])[j], (ms + [e])[j]) {
      if j < |ms| {
        assert (hs + [h])[j] == hs[j] && (ms + [e])[j] == ms[j];
      }
    }
  }

  /** A `.messageType` entry yields exactly its own handler, any other entry none. */
  lemma HandlerAtEntry(flat: seq<Entry>, e: Entry)
    ensures MessageTypeKey(e.0) ==>
      |MessageHandlerAt(flat, e)| == 1 && HandlerOfEntry(flat, MessageHandlerAt(flat, e)[0], e)
    ensures !MessageTypeKey(e.0) ==> MessageHandlerAt(flat, e) == []
  {
    if MessageTypeKey(e.0) {
      BeforeLastOfSuffix(e.0, ".messageType");
    }
  }

  /**
   * One handler per `.messageType` key under `.scripts.messageHandlers`, in
   * key order, with the script and the three scopes read beside it.
   */
  lemma {:induction false} HandlerPerMessageType(flat: seq<Entry>, n: nat)
    requires n <= |flat|
    ensures HandlersPaired(flat, MessageHandlersOf(flat, n), MessageEntries(flat, n))
  {
    if n > 0 {
      HandlerPerMessageType(flat, n - 1);
      var hs, ms := MessageHandlersOf(flat, n - 1), MessageEntries(flat, n - 1);
      var e := flat[n - 1];
      HandlerAtEntry(flat, e);
      assert MessageHandlersOf(flat, n) == hs + MessageHandlerAt(flat, e);
      if MessageTypeKey(e.0) {
        var h := MessageHandlerAt(flat, e)[0];
        assert MessageHandlerAt(flat, e) == [h];
        assert MessageEntries(flat, n) == ms + [e];
        HandlersPairedSnoc(flat, hs, ms, h, e);
      } else {
        assert MessageHandlersOf(flat, n) == hs + [];
        assert MessageEntries(flat, n) == ms + [];
      }
    }
  }

  // ---------------------------------------------------------------------
  // Event handlers

  /** The segment after a final `.events.` is the event type. */
  lemma EventTypeExact(q: string, x: string)
    requires x != "" && !Contains(x, ".")
    ensures EventTypeOf(q + ".events." + x) == Some(x)
  {
    var p := q + ".events." + x;
    var u := q + ".events";
    assert p == u + "." + x;
    AfterLastSegment(u, x);
  }

  /** The last piece of `u + "." + x` is `x` when `x` holds no dot. */
  lemma AfterLastSegment(u: string, x: string)
    requires !Contains(x, ".")
    ensures AfterLast(u + "." + x, ".") == x
  {
    var p := u + "." + x;
    assert OccursAt(p, ".", |u|);
    var r := AfterLast(p, ".");
    AfterLastSpec(p, ".");
    var k := |p| - |r| - 1;
    assert OccursAt(p, ".", k);
    if k > |u| {
      assert OccursAt(x, ".", k - |u| - 1) by {
        assert p[k..k + 1] == x[k - |u| - 1..k - |u|];
      }
    }
    assert k == |u|;
  }

  /** The captured event type is one path segment. */
  lemma EventTypeIsSegment(p: string)
    ensures EventTypeOf(p).Some? ==> !Contains(EventTypeOf(p).value, ".")
  {
    AfterLastFree(p, ".");
  }

  /** A domain-qualified event such as `events.dom.onClick` gives no handler. */
  lemma DomainEventIgnored(q: string)
    ensures EventTypeOf(q + ".events.dom.onClick") == None
  {
    var p := q + ".events.dom.onClick";
    assert p == (q + ".events.dom") + "." + "onClick";
    NoCharNoOccurrence("onClick", '.');
    AfterLastSegment(q + ".events.dom", "onClick");
    assert ".events." + "onClick" == ".events.onClick";
    DomainSuffix(q);
  }

  lemma DomainSuffix(q: string)
    ensures !EndsWith(q + ".events.dom.onClick", ".events.onClick")
  {
    var p := q + ".events.dom.onClick";
    assert p[|p| - 15..] == ".events.dom.onClick"[4..];
    assert ".events.dom.onClick"[4..][0] != ".events.onClick"[0];
  }

  /** A string without the character `c` does not contain `[c]`. */
  lemma NoCharNoOccurrence(s: string, c: char)
    requires forall i :: 0 <= i < |s| ==> s[i] != c
    ensures !Contains(s, [c])
  {
    forall k | 0 <= k <= |s|
      ensures !OccursAt(s, [c], k)
    {
      if k < |s| {
        assert s[k..k + 1][0] == s[k];
      }
    }
  }

  /** An event script key whose event path ends in a single segment after `.events.`. */
  predicate EventKey(p: string) {
    IsEventScriptKey(p) && EventTypeOf(EventPathOf(p)).Some?
  }

  function EventEntries(flat: seq<Entry>, n: nat): seq<Entry>
    requires n <= |flat|
  {
    if n == 0 then []
    else EventEntries(flat, n - 1) + (if EventKey(flat[n - 1].0) then [flat[n - 1]] else [])
  }

  /** `h` is the handler of the script entry `e`: domain "component", scope "L" when absent. */
  predicate EventOfEntry(flat: seq<Entry>, h: Node, e: Entry) {
    h.EventHandler? && h.path == EventPathOf(e.0) && EventTypeOf(h.path) == Some(h.eventType)
    && h.domain == "component" && h.script == Text(e.1)
    && h.handlerScope == GetOr(flat, h.path + ".scope", JString("L"))
  }

  lemma EventAtKey(flat: seq<Entry>, e: Entry)
    ensures EventKey(e.0) ==> |EventHandlerAt(flat, e)| == 1 && EventOfEntry(flat, EventHandlerAt(flat, e)[0], e)
    ensures !EventKey(e.0) ==> EventHandlerAt(flat, e) == []
  {
  }

  lemma {:induction false} HandlerPerEventScript(flat: seq<Entry>, n: nat)
    requires n <= |flat|
    ensures |EventHandlersOf(flat, n)| == |EventEntries(flat, n)|
    ensures forall j :: 0 <= j < |EventEntries(flat, n)| ==> EventOfEntry(flat, EventHandlersOf(flat, n)[j], EventEntries(flat, n)[j])
  {
    if n > 0 {
      HandlerPerEventScript(flat, n - 1);
      var hs, es := EventHandlersOf(flat, n - 1), EventEntries(flat, n - 1);
      var e := flat[n - 1];
      EventAtKey(flat, e);
      if EventKey(e.0) {
        var h := EventHandlerAt(flat, e)[0];
        assert EventHandlersOf(flat, n) == hs + [h];
        assert EventEntries(flat, n) == es + [e];
      } else {
        assert EventHandlersOf(flat, n) == hs;
        assert EventEntries(flat, n) == es;
      }
    }
  }

  // ---------------------------------------------------------------------
  // Custom methods

  /** The parameter index a key under a custom method assigns, if any. */
  function ParamIndex(path: string): Option<nat> {
    if EndsWith(path, ".name") || EndsWith(path, ".script") || !Contains(path, "params") then None
    else
      match BracketIndex(path, "params[")
      case None => None
      case Some(digits) => Some(DigitsValue(digits))
  }

  /** An update keeps the method's path, never shortens `params`, and sets the indexed one. */
  lemma UpdateMethodParams(d: MethodData, path: string, value: Json)
    ensures UpdateMethod(d, path, value).path == d.path
    ensures |UpdateMethod(d, path, value).params| >= |d.params|
    ensures ParamIndex(path).Some? ==>
      |UpdateMethod(d, path, value).params| > ParamIndex(path).value
      && UpdateMethod(d, path, value).params[ParamIndex(path).value] == value
  {
  }

  function SlotId(path: string): Option<string> {
    match MethodSlot(path)
    case None => None
    case Some(slot) => Some(slot.0)
  }

  /** Each method id has one row. */
  predicate DistinctIds(t: MethodTable) {
    forall a, b :: 0 <= a < b < |t| ==> t[a].0 != t[b].0
  }

  /** `t'` is `t` with the row of `e`'s method updated by `e`. */
  predicate UpdatedRow(t: MethodTable, t': MethodTable, e: Entry) {
    |t'| == |t| && SlotId(e.0).Some?
    && forall i :: 0 <= i < |t| ==> t'[i] == (if t[i].0 == SlotId(e.0).value then (t[i].0, UpdateMethod(t[i].1, e.0, e.1)) else t[i])
  }

  /** How one step changes the table: a new id is appended, a known one updated in place. */
  lemma TableStepShape(t: MethodTable, e: Entry)
    requires DistinctIds(t)
    ensures SlotId(e.0).None? ==> TableStep(t, e) == t
    ensures SlotId(e.0).Some? && SlotId(e.0).value !in Dicts.DictKeys(t) ==>
      TableStep(t, e) == t + [(SlotId(e.0).value, UpdateMethod(MethodSlot(e.0).value.1, e.0, e.1))]
    ensures SlotId(e.0).Some? && SlotId(e.0).value in Dicts.DictKeys(t) ==> UpdatedRow(t, TableStep(t, e), e)
  {
  }

  /** The ids of `t'` are those of `t` and `sid`'s. */
  ghost predicate IdsGrow(t: MethodTable, t': MethodTable, sid: Option<string>) {
    forall x :: x in Dicts.DictKeys(t') <==> x in Dicts.DictKeys(t) || sid == Some(x)
  }

  /** Updating rows in place keeps the ids. */
  lemma SameIdsKept(t: MethodTable, t': MethodTable)
    requires |t'| == |t| && forall i :: 0 <= i < |t| ==> t'[i].0 == t[i].0
    ensures Dicts.DictKeys(t') == Dicts.DictKeys(t)
  {
  }

  /** Appending a row with a new id keeps the ids distinct and adds that id. */
  lemma AppendIds(t: MethodTable, r: (string, MethodData))
    requires DistinctIds(t) && r.0 !in Dicts.DictKeys(t)
    ensures DistinctIds(t + [r]) && Dicts.DictKeys(t + [r]) == Dicts.DictKeys(t) + [r.0]
  {
    var t' := t + [r];
    forall a, b | 0 <= a < b < |t'| ensures t'[a].0 != t'[b].0 {
      if b == |t| {
        assert Dicts.DictKeys(t)[a] == t'[a].0;
      }
    }
  }

  /** A step keeps the ids distinct and adds the id of the entry's method, if any. */
  lemma StepIds(t: MethodTable, e: Entry)
    requires DistinctIds(t)
    ensures DistinctIds(TableStep(t, e)) && IdsGrow(t, TableStep(t, e), SlotId(e.0))
  {
    var t' := TableStep(t, e);
    TableStepShape(t, e);
    var sid := SlotId(e.0);
    if sid.Some? && sid.value !in Dicts.DictKeys(t) {
      AppendIds(t, t'[|t|]);
      assert t' == t + [t'[|t|]];
    } else if sid.Some? {
      assert UpdatedRow(t, t', e);
      SameIdsKept(t, t');
      assert DistinctIds(t') by {
        forall a, b | 0 <= a < b < |t'| ensures t'[a].0 != t'[b].0 {
          assert t'[a].0 == Dicts.DictKeys(t)[a] && t'[b].0 == Dicts.DictKeys(t)[b];
        }
      }
    }
  }

  /** Step `i` of the first loop: `ts[i + 1]` is `ts[i]` after entry `i`. */
  predicate StepAt(flat: seq<Entry>, ts: seq<MethodTable>, i: nat)
    requires i < |flat| && |ts| == |flat| + 1
  {
    ts[i + 1] == TableStep(ts[i], flat[i])
  }

  /** `ts[i]` is the table after the first `i` entries of `flat`. */
  predicate TableRun(flat: seq<Entry>, ts: seq<MethodTable>) {
    |ts| == |flat| + 1 && ts[0] == [] && forall i :: 0 <= i < |flat| ==> StepAt(flat, ts, i)
  }

  /** The tables of every prefix. */
  function Tables(flat: seq<Entry>): (ts: seq<MethodTable>)
    ensures |ts| == |flat| + 1
  {
    seq(|flat| + 1, i requires 0 <= i <= |flat| => MethodTableOf(flat, i))
  }

  lemma TablesRun(flat: seq<Entry>)
    ensures TableRun(flat, Tables(flat))
    ensures forall n :: 0 <= n <= |flat| ==> Tables(flat)[n] == MethodTableOf(flat, n)
  {
    var ts := Tables(flat);
    forall i | 0 <= i < |flat| ensures StepAt(flat, ts, i) {
      TableOfStep(flat, ts, i);
    }
  }

  lemma TableOfStep(flat: seq<Entry>, ts: seq<MethodTable>, i: nat)
    requires ts == Tables(flat) && i < |flat|
    ensures StepAt(flat, ts, i)
  {
    assert ts[i + 1] == MethodTableOf(flat, i + 1);
    assert ts[i] == MethodTableOf(flat, i);
  }

  /** Step `n - 1` of a run, seen through the ids. */
  lemma RunStepIds(flat: seq<Entry>, ts: seq<MethodTable>, n: nat)
    requires TableRun(flat, ts) && 0 < n <= |flat| && DistinctIds(ts[n - 1])
    ensures DistinctIds(ts[n]) && IdsGrow(ts[n - 1], ts[n], SlotId(flat[n - 1].0))
  {
    assert StepAt(flat, ts, n - 1);
    StepIds(ts[n - 1], flat[n - 1]);
  }

  /** `custom_method_data` holds each method id once. */
  lemma {:induction false} TableIdsDistinct(flat: seq<Entry>, ts: seq<MethodTable>, n: nat)
    requires TableRun(flat, ts) && n <= |flat|
    ensures DistinctIds(ts[n])
  {
    if n > 0 {
      TableIdsDistinct(flat, ts, n - 1);
      RunStepIds(flat, ts, n);
    }
  }

  /** Every key under `.scripts.customMethods[i]` has its method's row. */
  lemma {:induction false} TableComplete(flat: seq<Entry>, ts: seq<MethodTable>, n: nat)
    requires TableRun(flat, ts) && n <= |flat|
    ensures forall k :: 0 <= k < n && SlotId(flat[k].0).Some? ==> SlotId(flat[k].0).value in Dicts.DictKeys(ts[n])
  {
    if n > 0 {
      TableComplete(flat, ts, n - 1);
      TableIdsDistinct(flat, ts, n - 1);
      RunStepIds(flat, ts, n);
      forall k | 0 <= k < n && SlotId(flat[k].0).Some?
        ensures SlotId(flat[k].0).value in Dicts.DictKeys(ts[n])
      {
        if k == n - 1 {
          assert flat[k] == flat[n - 1];
        }
      }
    }
  }

  /** One step seen from a row of the new table. */
  lemma RowStep(t: MethodTable, e: Entry, i: nat)
    requires DistinctIds(t)
    requires i < |TableStep(t, e)|
    ensures var r := TableStep(t, e)[i];
      (i < |t| ==> r.0 == t[i].0 && |r.1.params| >= |t[i].1.params|)
      && (i >= |t| ==> SlotId(e.0) == Some(r.0) && r.0 !in Dicts.DictKeys(t))
      && (SlotId(e.0) == Some(r.0) && ParamIndex(e.0).Some? ==> |r.1.params| > ParamIndex(e.0).value)
  {
    TableStepShape(t, e);
    if i < |t| {
      UpdateMethodParams(t[i].1, e.0, e.1);
    } else {
      UpdateMethodParams(MethodSlot(e.0).value.1, e.0, e.1);
    }
  }

  /** All rows of method `id` hold more than `x` parameters. */
  predicate PaddedRows(t: MethodTable, id: string, x: nat) {
    forall i :: 0 <= i < |t| && t[i].0 == id ==> |t[i].1.params| > x
  }

  /** A step keeps a padded method padded, and pads the method of a key naming parameter `x`. */
  lemma PaddedStep(t: MethodTable, e: Entry, id: string, x: nat, seen: bool)
    requires DistinctIds(t)
    requires seen ==> id in Dicts.DictKeys(t) && PaddedRows(t, id, x)
    requires !seen ==> SlotId(e.0) == Some(id) && ParamIndex(e.0) == Some(x)
    ensures PaddedRows(TableStep(t, e), id, x)
  {
    var t' := TableStep(t, e);
    forall i | 0 <= i < |t'| && t'[i].0 == id
      ensures |t'[i].1.params| > x
    {
      RowStep(t, e, i);
    }
  }

  /** A step keeps the rows of a known, padded method padded. */
  lemma RunPaddedKept(flat: seq<Entry>, ts: seq<MethodTable>, n: nat, id: string, x: nat)
    requires TableRun(flat, ts) && 0 < n <= |flat| && DistinctIds(ts[n - 1])
    requires id in Dicts.DictKeys(ts[n - 1]) && PaddedRows(ts[n - 1], id, x)
    ensures id in Dicts.DictKeys(ts[n]) && PaddedRows(ts[n], id, x)
  {
    assert StepAt(flat, ts, n - 1);
    PaddedStep(ts[n - 1], flat[n - 1], id, x, true);
    StepIds(ts[n - 1], flat[n - 1]);
  }

  /** The step of a key naming parameter `x` of method `id` pads that method's rows. */
  lemma RunPaddedNew(flat: seq<Entry>, ts: seq<MethodTable>, k: nat, id: string, x: nat)
    requires TableRun(flat, ts) && k < |flat| && DistinctIds(ts[k])
    requires SlotId(flat[k].0) == Some(id) && ParamIndex(flat[k].0) == Some(x)
    ensures id in Dicts.DictKeys(ts[k + 1]) && PaddedRows(ts[k + 1], id, x)
  {
    assert StepAt(flat, ts, k);
    PaddedStep(ts[k], flat[k], id, x, false);
    StepIds(ts[k], flat[k]);
  }

  /** Once padded, the rows of a method stay padded. */
  lemma {:induction false} PaddedFrom(flat: seq<Entry>, ts: seq<MethodTable>, m: nat, n: nat, id: string, x: nat)
    requires TableRun(flat, ts) && m <= n <= |flat|
    requires id in Dicts.DictKeys(ts[m]) && PaddedRows(ts[m], id, x)
    ensures id in Dicts.DictKeys(ts[n]) && PaddedRows(ts[n], id, x)
  {
    if m < n {
      PaddedFrom(flat, ts, m, n - 1, id, x);
      TableIdsDistinct(flat, ts, n - 1);
      RunPaddedKept(flat, ts, n, id, x);
    }
  }

  /** The rows of method `id` once its key `k`, naming parameter `x`, has been read. */
  lemma KeyPadded(flat: seq<Entry>, ts: seq<MethodTable>, n: nat, k: nat, id: string, x: nat)
    requires TableRun(flat, ts) && k < n <= |flat|
    requires SlotId(flat[k].0) == Some(id) && ParamIndex(flat[k].0) == Some(x)
    ensures PaddedRows(ts[n], id, x)
  {
    TableIdsDistinct(flat, ts, k);
    RunPaddedNew(flat, ts, k, id, x);
    PaddedFrom(flat, ts, k + 1, n, id, x);
  }

  /** `params` is padded up to the largest index any of the method's keys named. */
  lemma ParamsPadded(flat: seq<Entry>, n: nat)
    requires n <= |flat|
    ensures var t := MethodTableOf(flat, n);
      forall i, k :: 0 <= i < |t| && 0 <= k < n && SlotId(flat[k].0) == Some(t[i].0) && ParamIndex(flat[k].0).Some? ==>
        |t[i].1.params| > ParamIndex(flat[k].0).value
  {
    TablesRun(flat);
    var ts := Tables(flat);
    var t := MethodTableOf(flat, n);
    assert ts[n] == t;
    forall i, k | 0 <= i < |t| && 0 <= k < n && SlotId(flat[k].0) == Some(t[i].0) && ParamIndex(flat[k].0).Some?
      ensures |t[i].1.params| > ParamIndex(flat[k].0).value
    {
      KeyPadded(flat, ts, n, k, t[i].0, ParamIndex(flat[k].0).value);
    }
  }

  // ---------------------------------------------------------------------
  // Properties

  /** Some collected component with a non-empty path prefixes `p`. */
  predicate HasNamedOwner(comps: seq<Node>, p: string) {
    exists i :: 0 <= i < |comps| && comps[i].path != "" && StartsWith(p, comps[i].path)
  }

  /** The owner loop finds a non-empty owner exactly when a named component prefixes the key. */
  lemma OwnerNamed(comps: seq<Node>, p: string)
    ensures (OwnerOf(comps, p).Some? && OwnerOf(comps, p).value != "") <==> HasNamedOwner(comps, p)
  {
    var r := OwnerOf(comps, p);
    if HasNamedOwner(comps, p) {
      var i :| 0 <= i < |comps| && comps[i].path != "" && StartsWith(p, comps[i].path);
      assert r.Some?;
      assert |comps[i].path| <= |r.value|;
    }
    if r.Some? && r.value != "" {
      var i :| 0 <= i < |comps| && comps[i].path == r.value;
      assert comps[i].path != "" && StartsWith(p, comps[i].path);
    }
  }

  /**
   * Which keys become properties, without the owner loop: not one the
   * other passes handle; a view-level `custom.`/`params.` key when
   * persistent; otherwise a key under a named component, where a
   * `.custom.` key must also be persistent.
   */
  predicate KeptProperty(flat: seq<Entry>, comps: seq<Node>, p: string) {
    && !Excluded(p)
    && (if StartsWith(p, "custom.") || StartsWith(p, "params.") then Persistent(flat, p)
        else HasNamedOwner(comps, p) && (Contains(p, ".custom.") ==> Persistent(flat, p)))
  }

  /** `p` is the node of a kept entry `e`: its path, its last segment as name, its value. */
  predicate PropertyOfEntry(h: Node, e: Entry) {
    h == Property(e.0, AfterLast(e.0, "."), e.1, None, None)
  }

  /** One entry gives one property exactly when it is kept; the name is a dot-free suffix of the path. */
  lemma PropertyAtKept(flat: seq<Entry>, comps: seq<Node>, e: Entry)
    ensures |PropertyAt(flat, comps, e)| == (if KeptProperty(flat, comps, e.0) then 1 else 0)
    ensures KeptProperty(flat, comps, e.0) ==> PropertyOfEntry(PropertyAt(flat, comps, e)[0], e)
    ensures var name := AfterLast(e.0, ".");
      EndsWith(e.0, name) && !Contains(name, ".")
  {
    OwnerNamed(comps, e.0);
    AfterLastFree(e.0, ".");
  }

  /** The kept entries among the first `n`, in order. */
  function PropertyEntries(flat: seq<Entry>, comps: seq<Node>, n: nat): seq<Entry>
    requires n <= |flat|
  {
    if n == 0 then []
    else PropertyEntries(flat, comps, n - 1) + (if KeptProperty(flat, comps, flat[n - 1].0) then [flat[n - 1]] else [])
  }

  /** One entry read: a kept entry adds its property and itself, another adds nothing. */
  lemma PropertyStep(flat: seq<Entry>, comps: seq<Node>, n: nat)
    requires 0 < n <= |flat|
    ensures var e := flat[n - 1];
      if KeptProperty(flat, comps, e.0) then
        && PropertiesOf(flat, comps, n) == PropertiesOf(flat, comps, n - 1) + [Property(e.0, AfterLast(e.0, "."), e.1, None, None)]
        && PropertyEntries(flat, comps, n) == PropertyEntries(flat, comps, n - 1) + [e]
      else
        && PropertiesOf(flat, comps, n) == PropertiesOf(flat, comps, n - 1)
        && PropertyEntries(flat, comps, n) == PropertyEntries(flat, comps, n - 1)
  {
    var e := flat[n - 1];
    PropertyAtKept(flat, comps, e);
    if KeptProperty(flat, comps, e.0) {
      assert PropertyAt(flat, comps, e) == [PropertyAt(flat, comps, e)[0]];
    } else {
      assert PropertyAt(flat, comps, e) == [];
    }
  }

  /** `ps` holds, index for index, the properties of the entries `es`. */
  predicate PropertiesMatch(ps: seq<Node>, es: seq<Entry>) {
    |ps| == |es| && forall j :: 0 <= j < |es| ==> PropertyOfEntry(ps[j], es[j])
  }

  lemma MatchSnoc(ps: seq<Node>, es: seq<Entry>, e: Entry)
    requires PropertiesMatch(ps, es)
    ensures PropertiesMatch(ps + [Property(e.0, AfterLast(e.0, "."), e.1, None, None)], es + [e])
  {
    var ps', es' := ps + [Property(e.0, AfterLast(e.0, "."), e.1, None, None)], es + [e];
    forall j | 0 <= j < |es'|
      ensures PropertyOfEntry(ps'[j], es'[j])
    {
      if j < |es| {
        assert ps'[j] == ps[j] && es'[j] == es[j];
      }
    }
  }

  /** The property list is the kept entries' properties, in key order. */
  lemma {:induction false} PropertyPerKeptEntry(flat: seq<Entry>, comps: seq<Node>, n: nat)
    requires n <= |flat|
    ensures PropertiesMatch(PropertiesOf(flat, comps, n), PropertyEntries(flat, comps, n))
  {
    if n > 0 {
      PropertyPerKeptEntry(flat, comps, n - 1);
      PropertyStep(flat, comps, n);
      if KeptProperty(flat, comps, flat[n - 1].0) {
        MatchSnoc(PropertiesOf(flat, comps, n - 1), PropertyEntries(flat, comps, n - 1), flat[n - 1]);
      }
    }
  }

  // ---------------------------------------------------------------------
  // The whole model

  lemma AppendEmpty<T>(s: seq<T>)
    ensures [] + s == s
  {
  }

  /**
   * How the lists of `build_model` relate: `scripts` is the transforms,
   * message handlers, custom methods and event handlers in pass order,
   * the three binding kinds split `bindings`, properties hang off the
   * components, and so `all_nodes` holds every binding and script twice.
   */
  lemma ModelLayout(flat: seq<Entry>)
    ensures var m := ModelOf(flat);
      && m.components == ComponentsOf(flat, |flat|)
      && m.scripts == m.scriptTransforms + m.messageHandlers + m.customMethods + m.eventHandlers
      && m.expressionBindings == KindOf(m.bindings, ExpressionBindingType)
      && m.propertyBindings == KindOf(m.bindings, PropertyBindingType)
      && m.tagBindings == KindOf(m.bindings, TagBindingType)
      && m.properties == PropertiesOf(flat, m.components, |flat|)
      && |AllNodes(m)| == |m.components| + 2 * |m.bindings| + 2 * |m.scripts| + |m.properties|
  {
    var comps := ComponentsOf(flat, |flat|);
    var sites := SitesOf(flat, |flat|);
    var bs, ts := BindingsOf(flat, sites), TransformsOf(flat, sites);
    var hs, ms := MessageHandlersOf(flat, |flat|), MethodNodes(MethodTableOf(flat, |flat|));
    var evs, ps := EventHandlersOf(flat, |flat|), PropertiesOf(flat, comps, |flat|);
    AppendEmpty(comps); AppendEmpty(bs); AppendEmpty(ts); AppendEmpty(hs);
    AppendEmpty(ms); AppendEmpty(evs); AppendEmpty(ps);
    AppendEmpty(KindOf(bs, ExpressionBindingType));
    AppendEmpty(KindOf(bs, PropertyBindingType));
    AppendEmpty(KindOf(bs, TagBindingType));
    KindsPartition(flat, sites);
  }
}
