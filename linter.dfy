/**
 * `LintEngine` (src/ignition_lint/linter.py): builds the view model, runs
 * every rule over all of its nodes and collects the non-empty error lists
 * by error key; plus the statistics and debugging views of the model.
 */
module Linter {
  import opened Wrappers
  import opened PyStr
  import opened Nodes
  import opened Dicts
  import FlatMaps
  import opened Builder

  /**
   * A rule as the engine sees it: its class name, error key, target types
   * and the errors its `process_nodes` leaves for a node list, or the
   * exception it raises.
   */
  datatype RuleInfo = RuleInfo(className: string, errorKey: string, targets: set<NodeType>, errorsFor: seq<Node> -> Result<seq<string>>)

  // ---------------------------------------------------------------------
  // All nodes of the model.

  /** `view_model.values()`, in key order. */
  function ModelLists(m: ViewModel): (r: seq<seq<Node>>)
    ensures |r| == 11
  {
    [m.components, m.bindings, m.scripts, m.eventHandlers, m.messageHandlers, m.customMethods,
     m.expressionBindings, m.propertyBindings, m.tagBindings, m.scriptTransforms, m.properties]
  }

  /** The first `k` lists, concatenated. */
  function ConcatUpTo(ls: seq<seq<Node>>, k: nat): seq<Node>
    requires k <= |ls|
  {
    if k == 0 then [] else ConcatUpTo(ls, k - 1) + ls[k - 1]
  }

  /** Extending by every list of the model gives its `all_nodes`. */
  lemma ConcatModel(m: ViewModel)
    ensures ConcatUpTo(ModelLists(m), 11) == AllNodes(m)
  {
    var ls := ModelLists(m);
    assert ConcatUpTo(ls, 1) == m.components by {
      assert [] + m.components == m.components;
    }
    assert ConcatUpTo(ls, 2) == m.components + m.bindings;
    assert ConcatUpTo(ls, 3) == m.components + m.bindings + m.scripts;
    assert ConcatUpTo(ls, 4) == m.components + m.bindings + m.scripts + m.eventHandlers;
    assert ConcatUpTo(ls, 5) == m.components + m.bindings + m.scripts + m.eventHandlers + m.messageHandlers;
    assert ConcatUpTo(ls, 6) == m.components + m.bindings + m.scripts + m.eventHandlers + m.messageHandlers
      + m.customMethods;
    assert ConcatUpTo(ls, 7) == m.components + m.bindings + m.scripts + m.eventHandlers + m.messageHandlers
      + m.customMethods + m.expressionBindings;
    assert ConcatUpTo(ls, 8) == m.components + m.bindings + m.scripts + m.eventHandlers + m.messageHandlers
      + m.customMethods + m.expressionBindings + m.propertyBindings;
    assert ConcatUpTo(ls, 9) == m.components + m.bindings + m.scripts + m.eventHandlers + m.messageHandlers
      + m.customMethods + m.expressionBindings + m.propertyBindings + m.tagBindings;
    assert ConcatUpTo(ls, 10) == m.components + m.bindings + m.scripts + m.eventHandlers + m.messageHandlers
      + m.customMethods + m.expressionBindings + m.propertyBindings + m.tagBindings + m.scriptTransforms;
  }

  method GatherNodes(m: ViewModel) returns (all: seq<Node>)
    ensures all == AllNodes(m)
  {
    var lists := ModelLists(m);
    all := [];
    var i := 0;
    while i < |lists|
      invariant 0 <= i <= |lists|
      invariant all == ConcatUpTo(lists, i)
    {
      all := all + lists[i];
      i := i + 1;
    }
    ConcatModel(m);
  }

  // ---------------------------------------------------------------------
  // The errors of a run.

  /**
   * The `errors` dict after the rules `rules` ran over `nodes`, or the
   * exception of the first rule whose `process_nodes` raised: linter.py
   * does not catch it, so it leaves `process` and the dict is lost.
   */
  function ErrorsOf(rules: seq<RuleInfo>, nodes: seq<Node>): Result<Dict<seq<string>>>
    decreases |rules|
  {
    if rules == [] then Ok([])
    else
      var r := rules[|rules| - 1];
      var d := ErrorsOf(rules[..|rules| - 1], nodes);
      if d.Err? then d
      else
        match r.errorsFor(nodes)
        case Err(e) => Err(e)
        case Ok(es) => if es != [] then Ok(Put(d.value, r.errorKey, es)) else d
  }

  lemma ErrorsOfSnoc(rules: seq<RuleInfo>, nodes: seq<Node>, k: nat)
    requires k < |rules|
    ensures ErrorsOf(rules[..k + 1], nodes)
      == if ErrorsOf(rules[..k], nodes).Err? then ErrorsOf(rules[..k], nodes)
         else if rules[k].errorsFor(nodes).Err? then Err(rules[k].errorsFor(nodes).error)
         else if rules[k].errorsFor(nodes).value != [] then
           Ok(Put(ErrorsOf(rules[..k], nodes).value, rules[k].errorKey, rules[k].errorsFor(nodes).value))
         else ErrorsOf(rules[..k], nodes)
  {
    assert rules[..k + 1][..k] == rules[..k];
  }

  /** Once a rule has raised, the rules after it change nothing. */
  lemma {:induction false} ErrorsOfStopsAt(rules: seq<RuleInfo>, nodes: seq<Node>, m: nat)
    requires m <= |rules| && ErrorsOf(rules[..m], nodes).Err?
    ensures ErrorsOf(rules, nodes) == ErrorsOf(rules[..m], nodes)
    decreases |rules| - m
  {
    if m == |rules| {
      assert rules[..m] == rules;
    } else {
      ErrorsOfSnoc(rules, nodes, m);
      ErrorsOfStopsAt(rules, nodes, m + 1);
    }
  }

  /** The errors of the last rule under `key` that reported any. */
  function LastReport(rules: seq<RuleInfo>, nodes: seq<Node>, key: string): Option<seq<string>>
    decreases |rules|
  {
    if rules == [] then None
    else
      var r := rules[|rules| - 1];
      if r.errorKey == key && r.errorsFor(nodes).Ok? && r.errorsFor(nodes).value != [] then Some(r.errorsFor(nodes).value)
      else LastReport(rules[..|rules| - 1], nodes, key)
  }

  /** No rule among `rules` raises over `nodes`. */
  predicate NoneRaises(rules: seq<RuleInfo>, nodes: seq<Node>) {
    forall k :: 0 <= k < |rules| ==> rules[k].errorsFor(nodes).Ok?
  }

  /**
   * The run fails exactly when some rule raises, and then with the
   * exception of the first rule that does: the rules after it never run.
   */
  lemma {:induction false} ErrorsOfRaises(rules: seq<RuleInfo>, nodes: seq<Node>)
    ensures ErrorsOf(rules, nodes).Ok? <==> NoneRaises(rules, nodes)
    ensures ErrorsOf(rules, nodes).Err? ==>
      exists k :: 0 <= k < |rules| && NoneRaises(rules[..k], nodes) && rules[k].errorsFor(nodes).Err?
        && ErrorsOf(rules, nodes).error == rules[k].errorsFor(nodes).error
    decreases |rules|
  {
    if rules != [] {
      var n := |rules| - 1;
      var pre := rules[..n];
      ErrorsOfRaises(pre, nodes);
      assert forall k :: 0 <= k < n ==> pre[k] == rules[k];
      if ErrorsOf(pre, nodes).Err? {
        var k :| 0 <= k < |pre| && NoneRaises(pre[..k], nodes) && pre[k].errorsFor(nodes).Err?
          && ErrorsOf(pre, nodes).error == pre[k].errorsFor(nodes).error;
        assert pre[..k] == rules[..k];
      } else if rules[n].errorsFor(nodes).Err? {
        assert rules[..n] == pre;
      }
    }
  }

  /**
   * When no rule raises: a key is present exactly when some rule under it
   * reported errors, and then it holds the errors of the last such rule;
   * no key holds an empty list and no key appears twice.
   */
  lemma {:induction false} ErrorsOfSpec(rules: seq<RuleInfo>, nodes: seq<Node>, key: string)
    requires NoneRaises(rules, nodes)
    ensures ErrorsOf(rules, nodes).Ok?
    ensures Distinct(ErrorsOf(rules, nodes).value)
    ensures Get(ErrorsOf(rules, nodes).value, key) == LastReport(rules, nodes, key)
    ensures forall i :: 0 <= i < |ErrorsOf(rules, nodes).value| ==> ErrorsOf(rules, nodes).value[i].1 != []
    decreases |rules|
  {
    if rules != [] {
      var n := |rules| - 1;
      var r := rules[n];
      assert forall k :: 0 <= k < n ==> rules[..n][k] == rules[k];
      ErrorsOfSpec(rules[..n], nodes, key);
      var d := ErrorsOf(rules[..n], nodes).value;
      assert r.errorsFor(nodes).Ok?;
      var es := r.errorsFor(nodes).value;
      if es != [] {
        PutGet(d, r.errorKey, es);
        var d' := Put(d, r.errorKey, es);
        forall i | 0 <= i < |d'| ensures d'[i].1 != [] {
          if i < |d| && d[i].0 != r.errorKey {
            assert d'[i] == d[i];
          } else {
            assert d'[i] == (r.errorKey, es) by {
              if Dicts.Find(d, r.errorKey) == -1 {
                assert i == |d|;
              } else {
                FindAt(d, i);
              }
            }
          }
        }
      }
    }
  }

  /** Rules that all report nothing leave no trace in the result. */
  lemma {:induction false} SilentRulesNoErrors(rules: seq<RuleInfo>, nodes: seq<Node>)
    requires forall k :: 0 <= k < |rules| ==> rules[k].errorsFor(nodes) == Ok([])
    ensures ErrorsOf(rules, nodes) == Ok([])
    decreases |rules|
  {
    if rules != [] {
      SilentRulesNoErrors(rules[..|rules| - 1], nodes);
    }
  }

  // ---------------------------------------------------------------------
  // Statistics.

  /** `len(filter_by_types(all_nodes, {t}))` */
  function CountOf(nodes: seq<Node>, t: NodeType): nat {
    |FilterByTypes(nodes, {t})|
  }

  /** `node_type_counts` after the types `ts` were looked at. */
  function TypeCounts(nodes: seq<Node>, ts: seq<NodeType>): Dict<nat>
    decreases |ts|
  {
    if ts == [] then []
    else
      var d := TypeCounts(nodes, ts[..|ts| - 1]);
      var t := ts[|ts| - 1];
      if CountOf(nodes, t) > 0 then d + [(TypeValue(t), CountOf(nodes, t))] else d
  }

  lemma TypeCountsSnoc(nodes: seq<Node>, ts: seq<NodeType>, k: nat)
    requires k < |ts|
    ensures TypeCounts(nodes, ts[..k + 1])
      == TypeCounts(nodes, ts[..k]) + (if CountOf(nodes, ts[k]) > 0 then [(TypeValue(ts[k]), CountOf(nodes, ts[k]))] else [])
  {
    assert ts[..k + 1][..k] == ts[..k];
  }

  lemma TypeValueInjective(a: NodeType, b: NodeType)
    requires TypeValue(a) == TypeValue(b)
    ensures a == b
  {
    ParseTypeValue(a);
    ParseTypeValue(b);
  }

  /** Every entry of the counts is the positive count of one of the types looked at. */
  lemma {:induction false} TypeCountsEntries(nodes: seq<Node>, ts: seq<NodeType>)
    ensures forall i :: 0 <= i < |TypeCounts(nodes, ts)| ==>
      exists k :: 0 <= k < |ts| && TypeCounts(nodes, ts)[i] == (TypeValue(ts[k]), CountOf(nodes, ts[k])) && CountOf(nodes, ts[k]) > 0
    decreases |ts|
  {
    if ts != [] {
      var n := |ts| - 1;
      var d := TypeCounts(nodes, ts[..n]);
      TypeCountsEntries(nodes, ts[..n]);
      forall i | 0 <= i < |TypeCounts(nodes, ts)|
        ensures exists k :: 0 <= k < |ts| && TypeCounts(nodes, ts)[i] == (TypeValue(ts[k]), CountOf(nodes, ts[k])) && CountOf(nodes, ts[k]) > 0
      {
        if i < |d| {
          var k :| 0 <= k < n && d[i] == (TypeValue(ts[..n][k]), CountOf(nodes, ts[..n][k])) && CountOf(nodes, ts[..n][k]) > 0;
          assert ts[..n][k] == ts[k];
        } else {
          assert TypeCounts(nodes, ts)[i] == (TypeValue(ts[n]), CountOf(nodes, ts[n]));
        }
      }
      assert forall i :: 0 <= i < |TypeCounts(nodes, ts)| ==>
        exists k :: 0 <= k < |ts| && TypeCounts(nodes, ts)[i] == (TypeValue(ts[k]), CountOf(nodes, ts[k])) && CountOf(nodes, ts[k]) > 0;
    } else {
      assert TypeCounts(nodes, ts) == [];
    }
  }

  /** Appending a new key keeps keys distinct and changes the lookup of that key only. */
  lemma AppendNewKey<V>(d: Dict<V>, k: string, v: V, k': string)
    requires Distinct(d) && !HasKey(d, k)
    ensures Distinct(d + [(k, v)])
    ensures Get(d + [(k, v)], k') == if k' == k then Some(v) else Get(d, k')
  {
    PutGet(d, k, v);
  }

  lemma InSnoc(ts: seq<NodeType>, t: NodeType)
    requires ts != []
    ensures t in ts <==> t in ts[..|ts| - 1] || t == ts[|ts| - 1]
  {
    assert ts == ts[..|ts| - 1] + [ts[|ts| - 1]];
  }

  /** `node_type_counts` holds a type exactly when it has a node, with its count; keys are distinct. */
  lemma {:induction false} TypeCountsSpec(nodes: seq<Node>, ts: seq<NodeType>, t: NodeType)
    requires forall i, j :: 0 <= i < j < |ts| ==> ts[i] != ts[j]
    ensures Distinct(TypeCounts(nodes, ts))
    ensures Get(TypeCounts(nodes, ts), TypeValue(t)) == if t in ts && CountOf(nodes, t) > 0 then Some(CountOf(nodes, t)) else None
    decreases |ts|
  {
    if ts != [] {
      var n := |ts| - 1;
      var d := TypeCounts(nodes, ts[..n]);
      var u := ts[n];
      TypeCountsSpec(nodes, ts[..n], t);
      TypeCountsSpec(nodes, ts[..n], u);
      InSnoc(ts, t);
      InSnoc(ts, u);
      assert u !in ts[..n];
      if CountOf(nodes, u) > 0 {
        assert TypeCounts(nodes, ts) == d + [(TypeValue(u), CountOf(nodes, u))];
        AppendNewKey(d, TypeValue(u), CountOf(nodes, u), TypeValue(t));
        if t != u && TypeValue(t) == TypeValue(u) {
          TypeValueInjective(t, u);
        }
      }
    }
  }

  /** Over every node type: a type is listed exactly when it has nodes, with their number. */
  lemma NodeTypeCounts(nodes: seq<Node>, t: NodeType)
    ensures Distinct(TypeCounts(nodes, AllTypes))
    ensures Get(TypeCounts(nodes, AllTypes), TypeValue(t)) == if CountOf(nodes, t) > 0 then Some(CountOf(nodes, t)) else None
  {
    assert forall i, j :: 0 <= i < j < |AllTypes| ==> AllTypes[i] != AllTypes[j];
    AllTypesComplete(t);
    TypeCountsSpec(nodes, AllTypes, t);
  }

  /** `getattr(comp, 'type', 'unknown')` */
  function CompTypeName(n: Node): string {
    if n.Component? then n.typeName else "unknown"
  }

  /** How many of `comps` are of the component type `t`. */
  function TypeTally(comps: seq<Node>, t: string): nat
    decreases |comps|
  {
    if comps == [] then 0
    else TypeTally(comps[..|comps| - 1], t) + (if CompTypeName(comps[|comps| - 1]) == t then 1 else 0)
  }

  /** `d[t] = d.get(t, 0) + 1` */
  function Bump(d: Dict<nat>, t: string): Dict<nat> {
    Put(d, t, (if Get(d, t).Some? then Get(d, t).value else 0) + 1)
  }

  /** Bumping `u` adds one to its count (from 0 when absent) and changes no other key. */
  lemma BumpGet(d: Dict<nat>, u: string, t: string)
    requires Distinct(d)
    ensures Distinct(Bump(d, u))
    ensures Get(Bump(d, u), t) == if t == u then Some((if Get(d, u).Some? then Get(d, u).value else 0) + 1) else Get(d, t)
  {
    PutGet(d, u, (if Get(d, u).Some? then Get(d, u).value else 0) + 1);
  }

  /** `components_by_type` after the components `comps` were tallied. */
  function Tally(comps: seq<Node>): Dict<nat>
    decreases |comps|
  {
    if comps == [] then [] else Bump(Tally(comps[..|comps| - 1]), CompTypeName(comps[|comps| - 1]))
  }

  lemma TallySnoc(comps: seq<Node>, k: nat)
    requires k < |comps|
    ensures Tally(comps[..k + 1]) == Bump(Tally(comps[..k]), CompTypeName(comps[k]))
  {
    assert comps[..k + 1][..k] == comps[..k];
  }

  /** Each type seen maps to the number of components of that type; unseen types are absent. */
  lemma {:induction false} TallySpec(comps: seq<Node>, t: string)
    ensures Distinct(Tally(comps))
    ensures Get(Tally(comps), t) == if TypeTally(comps, t) > 0 then Some(TypeTally(comps, t)) else None
    decreases |comps|
  {
    if comps != [] {
      var n := |comps| - 1;
      var u := CompTypeName(comps[n]);
      assert Tally(comps) == Bump(Tally(comps[..n]), u);
      assert TypeTally(comps, t) == TypeTally(comps[..n], t) + (if u == t then 1 else 0);
      TallySpec(comps[..n], t);
      TallySpec(comps[..n], u);
      BumpGet(Tally(comps[..n]), u, t);
    }
  }

  /** What `_get_rule_coverage_stats` reports for one rule; the target list's set order is not modelled. */
  datatype Coverage = Coverage(targetTypes: set<string>, applicableNodeCount: nat)

  function TypeValues(ts: set<NodeType>): set<string> {
    set t | t in ts :: TypeValue(t)
  }

  function CoverageOf(r: RuleInfo, all: seq<Node>): (c: Coverage)
    ensures r.targets == {} ==> c == Coverage({"all"}, |all|)
    ensures r.targets != {} ==> c.targetTypes == TypeValues(r.targets) && c.applicableNodeCount == |FilterByTypes(all, r.targets)|
  {
    if r.targets != {} then Coverage(TypeValues(r.targets), |FilterByTypes(all, r.targets)|)
    else Coverage({"all"}, |all|)
  }

  /** In either case the count is the number of nodes the rule would be handed. */
  lemma {:induction false} CoverageCountsApplicable(r: RuleInfo, all: seq<Node>)
    ensures CoverageOf(r, all).applicableNodeCount == |FilterByTypes(all, r.targets)|
    ensures CoverageOf(r, all).applicableNodeCount <= |all|
  {
    if r.targets == {} {
      FilterAll(all);
    }
  }

  /** `rule_coverage`, keyed by class name. */
  function CoverageTable(rules: seq<RuleInfo>, all: seq<Node>): Dict<Coverage>
    decreases |rules|
  {
    if rules == [] then []
    else Put(CoverageTable(rules[..|rules| - 1], all), rules[|rules| - 1].className, CoverageOf(rules[|rules| - 1], all))
  }

  lemma CoverageTableSnoc(rules: seq<RuleInfo>, all: seq<Node>, k: nat)
    requires k < |rules|
    ensures CoverageTable(rules[..k + 1], all) == Put(CoverageTable(rules[..k], all), rules[k].className, CoverageOf(rules[k], all))
  {
    assert rules[..k + 1][..k] == rules[..k];
  }

  /** The names of the model's lists, in order. */
  const ModelKeys: seq<string> := [
    "components", "bindings", "scripts", "event_handlers", "message_handlers", "custom_methods",
    "expression_bindings", "property_bindings", "tag_bindings", "script_transforms", "properties"]

  datatype Statistics = Statistics(
    totalNodes: nat,
    nodeTypeCounts: Dict<nat>,
    componentsByType: Dict<nat>,
    ruleCoverage: Dict<Coverage>,
    modelKeys: seq<string>)

  // ---------------------------------------------------------------------
  // Summaries.

  /** `_get_node_summary` */
  function NodeSummary(n: Node): (r: string)
    ensures n.ExpressionBinding? ==> r == "Expression: " + Truncate(n.expression, 50)
    ensures IsScript(n) ==> r == "Script: " + Truncate(n.script, 30)
  {
    match n
    case Component(_, name, _) => "Component '" + name + "' of type '" + CompTypeName(n) + "'"
    case ExpressionBinding(_, e) => "Expression: " + Truncate(e, 50)
    case TagBinding(_, tagPath, _, _) => "Tag path: " + tagPath
    case PropertyBinding(_, targetPath) => "Property path: " + targetPath
    case MessageHandler(_, script, _, _) => "Script: " + Truncate(script, 30)
    case CustomMethod(_, _, script, _) => "Script: " + Truncate(script, 30)
    case Transform(_, script, _) => "Script: " + Truncate(script, 30)
    case EventHandler(_, _, _, script, _) => "Script: " + Truncate(script, 30)
    case _ => TypeValue(TypeOf(n)) + " node"
  }

  /** What `analyze_rule_impact` reports for one rule. */
  datatype Impact = Impact(targetTypes: set<string>, applicableNodes: nat, samplePaths: seq<string>,
                           nodeDetails: seq<(string, string, string)>)

  function Paths(nodes: seq<Node>): (r: seq<string>)
    ensures |r| == |nodes| && forall i :: 0 <= i < |nodes| ==> r[i] == nodes[i].path
  {
    seq(|nodes|, i requires 0 <= i < |nodes| => nodes[i].path)
  }

  function Details(nodes: seq<Node>): (r: seq<(string, string, string)>)
    ensures |r| == |nodes|
    ensures forall i :: 0 <= i < |nodes| ==> r[i] == (nodes[i].path, TypeValue(TypeOf(nodes[i])), NodeSummary(nodes[i]))
  {
    seq(|nodes|, i requires 0 <= i < |nodes| => (nodes[i].path, TypeValue(TypeOf(nodes[i])), NodeSummary(nodes[i])))
  }

  function Prefix(nodes: seq<Node>, n: nat): (r: seq<Node>)
    ensures |r| == if |nodes| < n then |nodes| else n
    ensures r == nodes[..|r|]
  {
    if |nodes| <= n then nodes else nodes[..n]
  }

  function ImpactOf(r: RuleInfo, all: seq<Node>): (i: Impact)
    ensures r.targets == {} ==> i.targetTypes == {"all"} && i.applicableNodes == |all| && i.nodeDetails == []
    ensures |i.samplePaths| <= 5 && |i.nodeDetails| <= 3
    ensures var a := FilterByTypes(all, r.targets);
      r.targets != {} ==> (i.targetTypes == TypeValues(r.targets) && i.applicableNodes == |a|
        && i.samplePaths == Paths(Prefix(a, 5)) && i.nodeDetails == Details(Prefix(a, 3)))
    ensures r.targets == {} ==> i.samplePaths == Paths(Prefix(all, 5))
  {
    if r.targets != {} then
      var a := FilterByTypes(all, r.targets);
      Impact(TypeValues(r.targets), |a|, Paths(Prefix(a, 5)), Details(Prefix(a, 3)))
    else Impact({"all"}, |all|, Paths(Prefix(all, 5)), [])
  }

  /** The sample paths are the paths of the first nodes the rule applies to, in model order. */
  lemma {:induction false} SamplesApply(r: RuleInfo, all: seq<Node>, k: nat)
    requires k < |ImpactOf(r, all).samplePaths|
    ensures exists x :: x in all && AppliesToRule(x, r.targets) && x.path == ImpactOf(r, all).samplePaths[k]
  {
    var a := FilterByTypes(all, r.targets);
    FilterByTypesMembers(all, r.targets);
    if r.targets == {} {
      assert all[k] in all && AppliesToRule(all[k], r.targets);
    } else {
      assert a[k] in a;
    }
  }

  function ImpactTable(rules: seq<RuleInfo>, all: seq<Node>): Dict<Impact>
    decreases |rules|
  {
    if rules == [] then []
    else Put(ImpactTable(rules[..|rules| - 1], all), rules[|rules| - 1].className, ImpactOf(rules[|rules| - 1], all))
  }

  lemma ImpactTableSnoc(rules: seq<RuleInfo>, all: seq<Node>, k: nat)
    requires k < |rules|
    ensures ImpactTable(rules[..k + 1], all) == Put(ImpactTable(rules[..k], all), rules[k].className, ImpactOf(rules[k], all))
  {
    assert rules[..k + 1][..k] == rules[..k];
  }

  // ---------------------------------------------------------------------
  // debug_nodes.

  /** The types named in `names`; unknown names are skipped (after a printed warning). */
  function ParsedTypes(names: seq<string>): (ts: set<NodeType>)
    decreases |names|
  {
    if names == [] then {}
    else
      var p := ParseNodeType(names[|names| - 1]);
      ParsedTypes(names[..|names| - 1]) + (if p.Some? then {p.value} else {})
  }

  lemma ParsedTypesSnoc(names: seq<string>, k: nat)
    requires k < |names|
    ensures ParsedTypes(names[..k + 1]) == ParsedTypes(names[..k]) + (if ParseNodeType(names[k]).Some? then {ParseNodeType(names[k]).value} else {})
  {
    assert names[..k + 1][..k] == names[..k];
  }

  /** A type is kept exactly when one of the names is its value. */
  lemma {:induction false} ParsedTypesSpec(names: seq<string>, t: NodeType)
    ensures t in ParsedTypes(names) <==> TypeValue(t) in names
    decreases |names|
  {
    if names != [] {
      var n := |names| - 1;
      ParsedTypesSpec(names[..n], t);
      assert names == names[..n] + [names[n]];
      ParseTypeValue(t);
      var p := ParseNodeType(names[n]);
      if p.Some? && p.value == t {
        assert TypeValue(t) == names[n];
      }
      if TypeValue(t) == names[n] {
        assert p == Some(t);
      }
    }
  }

  /** The nodes `debug_nodes` serializes (serialization is not modelled). */
  function DebugSelection(all: seq<Node>, nodeTypes: seq<string>): (r: seq<Node>)
  {
    if nodeTypes != [] && ParsedTypes(nodeTypes) != {} then FilterByTypes(all, ParsedTypes(nodeTypes)) else all
  }

  /**
   * Without a single valid type name every node is kept; otherwise exactly
   * the nodes of a named type.
   */
  lemma DebugSelectionSpec(all: seq<Node>, nodeTypes: seq<string>)
    ensures (forall t :: TypeValue(t) !in nodeTypes) ==> DebugSelection(all, nodeTypes) == all
    ensures (exists t :: TypeValue(t) in nodeTypes) ==>
      forall x :: x in DebugSelection(all, nodeTypes) <==> x in all && TypeValue(TypeOf(x)) in nodeTypes
  {
    FilterByTypesMembers(all, ParsedTypes(nodeTypes));
    if forall t :: TypeValue(t) !in nodeTypes {
      if ParsedTypes(nodeTypes) != {} {
        var t :| t in ParsedTypes(nodeTypes);
        ParsedTypesSpec(nodeTypes, t);
      }
    } else {
      var t :| TypeValue(t) in nodeTypes;
      ParsedTypesSpec(nodeTypes, t);
      forall x ensures x in DebugSelection(all, nodeTypes) <==> x in all && TypeValue(TypeOf(x)) in nodeTypes {
        ParsedTypesSpec(nodeTypes, TypeOf(x));
      }
    }
  }

  // ---------------------------------------------------------------------
  // The engine.

  class LintEngine {
    const rules: seq<RuleInfo>
    const modelBuilder: ViewModelBuilder
    var flattenedJson: seq<FlatMaps.Entry>
    var viewModel: ViewModel

    constructor(rules: seq<RuleInfo>)
      ensures this.rules == rules && fresh(modelBuilder)
      ensures flattenedJson == [] && viewModel == EmptyModel
    {
      this.rules := rules;
      modelBuilder := new ViewModelBuilder();
      flattenedJson := [];
      viewModel := EmptyModel;
    }

    /** Set the flattened view and rebuild the model from it. */
    method Rebuild(flat: seq<FlatMaps.Entry>)
      modifies this, modelBuilder
      ensures flattenedJson == flat && viewModel == ModelOf(flat)
    {
      var m := Build(flat);
      flattenedJson := flat;
      SetModel(m);
    }

    method SetModel(m: ViewModel)
      modifies this
      ensures viewModel == m && flattenedJson == old(flattenedJson)
    {
      viewModel := m;
    }

    /** `_get_view_model` */
    method Build(flat: seq<FlatMaps.Entry>) returns (m: ViewModel)
      modifies modelBuilder
      ensures m == ModelOf(flat)
    {
      m := modelBuilder.BuildModel(flat);
    }

    /** `process`: the errors of every rule that reported some, by error key, or the first rule's exception. */
    method Process(flat: seq<FlatMaps.Entry>) returns (errors: Result<Dict<seq<string>>>)
      modifies this, modelBuilder
      ensures flattenedJson == flat && viewModel == ModelOf(flat)
      ensures errors == ErrorsOf(rules, AllNodes(ModelOf(flat)))
    {
      Rebuild(flat);
      var all := GatherNodes(viewModel);
      errors := CollectErrors(all);
    }

    method CollectErrors(all: seq<Node>) returns (errors: Result<Dict<seq<string>>>)
      ensures errors == ErrorsOf(rules, all)
    {
      var found: Dict<seq<string>> := [];
      var k := 0;
      while k < |rules|
        invariant 0 <= k <= |rules|
        invariant ErrorsOf(rules[..k], all) == Ok(found)
      {
        ErrorsOfSnoc(rules, all, k);
        var ruleErrors := rules[k].errorsFor(all);
        if ruleErrors.Err? {
          ErrorsOfStopsAt(rules, all, k + 1);
          return Err(ruleErrors.error);
        }
        if ruleErrors.value != [] {
          found := Put(found, rules[k].errorKey, ruleErrors.value);
        }
        k := k + 1;
      }
      assert rules[..k] == rules;
      errors := Ok(found);
    }

    method CountTypes(all: seq<Node>) returns (counts: Dict<nat>)
      ensures counts == TypeCounts(all, AllTypes)
    {
      counts := [];
      var k := 0;
      while k < |AllTypes|
        invariant 0 <= k <= |AllTypes|
        invariant counts == TypeCounts(all, AllTypes[..k])
      {
        TypeCountsSnoc(all, AllTypes, k);
        var count := |FilterByTypes(all, {AllTypes[k]})|;
        if count > 0 {
          counts := counts + [(TypeValue(AllTypes[k]), count)];
        }
        k := k + 1;
      }
      assert AllTypes[..k] == AllTypes;
    }

    method TallyComponents(all: seq<Node>) returns (tally: Dict<nat>)
      ensures tally == Tally(FilterByTypes(all, {ComponentType}))
    {
      var comps := FilterByTypes(all, {ComponentType});
      tally := [];
      var k := 0;
      while k < |comps|
        invariant 0 <= k <= |comps|
        invariant tally == Tally(comps[..k])
      {
        TallySnoc(comps, k);
        var t := CompTypeName(comps[k]);
        tally := Bump(tally, t);
        k := k + 1;
      }
      assert comps[..k] == comps;
    }

    method RuleCoverage(all: seq<Node>) returns (coverage: Dict<Coverage>)
      ensures coverage == CoverageTable(rules, all)
    {
      coverage := [];
      var k := 0;
      while k < |rules|
        invariant 0 <= k <= |rules|
        invariant coverage == CoverageTable(rules[..k], all)
      {
        CoverageTableSnoc(rules, all, k);
        var r := rules[k];
        if r.targets != {} {
          var applicable := FilterByTypes(all, r.targets);
          coverage := Put(coverage, r.className, Coverage(TypeValues(r.targets), |applicable|));
        } else {
          coverage := Put(coverage, r.className, Coverage({"all"}, |all|));
        }
        k := k + 1;
      }
      assert rules[..k] == rules;
    }

    /** `get_model_statistics` */
    method GetModelStatistics(flat: seq<FlatMaps.Entry>) returns (stats: Statistics)
      modifies this, modelBuilder
      ensures flattenedJson == flat && viewModel == ModelOf(flat)
      ensures var all := AllNodes(ModelOf(flat));
        stats == Statistics(|all|, TypeCounts(all, AllTypes), Tally(FilterByTypes(all, {ComponentType})),
                            CoverageTable(rules, all), ModelKeys)
    {
      Rebuild(flat);
      var all := GatherNodes(viewModel);
      var counts := CountTypes(all);
      var tally := TallyComponents(all);
      var coverage := RuleCoverage(all);
      stats := Statistics(|all|, counts, tally, coverage, ModelKeys);
    }

    /** `debug_nodes` */
    method DebugNodes(flat: seq<FlatMaps.Entry>, nodeTypes: seq<string>) returns (selected: seq<Node>)
      modifies this, modelBuilder
      ensures flattenedJson == flat && viewModel == ModelOf(flat)
      ensures selected == DebugSelection(AllNodes(ModelOf(flat)), nodeTypes)
    {
      Rebuild(flat);
      var all := GatherNodes(viewModel);
      selected := all;
      if nodeTypes != [] {
        var targetTypes := ParseNames(nodeTypes);
        if targetTypes != {} {
          selected := FilterByTypes(all, targetTypes);
        }
      }
    }

    method ParseNames(names: seq<string>) returns (targetTypes: set<NodeType>)
      ensures targetTypes == ParsedTypes(names)
    {
      targetTypes := {};
      var k := 0;
      while k < |names|
        invariant 0 <= k <= |names|
        invariant targetTypes == ParsedTypes(names[..k])
      {
        ParsedTypesSnoc(names, k);
        var p := ParseNodeType(names[k]);
        if p.Some? {
          targetTypes := targetTypes + {p.value};
        }
        k := k + 1;
      }
      assert names[..k] == names;
    }

    /** `analyze_rule_impact` */
    method AnalyzeRuleImpact(flat: seq<FlatMaps.Entry>) returns (analysis: Dict<Impact>)
      modifies this, modelBuilder
      ensures flattenedJson == flat && viewModel == ModelOf(flat)
      ensures analysis == ImpactTable(rules, AllNodes(ModelOf(flat)))
    {
      Rebuild(flat);
      var all := GatherNodes(viewModel);
      analysis := ImpactLoop(all);
    }

    method ImpactLoop(all: seq<Node>) returns (analysis: Dict<Impact>)
      ensures analysis == ImpactTable(rules, all)
    {
      analysis := [];
      var k := 0;
      while k < |rules|
        invariant 0 <= k <= |rules|
        invariant analysis == ImpactTable(rules[..k], all)
      {
        ImpactTableSnoc(rules, all, k);
        var r := rules[k];
        if r.targets != {} {
          var applicable := FilterByTypes(all, r.targets);
          analysis := Put(analysis, r.className,
            Impact(TypeValues(r.targets), |applicable|, Paths(Prefix(applicable, 5)), Details(Prefix(applicable, 3))));
        } else {
          analysis := Put(analysis, r.className, Impact({"all"}, |all|, Paths(Prefix(all, 5)), []));
        }
        k := k + 1;
      }
      assert rules[..k] == rules;
    }
  }
}
