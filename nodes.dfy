/**
 * The view model's nodes (src/ignition_lint/model/node_types.py): one
 * closed enum of kinds and one record per kind.
 */
module Nodes {
  import opened Wrappers
  import opened PyStr
  import opened JsonValue

  datatype NodeType =
    | ComponentType
    | ExpressionBindingType
    | ExpressionStructBindingType
    | PropertyBindingType
    | TagBindingType
    | QueryBindingType
    | MessageHandlerType
    | CustomMethodType
    | TransformType
    | EventHandlerType
    | PropertyType

  /** The enum's `.value`. */
  function TypeValue(t: NodeType): string {
    match t
    case ComponentType => "component"
    case ExpressionBindingType => "expression_binding"
    case ExpressionStructBindingType => "expression_struct_binding"
    case PropertyBindingType => "property_binding"
    case TagBindingType => "tag_binding"
    case QueryBindingType => "query_binding"
    case MessageHandlerType => "message_handler"
    case CustomMethodType => "custom_method"
    case TransformType => "transform"
    case EventHandlerType => "event_handler"
    case PropertyType => "property"
  }

  /** `for node_type in NodeType`: declaration order. */
  const AllTypes: seq<NodeType> := [
    ComponentType, ExpressionBindingType, ExpressionStructBindingType, PropertyBindingType,
    TagBindingType, QueryBindingType, MessageHandlerType, CustomMethodType, TransformType,
    EventHandlerType, PropertyType]

  /** `NodeType(s)`: the member whose value is `s`, or the `ValueError` case. */
  function ParseNodeType(s: string): (r: Option<NodeType>)
    ensures r.Some? ==> TypeValue(r.value) == s
  {
    if s == "component" then Some(ComponentType)
    else if s == "expression_binding" then Some(ExpressionBindingType)
    else if s == "expression_struct_binding" then Some(ExpressionStructBindingType)
    else if s == "property_binding" then Some(PropertyBindingType)
    else if s == "tag_binding" then Some(TagBindingType)
    else if s == "query_binding" then Some(QueryBindingType)
    else if s == "message_handler" then Some(MessageHandlerType)
    else if s == "custom_method" then Some(CustomMethodType)
    else if s == "transform" then Some(TransformType)
    else if s == "event_handler" then Some(EventHandlerType)
    else if s == "property" then Some(PropertyType)
    else None
  }

  /** Every member is found again from its value, so values are distinct. */
  lemma ParseTypeValue(t: NodeType)
    ensures ParseNodeType(TypeValue(t)) == Some(t)
  {
  }

  lemma AllTypesComplete(t: NodeType)
    ensures t in AllTypes
  {
  }

  const AllBindings: set<NodeType> := {
    ExpressionBindingType, ExpressionStructBindingType, PropertyBindingType, TagBindingType, QueryBindingType}

  const AllScripts: set<NodeType> := {MessageHandlerType, CustomMethodType, TransformType, EventHandlerType}

  /** The two groups are disjoint and hold neither components nor properties. */
  lemma GroupsDisjoint()
    ensures AllBindings * AllScripts == {}
    ensures |AllBindings| == 5 && |AllScripts| == 4
    ensures ComponentType !in AllBindings + AllScripts && PropertyType !in AllBindings + AllScripts
  {
  }

  // ---------------------------------------------------------------------
  // Nodes. A node's `config` is always the empty dict: no caller passes one.

  /** The scope flags of a message handler, as stored in the view. */
  datatype MessageScope = MessageScope(page: Json, session: Json, view: Json)

  datatype Node =
    | Component(path: string, name: string, typeName: string)
    | ExpressionBinding(path: string, expression: string)
    | ExpressionStructBinding(path: string, struct: seq<(string, string)>)
    | PropertyBinding(path: string, targetPath: string)
    | TagBinding(path: string, tagPath: string, mode: string, references: seq<(string, string)>)
    | QueryBinding(path: string, queryPath: string, parameters: seq<(string, string)>)
    | MessageHandler(path: string, script: string, messageType: string, scope: MessageScope)
    | CustomMethod(path: string, name: string, script: string, params: seq<string>)
    | Transform(path: string, script: string, bindingPath: string)
    | EventHandler(path: string, domain: string, eventType: string, script: string, handlerScope: Json)
    | Property(path: string, name: string, value: Json, persistent: Option<bool>, privateAccess: Option<bool>)

  function TypeOf(n: Node): NodeType {
    match n
    case Component(_, _, _) => ComponentType
    case ExpressionBinding(_, _) => ExpressionBindingType
    case ExpressionStructBinding(_, _) => ExpressionStructBindingType
    case PropertyBinding(_, _) => PropertyBindingType
    case TagBinding(_, _, _, _) => TagBindingType
    case QueryBinding(_, _, _) => QueryBindingType
    case MessageHandler(_, _, _, _) => MessageHandlerType
    case CustomMethod(_, _, _, _) => CustomMethodType
    case Transform(_, _, _) => TransformType
    case EventHandler(_, _, _, _, _) => EventHandlerType
    case Property(_, _, _, _, _) => PropertyType
  }

  /** `isinstance(node, ScriptNode)` */
  predicate IsScript(n: Node) {
    n.MessageHandler? || n.CustomMethod? || n.Transform? || n.EventHandler?
  }

  lemma ScriptKinds(n: Node)
    ensures IsScript(n) <==> TypeOf(n) in AllScripts
    ensures TypeOf(n) in AllBindings <==> (n.ExpressionBinding? || n.ExpressionStructBinding? || n.PropertyBinding? || n.TagBinding? || n.QueryBinding?)
  {
  }

  /** `ViewNode.applies_to_rule`: an empty target set means every node. */
  predicate AppliesToRule(n: Node, targets: set<NodeType>) {
    targets == {} || TypeOf(n) in targets
  }

  /** Which method `accept` calls. */
  datatype Dispatch = Specific(methodName: string) | Generic

  function VisitMethodName(t: NodeType): string {
    "visit_" + TypeValue(t)
  }

  /** Distinct node types have distinct visit methods. */
  lemma VisitMethodNameInjective(t: NodeType, u: NodeType)
    ensures VisitMethodName(t) == VisitMethodName(u) <==> t == u
  {
    if VisitMethodName(t) == VisitMethodName(u) {
      assert VisitMethodName(t)[6..] == TypeValue(t);
      assert VisitMethodName(u)[6..] == TypeValue(u);
      ParseTypeValue(t);
      ParseTypeValue(u);
    }
  }

  /** The visit method names, spelled out. */
  lemma NamesOfBindings()
    ensures VisitMethodName(ExpressionBindingType) == "visit_expression_binding"
    ensures VisitMethodName(ExpressionStructBindingType) == "visit_expression_struct_binding"
    ensures VisitMethodName(PropertyBindingType) == "visit_property_binding"
  {
    assert TypeValue(ExpressionBindingType) == "expression_binding";
    assert TypeValue(ExpressionStructBindingType) == "expression_struct_binding";
    assert TypeValue(PropertyBindingType) == "property_binding";
  }

  lemma NamesOfOtherBindings()
    ensures VisitMethodName(TagBindingType) == "visit_tag_binding"
    ensures VisitMethodName(QueryBindingType) == "visit_query_binding"
    ensures VisitMethodName(ComponentType) == "visit_component"
    ensures VisitMethodName(PropertyType) == "visit_property"
  {
  }

  lemma NamesOfScripts()
    ensures VisitMethodName(MessageHandlerType) == "visit_message_handler"
    ensures VisitMethodName(CustomMethodType) == "visit_custom_method"
    ensures VisitMethodName(TransformType) == "visit_transform"
    ensures VisitMethodName(EventHandlerType) == "visit_event_handler"
  {
    assert TypeValue(MessageHandlerType) == "message_handler";
    assert TypeValue(CustomMethodType) == "custom_method";
  }

  /**
   * `ViewNode.accept`: `visit_<value>` when the visitor defines it (given
   * as the set of its method names), otherwise `visit_generic`.
   */
  function Accept(n: Node, visitorMethods: set<string>): (d: Dispatch)
    ensures d.Specific? <==> VisitMethodName(TypeOf(n)) in visitorMethods
    ensures d.Specific? ==> d.methodName == VisitMethodName(TypeOf(n))
  {
    var m := VisitMethodName(TypeOf(n));
    if m in visitorMethods then Specific(m) else Generic
  }

  // ---------------------------------------------------------------------
  // Scripts.

  /** The function header each script kind is wrapped in. */
  function FunctionDef(n: Node): (r: string)
    requires IsScript(n)
    ensures n.MessageHandler? ==> r == "def onMessageReceived(self, payload):"
    ensures n.Transform? ==> r == "def transform(self, value):"
    ensures n.EventHandler? ==> r == "def " + n.eventType + "(self, event):"
    ensures n.CustomMethod? ==> r == "def " + n.name + "(" + Join(", ", ["self"] + n.params) + "):"
  {
    match n
    case MessageHandler(_, _, _, _) => "def onMessageReceived(self, payload):"
    case CustomMethod(_, name, _, params) => "def " + name + "(" + Join(", ", ["self"] + params) + "):"
    case Transform(_, _, _) => "def transform(self, value):"
    case EventHandler(_, _, eventType, _, _) => "def " + eventType + "(self, event):"
  }

  /**
   * `get_formatted_script`: a script that is blank after `strip()` is first
   * overwritten with `"\tpass"`; the result is the header, a newline and
   * the script. The overwrite is returned as the updated node.
   */
  function FormatScript(n: Node): (r: (Node, string))
    requires IsScript(n)
    ensures IsScript(r.0) && TypeOf(r.0) == TypeOf(n) && r.0.path == n.path
    ensures FunctionDef(r.0) == FunctionDef(n)
    ensures IsBlank(n.script) ==> r.0.script == "\tpass"
    ensures !IsBlank(n.script) ==> r.0 == n
    ensures r.1 == FunctionDef(n) + "\n" + r.0.script
  {
    var m := if IsBlank(n.script) then n.(script := "\tpass") else n;
    (m, FunctionDef(m) + "\n" + m.script)
  }

  /** Formatting twice changes nothing more. */
  lemma FormatScriptIdempotent(n: Node)
    requires IsScript(n)
    ensures FormatScript(FormatScript(n).0) == FormatScript(n)
  {
    if IsBlank(n.script) {
      assert "\tpass"[1] == 'p';
      assert !IsBlank("\tpass");
    }
  }

  /** `s[:n] + '...' if len(s) > n else s` */
  function Truncate(s: string, n: nat): (r: string)
    ensures |s| <= n ==> r == s
    ensures |s| > n ==> |r| == n + 3 && StartsWith(r, s[..n]) && EndsWith(r, "...")
    ensures StartsWith(s, r) || StartsWith(r, Take(s, n))
  {
    if |s| > n then s[..n] + "..." else s
  }

  /** The `script_preview` of `serialize`. */
  function ScriptPreview(n: Node): string
    requires IsScript(n)
  {
    Truncate(n.script, 100)
  }

  // ---------------------------------------------------------------------
  // Expressions held by bindings.

  function Values(m: seq<(string, string)>): (r: seq<string>)
    ensures |r| == |m| && forall i :: 0 <= i < |m| ==> r[i] == m[i].1
  {
    seq(|m|, i requires 0 <= i < |m| => m[i].1)
  }

  function KeysOf(m: seq<(string, string)>): (r: seq<string>)
    ensures |r| == |m| && forall i :: 0 <= i < |m| ==> r[i] == m[i].0
  {
    seq(|m|, i requires 0 <= i < |m| => m[i].0)
  }

  /** `TagBinding.get_expressions` */
  function TagExpressions(n: Node): (r: seq<string>)
    requires n.TagBinding?
    ensures n.mode == "expression" ==> r == [n.tagPath]
    ensures n.mode == "indirect" ==> r == Values(n.references)
    ensures n.mode != "expression" && n.mode != "indirect" ==> r == []
  {
    if n.mode == "expression" then [n.tagPath]
    else if n.mode == "indirect" then Values(n.references)
    else []
  }

  /** `TagBinding.get_reference_expressions`: a copy in indirect mode only. */
  function TagReferenceExpressions(n: Node): (r: seq<(string, string)>)
    requires n.TagBinding?
    ensures n.mode == "indirect" ==> r == n.references
    ensures n.mode != "indirect" ==> r == []
  {
    if n.mode == "indirect" then n.references else []
  }

  /** In indirect mode the expressions are the reference values, in order. */
  lemma IndirectExpressions(n: Node)
    requires n.TagBinding? && n.mode == "indirect"
    ensures TagExpressions(n) == Values(TagReferenceExpressions(n))
    ensures |TagExpressions(n)| == |n.references|
  {
  }

  // ---------------------------------------------------------------------
  // NodeUtils.

  /** `filter_by_types` */
  function FilterByTypes(nodes: seq<Node>, types: set<NodeType>): (r: seq<Node>)
    ensures |r| <= |nodes|
  {
    if nodes == [] then []
    else if AppliesToRule(nodes[0], types) then [nodes[0]] + FilterByTypes(nodes[1..], types)
    else FilterByTypes(nodes[1..], types)
  }

  /** The filter keeps exactly the nodes the rule applies to. */
  lemma {:induction false} FilterByTypesMembers(nodes: seq<Node>, types: set<NodeType>)
    ensures forall x :: x in FilterByTypes(nodes, types) <==> x in nodes && AppliesToRule(x, types)
  {
    if nodes != [] {
      FilterByTypesMembers(nodes[1..], types);
      assert nodes == [nodes[0]] + nodes[1..];
    }
  }

  /** Filtering keeps the order: it distributes over concatenation. */
  lemma {:induction false} FilterAppend(a: seq<Node>, b: seq<Node>, types: set<NodeType>)
    ensures FilterByTypes(a + b, types) == FilterByTypes(a, types) + FilterByTypes(b, types)
  {
    if a == [] {
      assert a + b == b;
    } else {
      assert (a + b)[0] == a[0];
      assert (a + b)[1..] == a[1..] + b;
      FilterAppend(a[1..], b, types);
      if AppliesToRule(a[0], types) {
        assert FilterByTypes(a + b, types) == [a[0]] + FilterByTypes(a[1..] + b, types);
        assert FilterByTypes(a, types) == [a[0]] + FilterByTypes(a[1..], types);
      } else {
        assert FilterByTypes(a + b, types) == FilterByTypes(a[1..] + b, types);
        assert FilterByTypes(a, types) == FilterByTypes(a[1..], types);
      }
    }
  }

  /** With no target types every node is kept. */
  lemma {:induction false} FilterAll(nodes: seq<Node>)
    ensures FilterByTypes(nodes, {}) == nodes
  {
    if nodes != [] {
      FilterAll(nodes[1..]);
    }
  }

  /** `get_script_nodes` */
  function ScriptNodes(nodes: seq<Node>): seq<Node> {
    if nodes == [] then []
    else if IsScript(nodes[0]) then [nodes[0]] + ScriptNodes(nodes[1..])
    else ScriptNodes(nodes[1..])
  }

  /** `isinstance(node, ScriptNode)` picks out exactly the four script kinds. */
  lemma {:induction false} ScriptNodesAreScriptTypes(nodes: seq<Node>)
    ensures ScriptNodes(nodes) == FilterByTypes(nodes, AllScripts)
  {
    if nodes != [] {
      ScriptKinds(nodes[0]);
      ScriptNodesAreScriptTypes(nodes[1..]);
    }
  }

  /** `get_binding_nodes` */
  function BindingNodes(nodes: seq<Node>): seq<Node> {
    FilterByTypes(nodes, AllBindings)
  }

  /** Some node of `nodes` has type `t`. */
  predicate HasType(nodes: seq<Node>, t: NodeType) {
    exists i :: 0 <= i < |nodes| && TypeOf(nodes[i]) == t
  }

  lemma FilterSnoc(xs: seq<Node>, n: Node, u: NodeType)
    ensures FilterByTypes(xs + [n], {u}) == FilterByTypes(xs, {u}) + (if TypeOf(n) == u then [n] else [])
  {
    FilterAppend(xs, [n], {u});
  }

  lemma {:induction false} FilterAbsent(xs: seq<Node>, u: NodeType)
    ensures !HasType(xs, u) ==> FilterByTypes(xs, {u}) == []
  {
    if xs != [] {
      FilterAbsent(xs[1..], u);
      assert HasType(xs[1..], u) ==> HasType(xs, u) by {
        if HasType(xs[1..], u) {
          var k :| 0 <= k < |xs| - 1 && TypeOf(xs[1..][k]) == u;
          assert xs[k + 1] == xs[1..][k];
        }
      }
      assert TypeOf(xs[0]) == u ==> HasType(xs, u);
    }
  }

  lemma HasTypeSnoc(xs: seq<Node>, n: Node, u: NodeType)
    ensures HasType(xs + [n], u) <==> HasType(xs, u) || TypeOf(n) == u
  {
    if HasType(xs + [n], u) {
      var k :| 0 <= k < |xs| + 1 && TypeOf((xs + [n])[k]) == u;
      if k < |xs| {
        assert xs[k] == (xs + [n])[k];
      }
    }
    if HasType(xs, u) {
      var k :| 0 <= k < |xs| && TypeOf(xs[k]) == u;
      assert (xs + [n])[k] == xs[k];
    }
    assert (xs + [n])[|xs|] == n;
  }

  /**
   * `group_by_type`: one group per type present, holding that type's
   * nodes in encounter order. Group order is not modelled.
   */
  method GroupByType(nodes: seq<Node>) returns (groups: map<NodeType, seq<Node>>)
    ensures forall t :: t in groups <==> HasType(nodes, t)
    ensures forall t :: t in groups ==> groups[t] == FilterByTypes(nodes, {t})
  {
    groups := map[];
    var i := 0;
    while i < |nodes|
      invariant 0 <= i <= |nodes|
      invariant forall t :: t in groups <==> HasType(nodes[..i], t)
      invariant forall t :: t in groups ==> groups[t] == FilterByTypes(nodes[..i], {t})
    {
      var n := nodes[i];
      var t := TypeOf(n);
      ghost var xs := nodes[..i];
      assert nodes[..i + 1] == xs + [n];
      forall u
        ensures FilterByTypes(xs + [n], {u}) == FilterByTypes(xs, {u}) + (if t == u then [n] else [])
        ensures HasType(xs + [n], u) <==> HasType(xs, u) || t == u
      {
        FilterSnoc(xs, n, u);
        HasTypeSnoc(xs, n, u);
      }
      if t !in groups {
        FilterAbsent(xs, t);
        groups := groups[t := []];
      }
      groups := groups[t := groups[t] + [n]];
      i := i + 1;
    }
    assert nodes[..i] == nodes;
  }
}
