/**
 * rules/common.py: the visitor every rule extends, the rule framework
 * (`process_nodes`: reset, filter, visit in order, post-process once) and
 * `ScriptRule`, which collects scripts by path for one batch check.
 */
module RuleCommon {
  import opened Nodes
  import opened Dicts
  import opened Wrappers

  /** The methods `NodeVisitor` defines, all of them doing nothing. */
  const NodeVisitorMethods: set<string> := {
    "visit_generic", "visit_component", "visit_expression_binding", "visit_property_binding",
    "visit_tag_binding", "visit_message_handler", "visit_custom_method", "visit_transform",
    "visit_event_handler", "visit_property"}

  /**
   * A rule's `accept` falls back to `visit_generic` exactly for the two
   * kinds `NodeVisitor` has no method for.
   */
  lemma GenericOnlyForStructAndQuery(n: Node)
    ensures Accept(n, NodeVisitorMethods).Generic? <==> n.ExpressionStructBinding? || n.QueryBinding?
  {
    NamesOfBindings();
    NamesOfOtherBindings();
    NamesOfScripts();
    NodeVisitorNames();
    match n
    case ExpressionStructBinding(_, _) =>
    case QueryBinding(_, _, _) =>
    case Component(_, _, _) =>
    case ExpressionBinding(_, _) =>
    case PropertyBinding(_, _) =>
    case TagBinding(_, _, _, _) =>
    case MessageHandler(_, _, _, _) =>
    case CustomMethod(_, _, _, _) =>
    case Transform(_, _, _) =>
    case EventHandler(_, _, _, _, _) =>
    case Property(_, _, _, _, _) =>
  }

  /** Which visit method names `NodeVisitor` defines. */
  lemma NodeVisitorNames()
    ensures "visit_expression_struct_binding" !in NodeVisitorMethods
    ensures "visit_query_binding" !in NodeVisitorMethods
    ensures "visit_component" in NodeVisitorMethods && "visit_property" in NodeVisitorMethods
    ensures "visit_expression_binding" in NodeVisitorMethods && "visit_property_binding" in NodeVisitorMethods
    ensures "visit_tag_binding" in NodeVisitorMethods && "visit_message_handler" in NodeVisitorMethods
    ensures "visit_custom_method" in NodeVisitorMethods && "visit_transform" in NodeVisitorMethods
    ensures "visit_event_handler" in NodeVisitorMethods
  {
    var s := "visit_expression_struct_binding";
    assert |s| == 31;
    var q := "visit_query_binding";
    assert |q| == 19 && q[6] == 'q';
  }

  // ---------------------------------------------------------------------
  // The run of one rule over a node list.

  /** The rule state after visiting `nodes` in order, starting from `st`. */
  function Run<S>(visit: (S, Node) -> S, st: S, nodes: seq<Node>): S
    decreases |nodes|
  {
    if nodes == [] then st else visit(Run(visit, st, nodes[..|nodes| - 1]), nodes[|nodes| - 1])
  }

  lemma RunSnoc<S>(visit: (S, Node) -> S, st: S, nodes: seq<Node>, k: nat)
    requires k < |nodes|
    ensures Run(visit, st, nodes[..k + 1]) == visit(Run(visit, st, nodes[..k]), nodes[k])
  {
    assert nodes[..k + 1][..k] == nodes[..k];
  }

  /** Visiting `a + b` is visiting `a`, then `b` from where `a` left off. */
  lemma {:induction false} RunAppend<S>(visit: (S, Node) -> S, st: S, a: seq<Node>, b: seq<Node>)
    ensures Run(visit, st, a + b) == Run(visit, Run(visit, st, a), b)
    decreases |b|
  {
    if b == [] {
      assert a + b == a;
    } else {
      var n := |b| - 1;
      assert (a + b)[..|a + b| - 1] == a + b[..n];
      RunAppend(visit, st, a, b[..n]);
    }
  }

  /** A visit that leaves the state alone leaves it alone over any list. */
  lemma {:induction false} RunIdle<S>(visit: (S, Node) -> S, st: S, nodes: seq<Node>)
    requires forall n :: visit(st, n) == st
    ensures Run(visit, st, nodes) == st
    decreases |nodes|
  {
    if nodes != [] {
      RunIdle(visit, st, nodes[..|nodes| - 1]);
    }
  }

  /** Dropping nodes whose visit leaves any state alone changes nothing. */
  lemma {:induction false} RunFilter<S>(visit: (S, Node) -> S, st: S, nodes: seq<Node>, types: set<NodeType>)
    requires forall s: S, n: Node :: !AppliesToRule(n, types) ==> visit(s, n) == s
    ensures Run(visit, st, FilterByTypes(nodes, types)) == Run(visit, st, nodes)
    decreases |nodes|
  {
    if nodes != [] {
      var n := |nodes| - 1;
      var last := nodes[n];
      assert nodes == nodes[..n] + [last];
      FilterAppend(nodes[..n], [last], types);
      RunFilter(visit, st, nodes[..n], types);
      var kept := FilterByTypes([last], types);
      assert kept == (if AppliesToRule(last, types) then [last] else []);
      RunAppend(visit, st, FilterByTypes(nodes[..n], types), kept);
      assert Run(visit, Run(visit, st, nodes[..n]), [last]) == visit(Run(visit, st, nodes[..n]), last) by {
        assert [last][..0] == [];
      }
    }
  }

  /** The errors and the subclass's own state of a rule. */
  datatype RuleState<S> = RuleState(errors: seq<string>, data: S)

  /** What `process_nodes` leaves: reset errors, visit the applicable nodes in order, post-process once. */
  function ProcessResult<S>(visit: (RuleState<S>, Node) -> RuleState<S>, post: RuleState<S> -> RuleState<S>,
                            targets: set<NodeType>, data: S, nodes: seq<Node>): RuleState<S>
  {
    post(Run(visit, RuleState([], data), FilterByTypes(nodes, targets)))
  }

  /** With no targets every node is visited. */
  lemma NoTargetsVisitsAll<S>(visit: (RuleState<S>, Node) -> RuleState<S>, post: RuleState<S> -> RuleState<S>,
                              data: S, nodes: seq<Node>)
    ensures ProcessResult(visit, post, {}, data, nodes) == post(Run(visit, RuleState([], data), nodes))
  {
    FilterAll(nodes);
  }

  /** Errors left by an earlier run are gone: the result depends only on the data and the nodes. */
  lemma ProcessForgetsErrors<S>(visit: (RuleState<S>, Node) -> RuleState<S>, post: RuleState<S> -> RuleState<S>,
                                targets: set<NodeType>, data: S, nodes: seq<Node>, errors: seq<string>)
    ensures ProcessResult(visit, post, targets, data, nodes)
      == post(Run(visit, RuleState(errors, data).(errors := []), FilterByTypes(nodes, targets)))
  {
  }

  /** A rule overriding nothing (every `NodeVisitor` method and `post_process` do nothing) reports nothing. */
  lemma {:induction false} IdleRuleReportsNothing<S>(targets: set<NodeType>, data: S, nodes: seq<Node>)
    ensures ProcessResult((st: RuleState<S>, n: Node) => st, (st: RuleState<S>) => st, targets, data, nodes)
      == RuleState([], data)
  {
    RunIdle((st: RuleState<S>, n: Node) => st, RuleState([], data), FilterByTypes(nodes, targets));
  }

  /**
   * `LintingRule`: a rule is its target set, its class name and what its
   * overridden visits and `post_process` do to its state.
   */
  class LintingRule<S> {
    const targets: set<NodeType>
    const className: string
    const visit: (RuleState<S>, Node) -> RuleState<S>
    const post: RuleState<S> -> RuleState<S>
    var errors: seq<string>
    var data: S

    /** `target_node_types or set()`: no set given is the empty set, which means every node. */
    constructor(targets: Option<set<NodeType>>, className: string, visit: (RuleState<S>, Node) -> RuleState<S>,
                post: RuleState<S> -> RuleState<S>, data: S)
      ensures this.targets == (if targets.Some? then targets.value else {})
      ensures this.className == className && this.visit == visit && this.post == post
      ensures errors == [] && this.data == data
    {
      this.targets := if targets.Some? then targets.value else {};
      this.className := className;
      this.visit := visit;
      this.post := post;
      errors := [];
      this.data := data;
    }

    /** `error_key`: the class name. */
    function ErrorKey(): string
      reads this
    {
      className
    }

    predicate AppliesTo(n: Node)
      reads this
    {
      AppliesToRule(n, targets)
    }

    method Accept(n: Node)
      modifies this
      ensures RuleState(errors, data) == visit(old(RuleState(errors, data)), n)
    {
      var st := visit(RuleState(errors, data), n);
      errors := st.errors;
      data := st.data;
    }

    method PostProcess()
      modifies this
      ensures RuleState(errors, data) == post(old(RuleState(errors, data)))
    {
      var st := post(RuleState(errors, data));
      errors := st.errors;
      data := st.data;
    }

    method ProcessNodes(nodes: seq<Node>)
      modifies this
      ensures RuleState(errors, data) == ProcessResult(visit, post, targets, old(data), nodes)
    {
      errors := [];
      var start := RuleState(errors, data);
      var applicable := FilterByTypes(nodes, targets);
      var k := 0;
      while k < |applicable|
        invariant 0 <= k <= |applicable|
        invariant RuleState(errors, data) == Run(visit, start, applicable[..k])
      {
        RunSnoc(visit, start, applicable, k);
        Accept(applicable[k]);
        k := k + 1;
      }
      assert applicable[..k] == applicable;
      PostProcess();
    }
  }

  // ---------------------------------------------------------------------
  // Rules whose visits append errors.

  /** The errors of visits that append `f(n)` for each item of `nodes` (nodes, dict entries), in order. */
  function Appended<T>(f: T -> seq<string>, nodes: seq<T>): seq<string> {
    if nodes == [] then [] else Appended(f, nodes[..|nodes| - 1]) + f(nodes[|nodes| - 1])
  }

  lemma AppendedSnoc<T>(f: T -> seq<string>, nodes: seq<T>, k: nat)
    requires k < |nodes|
    ensures Appended(f, nodes[..k + 1]) == Appended(f, nodes[..k]) + f(nodes[k])
  {
    assert nodes[..k + 1][..k] == nodes[..k];
  }

  lemma {:induction false} AppendedAppend<T>(f: T -> seq<string>, a: seq<T>, b: seq<T>)
    ensures Appended(f, a + b) == Appended(f, a) + Appended(f, b)
    decreases |b|
  {
    if b == [] {
      assert a + b == a;
    } else {
      var n := |b| - 1;
      assert (a + b)[..|a + b| - 1] == a + b[..n];
      AppendedAppend(f, a, b[..n]);
    }
  }

  /** Visits that append nothing leave no errors. */
  lemma {:induction false} AppendedNothing<T>(f: T -> seq<string>, nodes: seq<T>)
    requires forall k :: 0 <= k < |nodes| ==> f(nodes[k]) == []
    ensures Appended(f, nodes) == []
    decreases |nodes|
  {
    if nodes != [] {
      AppendedNothing(f, nodes[..|nodes| - 1]);
    }
  }

  /** An error is appended exactly when some visit appends it. */
  lemma {:induction false} AppendedMembers<T>(f: T -> seq<string>, nodes: seq<T>)
    ensures forall m :: m in Appended(f, nodes) <==> exists k :: 0 <= k < |nodes| && m in f(nodes[k])
    decreases |nodes|
  {
    if nodes != [] {
      var n := |nodes| - 1;
      var init := nodes[..n];
      AppendedMembers(f, init);
      forall m | m in Appended(f, nodes)
        ensures exists k :: 0 <= k < |nodes| && m in f(nodes[k])
      {
        if m in Appended(f, init) {
          var k :| 0 <= k < n && m in f(init[k]);
          assert init[k] == nodes[k];
        } else {
          assert m in f(nodes[n]);
        }
      }
      forall m, k | 0 <= k < |nodes| && m in f(nodes[k])
        ensures m in Appended(f, nodes)
      {
        if k < n {
          assert init[k] == nodes[k];
        }
      }
    }
  }

  /** With at most one error per visit: at most one per node, and each is some node's error. */
  lemma {:induction false} AppendedSpec<T>(f: T -> seq<string>, nodes: seq<T>)
    requires forall n :: |f(n)| <= 1
    ensures |Appended(f, nodes)| <= |nodes|
    ensures forall m :: m in Appended(f, nodes) <==> exists k :: 0 <= k < |nodes| && f(nodes[k]) == [m]
    decreases |nodes|
  {
    if nodes != [] {
      var n := |nodes| - 1;
      var init := nodes[..n];
      AppendedSpec(f, init);
      var e := f(nodes[n]);
      assert |e| <= 1;
      forall m | m in Appended(f, nodes)
        ensures exists k :: 0 <= k < |nodes| && f(nodes[k]) == [m]
      {
        if m in Appended(f, init) {
          var k :| 0 <= k < n && f(init[k]) == [m];
          assert init[k] == nodes[k];
        } else {
          assert e == [m];
        }
      }
      forall m, k | 0 <= k < |nodes| && f(nodes[k]) == [m]
        ensures m in Appended(f, nodes)
      {
        if k < n {
          assert init[k] == nodes[k];
          assert m in Appended(f, init);
        } else {
          assert m in e;
        }
      }
    }
  }

  /** Dropping nodes whose visit appends nothing drops no error. */
  lemma {:induction false} AppendedFilter(f: Node -> seq<string>, nodes: seq<Node>, types: set<NodeType>)
    requires forall n :: !AppliesToRule(n, types) ==> f(n) == []
    ensures Appended(f, FilterByTypes(nodes, types)) == Appended(f, nodes)
    decreases |nodes|
  {
    if nodes != [] {
      var n := |nodes| - 1;
      var last := nodes[n];
      assert nodes == nodes[..n] + [last];
      FilterAppend(nodes[..n], [last], types);
      AppendedFilter(f, nodes[..n], types);
      var kept := FilterByTypes([last], types);
      assert kept == (if AppliesToRule(last, types) then [last] else []);
      AppendedAppend(f, FilterByTypes(nodes[..n], types), kept);
      assert Appended(f, [last]) == f(last) by {
        assert [last][..0] == [];
      }
      assert Appended(f, []) == [];
    }
  }

  // ---------------------------------------------------------------------
  // ScriptRule.

  /** `_collect_script`, reached from the four script visits. */
  function CollectOne(d: Dict<Node>, n: Node): Dict<Node> {
    if IsScript(n) then Put(d, n.path, n) else d
  }

  /** The collection after visiting `nodes`. */
  function Collect(d: Dict<Node>, nodes: seq<Node>): Dict<Node> {
    Run(CollectOne, d, nodes)
  }

  /** Every collected value is a script node. */
  predicate ScriptsOnly(d: Dict<Node>) {
    forall i :: 0 <= i < |d| ==> IsScript(d[i].1)
  }

  /** Collecting only ever stores script nodes. */
  lemma {:induction false} CollectScriptsOnly(d: Dict<Node>, nodes: seq<Node>)
    requires ScriptsOnly(d)
    ensures ScriptsOnly(Collect(d, nodes))
    decreases |nodes|
  {
    if nodes != [] {
      var n := |nodes| - 1;
      CollectScriptsOnly(d, nodes[..n]);
      RunSnoc(CollectOne, d, nodes, n);
      assert nodes[..n + 1] == nodes;
    }
  }

  /** The last script in `nodes` at `path`. */
  function LastScript(nodes: seq<Node>, path: string): (r: Option<Node>)
    decreases |nodes|
  {
    if nodes == [] then None
    else if IsScript(nodes[|nodes| - 1]) && nodes[|nodes| - 1].path == path then Some(nodes[|nodes| - 1])
    else LastScript(nodes[..|nodes| - 1], path)
  }

  /** `LastScript` finds a script at that path, and no later node is one. */
  lemma {:induction false} LastScriptSpec(nodes: seq<Node>, path: string)
    ensures LastScript(nodes, path).None? <==> forall k :: 0 <= k < |nodes| ==> !(IsScript(nodes[k]) && nodes[k].path == path)
    ensures LastScript(nodes, path).Some? ==>
      exists k :: (0 <= k < |nodes| && nodes[k] == LastScript(nodes, path).value
        && IsScript(nodes[k]) && nodes[k].path == path
        && forall j :: k < j < |nodes| ==> !(IsScript(nodes[j]) && nodes[j].path == path))
    decreases |nodes|
  {
    if nodes != [] {
      var n := |nodes| - 1;
      LastScriptSpec(nodes[..n], path);
      assert forall k :: 0 <= k < n ==> nodes[..n][k] == nodes[k];
    }
  }

  /**
   * One script per path: the collection keeps distinct keys, and a path
   * maps to the last script visited there; paths never visited keep what
   * the collection held before.
   */
  lemma {:induction false} CollectLast(d: Dict<Node>, nodes: seq<Node>, path: string)
    requires Distinct(d)
    ensures Distinct(Collect(d, nodes))
    ensures Get(Collect(d, nodes), path) == if LastScript(nodes, path).Some? then LastScript(nodes, path) else Get(d, path)
    decreases |nodes|
  {
    if nodes != [] {
      var n := |nodes| - 1;
      var x := nodes[n];
      var c := Collect(d, nodes[..n]);
      CollectLast(d, nodes[..n], path);
      if IsScript(x) {
        PutGet(c, x.path, x);
      }
    }
  }

  /** The collection is empty only when it started empty and no script was visited. */
  lemma {:induction false} CollectEmpty(d: Dict<Node>, nodes: seq<Node>)
    ensures Collect(d, nodes) == [] <==> d == [] && forall k :: 0 <= k < |nodes| ==> !IsScript(nodes[k])
    decreases |nodes|
  {
    if nodes != [] {
      var n := |nodes| - 1;
      CollectEmpty(d, nodes[..n]);
      assert forall k :: 0 <= k < n ==> nodes[..n][k] == nodes[k];
      var c := Collect(d, nodes[..n]);
      if IsScript(nodes[n]) {
        var r := Put(c, nodes[n].path, nodes[n]);
        if Find(c, nodes[n].path) == -1 {
          assert r[|c|] == (nodes[n].path, nodes[n]);
        } else {
          assert |r| == |c| > 0;
        }
      }
    }
  }

  /** What `post_process` does with a collection: hand a non-empty one to `process_scripts`, then empty it. */
  function PostScripts(processScripts: (seq<string>, Dict<Node>) -> seq<string>, errors: seq<string>,
                       collected: Dict<Node>): RuleState<Dict<Node>>
  {
    if collected != [] then RuleState(processScripts(errors, collected), []) else RuleState(errors, collected)
  }

  /** After `post_process` the collection is always empty, and with nothing collected the errors stay. */
  lemma PostScriptsEmpties(processScripts: (seq<string>, Dict<Node>) -> seq<string>, errors: seq<string>,
                           collected: Dict<Node>)
    ensures PostScripts(processScripts, errors, collected).data == []
    ensures collected == [] ==> PostScripts(processScripts, errors, collected).errors == errors
    ensures collected != [] ==> PostScripts(processScripts, errors, collected).errors == processScripts(errors, collected)
  {
  }

  /**
   * A run with no script among the applicable nodes (and nothing left
   * over from before) never calls `process_scripts` and reports nothing.
   */
  lemma NoScriptsNoErrors(processScripts: (seq<string>, Dict<Node>) -> seq<string>, targets: set<NodeType>, nodes: seq<Node>)
    requires forall k :: 0 <= k < |nodes| ==> !IsScript(nodes[k])
    ensures PostScripts(processScripts, [], Collect([], FilterByTypes(nodes, targets))) == RuleState([], [])
  {
    var a := FilterByTypes(nodes, targets);
    FilterByTypesMembers(nodes, targets);
    assert forall k :: 0 <= k < |a| ==> a[k] in nodes;
    CollectEmpty([], a);
  }

  /** `ScriptRule`: the script visits collect by path; `post_process` runs the batch check. */
  class ScriptRule {
    const targets: set<NodeType>
    const className: string
    /** What the subclass's `process_scripts` makes of the errors, given the collection. */
    const processScripts: (seq<string>, Dict<Node>) -> seq<string>
    var errors: seq<string>
    var collectedScripts: Dict<Node>

    constructor(targets: Option<set<NodeType>>, className: string, processScripts: (seq<string>, Dict<Node>) -> seq<string>)
      ensures this.targets == (if targets.Some? then targets.value else AllScripts)
      ensures this.className == className && this.processScripts == processScripts
      ensures errors == [] && collectedScripts == []
    {
      this.targets := if targets.Some? then targets.value else AllScripts;
      this.className := className;
      this.processScripts := processScripts;
      errors := [];
      collectedScripts := [];
    }

    method CollectScript(n: Node)
      modifies this
      ensures collectedScripts == CollectOne(old(collectedScripts), n) && errors == old(errors)
    {
      if IsScript(n) {
        collectedScripts := Put(collectedScripts, n.path, n);
      }
    }

    /** The four script visits collect; every other visit is the `NodeVisitor` no-op. */
    method Accept(n: Node)
      modifies this
      ensures collectedScripts == CollectOne(old(collectedScripts), n) && errors == old(errors)
    {
      match n
      case MessageHandler(_, _, _, _) => CollectScript(n);
      case CustomMethod(_, _, _, _) => CollectScript(n);
      case Transform(_, _, _) => CollectScript(n);
      case EventHandler(_, _, _, _, _) => CollectScript(n);
      case _ =>
    }

    method PostProcess()
      modifies this
      ensures RuleState(errors, collectedScripts) == PostScripts(processScripts, old(errors), old(collectedScripts))
    {
      if collectedScripts != [] {
        errors := processScripts(errors, collectedScripts);
        collectedScripts := [];
      }
    }

    method ProcessNodes(nodes: seq<Node>)
      modifies this
      ensures RuleState(errors, collectedScripts)
        == PostScripts(processScripts, [], Collect(old(collectedScripts), FilterByTypes(nodes, targets)))
    {
      errors := [];
      var start := collectedScripts;
      var applicable := FilterByTypes(nodes, targets);
      var k := 0;
      while k < |applicable|
        invariant 0 <= k <= |applicable|
        invariant collectedScripts == Collect(start, applicable[..k]) && errors == []
      {
        RunSnoc(CollectOne, start, applicable, k);
        Accept(applicable[k]);
        k := k + 1;
      }
      assert applicable[..k] == applicable;
      PostProcess();
    }
  }
}
