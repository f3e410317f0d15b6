/**
 * rules/bad_component_reference.py: scripts and expressions that walk the
 * component tree (`.getSibling(`, `self.parent.` and so on) are reported,
 * once per script or expression, by plain substring search.
 */
module BadComponentReference {
  import opened Wrappers
  import opened PyStr
  import opened Nodes
  import opened RuleCommon

  /** The patterns searched for when none are configured. */
  const DefaultPatterns: seq<string> := [
    ".getSibling(", ".getParent(", ".getChild(", ".getChildren(",
    "self.parent.", "self.children.", "self.parent)", "self.children)",
    "self.parent,", "self.children,", "self.parent\n", "self.children\n",
    "self.parent\r", "self.children\r"]

  const ErrorMessage: string :=
    "Avoid object traversal patterns (.getSibling, .getParent, .getChild, .parent, .children) as they "
    + "create brittle dependencies on view structure. Use view.custom properties or message handling "
    + "for better maintainability."

  /** The four script kinds and expression bindings. */
  const TargetTypes: set<NodeType> := AllScripts + {ExpressionBindingType}

  /** `forbidden_patterns or [...]`: a non-empty list replaces the defaults. */
  function PatternsOf(forbidden: Option<seq<string>>): (ps: seq<string>)
    ensures ps != []
    ensures forbidden.Some? && forbidden.value != [] ==> ps == forbidden.value
    ensures forbidden.None? || forbidden.value == [] ==> ps == DefaultPatterns
  {
    if forbidden.Some? && forbidden.value != [] then forbidden.value else DefaultPatterns
  }

  /** The `content_type` argument of `_check_content`. */
  datatype ContentKind = ScriptContent | ExpressionContent

  /** `content_type.title()` for the two content types. */
  function Title(k: ContentKind): string {
    match k
    case ScriptContent => "Script"
    case ExpressionContent => "Expression"
  }

  // ---------------------------------------------------------------------
  // Matching.

  /** Pattern `p` is found in `content`; without case sensitivity, between the lower-cased forms. */
  predicate Hit(content: string, p: string, caseSensitive: bool) {
    if caseSensitive then Contains(content, p) else Contains(Lower(content), Lower(p))
  }

  /** The patterns among the first `n` of `ps` that satisfy `hit`, in list order. */
  function Filter(ps: seq<string>, hit: string -> bool, n: nat): (r: seq<string>)
    requires n <= |ps|
    ensures |r| <= n
  {
    if n == 0 then [] else Filter(ps, hit, n - 1) + (if hit(ps[n - 1]) then [ps[n - 1]] else [])
  }

  /** The indices among the first `n` whose pattern satisfies `hit`. */
  function HitIndices(ps: seq<string>, hit: string -> bool, n: nat): set<nat>
    requires n <= |ps|
  {
    set i: nat | i < n && hit(ps[i])
  }

  /** The filtered list holds exactly the patterns that satisfy `hit`. */
  lemma {:induction false} FilterMembers(ps: seq<string>, hit: string -> bool, n: nat)
    requires n <= |ps|
    ensures forall p :: p in Filter(ps, hit, n) <==> exists i :: 0 <= i < n && ps[i] == p && hit(ps[i])
  {
    if n > 0 {
      FilterMembers(ps, hit, n - 1);
      var f := Filter(ps, hit, n - 1);
      var r := Filter(ps, hit, n);
      assert r == f + (if hit(ps[n - 1]) then [ps[n - 1]] else []);
      forall p | p in r ensures exists i :: 0 <= i < n && ps[i] == p && hit(ps[i]) {
        if p in f {
          var i :| 0 <= i < n - 1 && ps[i] == p && hit(ps[i]);
        } else {
          assert ps[n - 1] == p && hit(ps[n - 1]);
        }
      }
      forall p, i | 0 <= i < n && ps[i] == p && hit(ps[i]) ensures p in r {
        if i < n - 1 {
          assert p in f;
        }
      }
    }
  }

  /** One entry per index whose pattern satisfies `hit`. */
  lemma {:induction false} FilterCount(ps: seq<string>, hit: string -> bool, n: nat)
    requires n <= |ps|
    ensures |Filter(ps, hit, n)| == |HitIndices(ps, hit, n)|
  {
    if n > 0 {
      FilterCount(ps, hit, n - 1);
      var a := HitIndices(ps, hit, n - 1);
      if hit(ps[n - 1]) {
        assert HitIndices(ps, hit, n) == a + {n - 1};
        assert n - 1 !in a;
      } else {
        assert HitIndices(ps, hit, n) == a;
      }
    }
  }

  /** The filtered list starts with the first pattern that satisfies `hit`. */
  lemma FilterFirst(ps: seq<string>, hit: string -> bool, n: nat, i: nat)
    requires i < n <= |ps| && hit(ps[i])
    requires forall j :: 0 <= j < i ==> !hit(ps[j])
    ensures |Filter(ps, hit, n)| > 0 && Filter(ps, hit, n)[0] == ps[i]
  {
    FilterMembers(ps, hit, n);
    assert ps[i] in Filter(ps, hit, n);
    FilterPrefix(ps, hit, i + 1, n);
    FilterMembers(ps, hit, i);
    if Filter(ps, hit, i) != [] {
      assert Filter(ps, hit, i)[0] in Filter(ps, hit, i);
    }
    assert Filter(ps, hit, i + 1) == [ps[i]];
  }

  /** Trying more patterns only appends to the list. */
  lemma {:induction false} FilterPrefix(ps: seq<string>, hit: string -> bool, m: nat, n: nat)
    requires m <= n <= |ps|
    ensures |Filter(ps, hit, m)| <= |Filter(ps, hit, n)|
    ensures Filter(ps, hit, n)[..|Filter(ps, hit, m)|] == Filter(ps, hit, m)
    decreases n - m
  {
    if m < n {
      FilterPrefix(ps, hit, m, n - 1);
      var f := Filter(ps, hit, n - 1);
      assert Filter(ps, hit, n)[..|f|] == f;
    }
  }

  /** `lambda p: p in check_content`, on the original pattern. */
  function HitOf(content: string, caseSensitive: bool): string -> bool {
    p => Hit(content, p, caseSensitive)
  }

  /** `found_patterns`: the original patterns that hit, in list order. */
  function Found(content: string, ps: seq<string>, caseSensitive: bool): seq<string> {
    Filter(ps, HitOf(content, caseSensitive), |ps|)
  }

  /** Lower-casing keeps an occurrence where it was. */
  lemma LowerOccurs(s: string, p: string, i: int)
    requires OccursAt(s, p, i)
    ensures OccursAt(Lower(s), Lower(p), i)
  {
    forall k | 0 <= k < |p|
      ensures Lower(s)[i..i + |p|][k] == Lower(p)[k]
    {
      assert s[i + k] == s[i..i + |p|][k] == p[k];
    }
  }

  /** Case-insensitive matching finds everything case-sensitive matching finds. */
  lemma InsensitiveWider(content: string, p: string)
    requires Hit(content, p, true)
    ensures Hit(content, p, false)
  {
    var i :| 0 <= i <= |content| && OccursAt(content, p, i);
    LowerOccurs(content, p, i);
  }

  // ---------------------------------------------------------------------
  // The report.

  /** The fixed tail of every report. */
  const Advice: string := " which creates brittle view structure dependencies. Consider using view.custom "
    + "properties or message handling for component communication instead."

  function PatternMessage(found: seq<string>): (m: string)
    requires found != []
    ensures StartsWith(m, "'" + found[0] + "'")
  {
    var head := "'" + found[0] + "'";
    if |found| > 1 then head + " and " + NatToString(|found| - 1) + " other object traversal pattern(s)"
    else head
  }

  function Message(path: string, kind: ContentKind, found: seq<string>): string
    requires found != []
  {
    path + ": " + Title(kind) + " contains " + PatternMessage(found) + Advice
  }

  /** What `_check_content` appends: nothing for empty content or no hit, otherwise one message. */
  function ContentErrors(content: string, path: string, kind: ContentKind, ps: seq<string>, caseSensitive: bool): (r: seq<string>)
    ensures |r| <= 1
  {
    var found := Found(content, ps, caseSensitive);
    if content == [] || found == [] then [] else [Message(path, kind, found)]
  }

  /** An error is reported exactly when the content is non-empty and some pattern hits. */
  lemma ContentErrorsIff(content: string, path: string, kind: ContentKind, ps: seq<string>, caseSensitive: bool)
    ensures ContentErrors(content, path, kind, ps, caseSensitive) != []
      <==> content != [] && exists j :: 0 <= j < |ps| && Hit(content, ps[j], caseSensitive)
  {
    var hit := HitOf(content, caseSensitive);
    var found := Found(content, ps, caseSensitive);
    FilterMembers(ps, hit, |ps|);
    if found != [] {
      assert found[0] in found;
    }
    if exists j :: 0 <= j < |ps| && Hit(content, ps[j], caseSensitive) {
      var j :| 0 <= j < |ps| && Hit(content, ps[j], caseSensitive);
      assert ps[j] in found;
    }
  }

  /**
   * When pattern `i` is the first that hits, the report names it (as
   * configured, not lower-cased) and counts every other hitting index.
   */
  lemma ContentErrorsSpec(content: string, path: string, kind: ContentKind, ps: seq<string>, caseSensitive: bool, i: nat)
    requires i < |ps| && Hit(content, ps[i], caseSensitive)
    requires forall j :: 0 <= j < i ==> !Hit(content, ps[j], caseSensitive)
    ensures |Found(content, ps, caseSensitive)| > 0 && Found(content, ps, caseSensitive)[0] == ps[i]
    ensures |Found(content, ps, caseSensitive)| - 1
      == |(set j: nat | j < |ps| && Hit(content, ps[j], caseSensitive)) - {i}|
    ensures content != [] ==> ContentErrors(content, path, kind, ps, caseSensitive) == [Message(path, kind, Found(content, ps, caseSensitive))]
  {
    var hit := HitOf(content, caseSensitive);
    FilterFirst(ps, hit, |ps|, i);
    FilterCount(ps, hit, |ps|);
    assert HitIndices(ps, hit, |ps|) == set j: nat | j < |ps| && Hit(content, ps[j], caseSensitive);
    assert i in HitIndices(ps, hit, |ps|);
  }

  /** Whatever is reported with case-sensitive matching is also reported without it. */
  lemma InsensitiveReportsMore(content: string, path: string, kind: ContentKind, ps: seq<string>)
    requires ContentErrors(content, path, kind, ps, true) != []
    ensures ContentErrors(content, path, kind, ps, false) != []
  {
    ContentErrorsIff(content, path, kind, ps, true);
    ContentErrorsIff(content, path, kind, ps, false);
    var j :| 0 <= j < |ps| && Hit(content, ps[j], true);
    InsensitiveWider(content, ps[j]);
  }

  /** `<path>: <Type> contains '<pattern>'`, the start of a report naming `pattern` first. */
  function ReportHead(path: string, kind: ContentKind, pattern: string): string {
    path + ": " + Title(kind) + " contains '" + pattern + "'"
  }

  /** The message starts with the path, the content type and the first found pattern. */
  lemma MessagePrefix(path: string, kind: ContentKind, found: seq<string>)
    requires found != []
    ensures StartsWith(Message(path, kind, found), ReportHead(path, kind, found[0]))
  {
    var q := "'" + found[0] + "'";
    var pm := PatternMessage(found);
    var lead := path + ": " + Title(kind) + " contains ";
    assert pm[..|q|] == q;
    var m := Message(path, kind, found);
    assert m == lead + pm + Advice;
    assert m[..|lead| + |q|] == lead + q;
    assert lead + q == ReportHead(path, kind, found[0]);
  }

  /** A report whose first hit is `.getSibling(`, the first default pattern. */
  lemma SiblingReported(s: string, path: string, caseSensitive: bool)
    requires s != [] && Hit(s, ".getSibling(", caseSensitive)
    ensures |ContentErrors(s, path, ScriptContent, DefaultPatterns, caseSensitive)| == 1
    ensures StartsWith(ContentErrors(s, path, ScriptContent, DefaultPatterns, caseSensitive)[0],
                       ReportHead(path, ScriptContent, ".getSibling("))
  {
    assert DefaultPatterns[0] == ".getSibling(";
    ContentErrorsSpec(s, path, ScriptContent, DefaultPatterns, caseSensitive, 0);
    MessagePrefix(path, ScriptContent, Found(s, DefaultPatterns, caseSensitive));
  }

  /**
   * Matching is by substring, so a `.getSibling(` inside a comment or a
   * string literal is reported like any other, under its own name.
   */
  lemma SiblingAnywhereReported(a: string, b: string, path: string)
    ensures |ContentErrors(a + ".getSibling(" + b, path, ScriptContent, DefaultPatterns, true)| == 1
    ensures StartsWith(ContentErrors(a + ".getSibling(" + b, path, ScriptContent, DefaultPatterns, true)[0],
                       ReportHead(path, ScriptContent, ".getSibling("))
  {
    var s := a + ".getSibling(" + b;
    assert OccursAt(s, ".getSibling(", |a|) by {
      assert s[|a|..|a| + 12] == ".getSibling(";
    }
    SiblingReported(s, path, true);
  }

  /**
   * Without case sensitivity any spelling of `.getSibling(` is reported,
   * and the report names the pattern as configured, not lower-cased.
   */
  lemma SiblingAnyCase(a: string, x: string, b: string, path: string)
    requires Lower(x) == Lower(".getSibling(")
    ensures |ContentErrors(a + x + b, path, ScriptContent, DefaultPatterns, false)| == 1
    ensures StartsWith(ContentErrors(a + x + b, path, ScriptContent, DefaultPatterns, false)[0],
                       ReportHead(path, ScriptContent, ".getSibling("))
  {
    var s := a + x + b;
    assert OccursAt(s, x, |a|) by {
      assert s[|a|..|a| + |x|] == x;
    }
    LowerOccurs(s, x, |a|);
    assert |x| == 12;
    SiblingReported(s, path, false);
  }

  /**
   * A configured list replaces the defaults: with `['.getSibling(',
   * '.customBadMethod(']`, a text that holds the custom method and no
   * `.getSibling(` is reported for the custom method alone, whatever
   * else (a `.getParent(`, say) it contains.
   */
  lemma CustomPatternsReplaceDefaults(a: string, b: string, path: string)
    requires !Contains(a + ".customBadMethod(" + b, ".getSibling(")
    ensures ContentErrors(a + ".customBadMethod(" + b, path, ScriptContent,
                          PatternsOf(Some([".getSibling(", ".customBadMethod("])), true)
        == [Message(path, ScriptContent, [".customBadMethod("])]
  {
    var ps := PatternsOf(Some([".getSibling(", ".customBadMethod("]));
    var s := a + ".customBadMethod(" + b;
    assert OccursAt(s, ".customBadMethod(", |a|) by {
      assert s[|a|..|a| + 17] == ".customBadMethod(";
    }
    var hit := HitOf(s, true);
    assert !hit(ps[0]) && hit(ps[1]);
    assert Filter(ps, hit, 1) == [];
    assert Filter(ps, hit, 2) == [".customBadMethod("];
  }

  /** `_check_content`'s lowering and pattern loop: the found list, in pattern order. */
  method CollectFound(content: string, ps: seq<string>, caseSensitive: bool) returns (found: seq<string>)
    ensures found == Found(content, ps, caseSensitive)
  {
    var checkContent := content;
    var patternsToCheck := ps;
    if !caseSensitive {
      checkContent := Lower(content);
      patternsToCheck := seq(|ps|, k requires 0 <= k < |ps| => Lower(ps[k]));
    }
    found := [];
    var i := 0;
    while i < |patternsToCheck|
      invariant |patternsToCheck| == |ps|
      invariant 0 <= i <= |ps|
      invariant forall k :: 0 <= k < |ps| ==> Contains(checkContent, patternsToCheck[k]) == Hit(content, ps[k], caseSensitive)
      invariant found == Filter(ps, HitOf(content, caseSensitive), i)
    {
      if Contains(checkContent, patternsToCheck[i]) {
        found := found + [ps[i]];
      }
      i := i + 1;
    }
  }

  // ---------------------------------------------------------------------
  // The rule over a node list.

  /** The errors the visit of one node appends. */
  function NodeErrors(n: Node, ps: seq<string>, caseSensitive: bool): (r: seq<string>)
    ensures |r| <= 1
    ensures !IsScript(n) && !n.ExpressionBinding? ==> r == []
  {
    match n
    case MessageHandler(path, script, _, _) => ContentErrors(script, path, ScriptContent, ps, caseSensitive)
    case CustomMethod(path, _, script, _) => ContentErrors(script, path, ScriptContent, ps, caseSensitive)
    case Transform(path, script, _) => ContentErrors(script, path, ScriptContent, ps, caseSensitive)
    case EventHandler(path, _, _, script, _) => ContentErrors(script, path, ScriptContent, ps, caseSensitive)
    case ExpressionBinding(path, expression) => ContentErrors(expression, path, ExpressionContent, ps, caseSensitive)
    case _ => []
  }

  function NodeErrorsOf(ps: seq<string>, caseSensitive: bool): Node -> seq<string> {
    n => NodeErrors(n, ps, caseSensitive)
  }

  /** The errors of a run over `nodes`, in node order. */
  function Violations(nodes: seq<Node>, ps: seq<string>, caseSensitive: bool): seq<string> {
    Appended(NodeErrorsOf(ps, caseSensitive), nodes)
  }

  /** The rule applies to the script kinds and expression bindings, and to nothing else. */
  lemma TargetKinds(n: Node)
    ensures AppliesToRule(n, TargetTypes) <==> IsScript(n) || n.ExpressionBinding?
  {
    ScriptKinds(n);
    assert ExpressionBindingType in TargetTypes;
  }

  /**
   * At most one error per node, and every error is the report of one node:
   * "reported once per script or expression".
   */
  lemma ViolationsSpec(nodes: seq<Node>, ps: seq<string>, caseSensitive: bool)
    ensures |Violations(nodes, ps, caseSensitive)| <= |nodes|
    ensures forall m :: m in Violations(nodes, ps, caseSensitive) <==>
      exists k :: 0 <= k < |nodes| && NodeErrors(nodes[k], ps, caseSensitive) == [m]
  {
    AppendedSpec(NodeErrorsOf(ps, caseSensitive), nodes);
  }

  /** Dropping the nodes outside the target set drops no error. */
  lemma ViolationsFilter(nodes: seq<Node>, ps: seq<string>, caseSensitive: bool)
    ensures Violations(FilterByTypes(nodes, TargetTypes), ps, caseSensitive) == Violations(nodes, ps, caseSensitive)
  {
    var f := NodeErrorsOf(ps, caseSensitive);
    forall n | !AppliesToRule(n, TargetTypes) ensures f(n) == [] {
      TargetKinds(n);
    }
    AppendedFilter(f, nodes, TargetTypes);
  }

  /** `BadComponentReferenceRule` */
  class BadComponentReferenceRule {
    const targetNodeTypes: set<NodeType> := TargetTypes
    const forbiddenPatterns: seq<string>
    const caseSensitive: bool
    var errors: seq<string>

    constructor(forbiddenPatterns: Option<seq<string>>, caseSensitive: bool)
      ensures targetNodeTypes == TargetTypes
      ensures this.forbiddenPatterns == PatternsOf(forbiddenPatterns)
      ensures this.caseSensitive == caseSensitive
      ensures errors == []
    {
      this.forbiddenPatterns := if forbiddenPatterns.Some? && forbiddenPatterns.value != [] then forbiddenPatterns.value else DefaultPatterns;
      this.caseSensitive := caseSensitive;
      errors := [];
    }

    /** `_check_content` */
    method CheckContent(content: string, path: string, kind: ContentKind)
      modifies this
      ensures errors == old(errors) + ContentErrors(content, path, kind, forbiddenPatterns, caseSensitive)
    {
      if content == [] {
        return;
      }
      var found := CollectFound(content, forbiddenPatterns, caseSensitive);
      if found != [] {
        var mainPattern := found[0];
        var patternMsg;
        if |found| > 1 {
          patternMsg := "'" + mainPattern + "' and " + NatToString(|found| - 1) + " other object traversal pattern(s)";
        } else {
          patternMsg := "'" + mainPattern + "'";
        }
        assert patternMsg == PatternMessage(found);
        errors := errors + [path + ": " + Title(kind) + " contains " + patternMsg + Advice];
      }
    }

    /** `node.accept(self)`: the four script visits and the expression-binding visit check their text. */
    method Accept(n: Node)
      modifies this
      ensures errors == old(errors) + NodeErrors(n, forbiddenPatterns, caseSensitive)
    {
      match n
      case MessageHandler(path, script, _, _) => CheckContent(script, path, ScriptContent);
      case CustomMethod(path, _, script, _) => CheckContent(script, path, ScriptContent);
      case Transform(path, script, _) => CheckContent(script, path, ScriptContent);
      case EventHandler(path, _, _, script, _) => CheckContent(script, path, ScriptContent);
      case ExpressionBinding(path, expression) =>
        if expression != [] {
          CheckContent(expression, path, ExpressionContent);
        }
      case _ =>
    }

    /** `process_nodes`: reset the errors, visit the applicable nodes in order. */
    method ProcessNodes(nodes: seq<Node>)
      modifies this
      ensures errors == Violations(nodes, forbiddenPatterns, caseSensitive)
    {
      errors := [];
      var applicable := FilterByTypes(nodes, targetNodeTypes);
      var k := 0;
      while k < |applicable|
        invariant 0 <= k <= |applicable|
        invariant errors == Violations(applicable[..k], forbiddenPatterns, caseSensitive)
      {
        Accept(applicable[k]);
        AppendedSnoc(NodeErrorsOf(forbiddenPatterns, caseSensitive), applicable, k);
        k := k + 1;
      }
      assert applicable[..k] == applicable;
      ViolationsFilter(nodes, forbiddenPatterns, caseSensitive);
    }
  }
}
