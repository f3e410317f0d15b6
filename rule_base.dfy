/**
 * rules/base.py: the older visitor, whose compound visits delegate to five
 * primitive ones, and its `LintingRule`.
 */
module RuleBase {
  import opened Wrappers
  import opened PyStr
  import opened Nodes

  /** The five primitive visits, which do nothing unless overridden. */
  const Primitives: set<string> := {"visit_component", "visit_binding", "visit_script", "visit_event_handler", "visit_property"}

  /** The seven compound visits, which delegate. */
  const Compounds: set<string> := {
    "visit_expression_binding", "visit_property_binding", "visit_tag_binding", "visit_message_handler",
    "visit_custom_method", "visit_script_transform", "visit_script_event_handler"}

  const VisitorMethods: set<string> := Primitives + Compounds

  /**
   * The overriding bodies a call of `m` runs, in order, for a subclass that
   * overrides the methods `overrides`; `None` is the `AttributeError` of a
   * name the visitor does not have.
   */
  function Reached(overrides: set<string>, m: string): (r: Option<seq<string>>)
    ensures r.Some? <==> m in VisitorMethods || m in overrides
  {
    if m in overrides then Some([m])
    else if m in Primitives then Some([])
    else if m == "visit_expression_binding" || m == "visit_property_binding" || m == "visit_tag_binding" then
      Some(if "visit_binding" in overrides then ["visit_binding"] else [])
    else if m == "visit_message_handler" || m == "visit_custom_method" || m == "visit_script_transform" then
      Some(if "visit_script" in overrides then ["visit_script"] else [])
    else if m == "visit_script_event_handler" then
      Some((if "visit_event_handler" in overrides then ["visit_event_handler"] else [])
        + (if "visit_script" in overrides then ["visit_script"] else []))
    else None
  }

  /** Only overriding bodies run, each at most once; a subclass that overrides nothing runs none. */
  lemma ReachedOnlyOverrides(overrides: set<string>, m: string)
    requires Reached(overrides, m).Some?
    ensures forall x :: x in Reached(overrides, m).value ==> x in overrides
    ensures |Reached(overrides, m).value| <= 2
    ensures overrides == {} ==> Reached(overrides, m).value == []
  {
  }

  /** The three binding visits reach `visit_binding` unless overridden themselves. */
  lemma BindingVisitsDelegate(overrides: set<string>, m: string)
    requires m in {"visit_expression_binding", "visit_property_binding", "visit_tag_binding"} && m !in overrides
    ensures Reached(overrides, m) == Reached(overrides, "visit_binding")
  {
  }

  /** Message handlers, custom methods and script transforms reach `visit_script` unless overridden. */
  lemma ScriptVisitsDelegate(overrides: set<string>, m: string)
    requires m in {"visit_message_handler", "visit_custom_method", "visit_script_transform"} && m !in overrides
    ensures Reached(overrides, m) == Reached(overrides, "visit_script")
  {
  }

  /** A script event handler runs the event-handler visit first, then the script visit. */
  lemma ScriptEventHandlerOrder(overrides: set<string>)
    requires "visit_script_event_handler" !in overrides
    ensures Reached(overrides, "visit_script_event_handler").Some?
    ensures Reached(overrides, "visit_script_event_handler").value
      == Reached(overrides, "visit_event_handler").value + Reached(overrides, "visit_script").value
  {
  }

  /** The three node kinds whose `visit_<value>` this visitor lacks. */
  predicate MissingKind(n: Node) {
    n.ExpressionStructBinding? || n.QueryBinding? || n.Transform?
  }

  /**
   * This visitor has no `visit_generic`, and no visit for expression-struct
   * bindings, query bindings or transforms: `accept` on exactly those three
   * kinds lands on a missing method, every other kind finds its own visit.
   */
  lemma AcceptMissingKinds(n: Node)
    ensures Accept(n, VisitorMethods).Generic? <==> MissingKind(n)
    ensures "visit_generic" !in VisitorMethods
  {
    NamesOfBindings();
    NamesOfOtherBindings();
    NamesOfScripts();
    var m := VisitMethodName(TypeOf(n));
    if n.ExpressionStructBinding? {
      assert |m| == 31;
    } else if n.QueryBinding? {
      assert |m| == 19 && m[6] == 'q';
    } else if n.Transform? {
      assert |m| == 15 && m[6] == 't';
    }
  }

  /** `LintingRule` of rules/base.py. */
  class LintingRule {
    const applicableTypes: set<NodeType>
    const className: string
    var errors: seq<string>

    /** `applicable_types or set()` */
    constructor(applicableTypes: Option<set<NodeType>>, className: string)
      ensures this.applicableTypes == (if applicableTypes.Some? then applicableTypes.value else {})
      ensures this.className == className && errors == []
    {
      this.applicableTypes := if applicableTypes.Some? then applicableTypes.value else {};
      this.className := className;
      errors := [];
    }

    function ErrorKey(): string
      reads this
    {
      className
    }

    /** The default `error_message` names the class after a fixed prefix. */
    function ErrorMessage(): (r: string)
      reads this
      ensures StartsWith(r, "Error detected by ") && EndsWith(r, className)
      ensures |r| == 18 + |className|
    {
      "Error detected by " + className
    }

    /**
     * `applies_to`: every node when no type was given. Otherwise it asks
     * each type for an `applies_to` method enum members do not have, which
     * is the `AttributeError`.
     */
    function AppliesTo(n: Node): (r: Result<bool>)
      reads this
      ensures r == Ok(true) <==> applicableTypes == {}
      ensures r.Err? <==> applicableTypes != {}
    {
      if applicableTypes == {} then Ok(true)
      else Err("AttributeError: 'NodeType' object has no attribute 'applies_to'")
    }
  }
}
