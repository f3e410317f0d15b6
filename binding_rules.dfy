/**
 * rules/binding_rules.py: a binding rule that names the binding kinds it
 * checks as strings, and its polling rule, which checks expression
 * bindings with the spaced `now(n)` pattern.
 */
module BindingRules {
  import opened Nodes
  import opened Polling

  /** The node kinds the names `"expression"`, `"property"` and `"tag"` stand for. */
  function ListedKinds(bindingTypes: seq<string>): (ks: set<NodeType>)
    ensures ks <= {ExpressionBindingType, PropertyBindingType, TagBindingType}
    ensures ExpressionBindingType in ks <==> "expression" in bindingTypes
    ensures PropertyBindingType in ks <==> "property" in bindingTypes
    ensures TagBindingType in ks <==> "tag" in bindingTypes
  {
    (if "expression" in bindingTypes then {ExpressionBindingType} else {})
    + (if "property" in bindingTypes then {PropertyBindingType} else {})
    + (if "tag" in bindingTypes then {TagBindingType} else {})
  }

  /**
   * `BindingLintingRule.applies_to`: bindings only; every binding when no
   * kind is listed, otherwise only the listed kinds.
   */
  function AppliesTo(n: Node, bindingTypes: seq<string>): (r: bool)
    ensures r <==> TypeOf(n) in (if bindingTypes == [] then AllBindings else ListedKinds(bindingTypes))
  {
    if TypeOf(n) in AllBindings then
      if bindingTypes == [] then true
      else if n.ExpressionBinding? && "expression" in bindingTypes then true
      else if n.PropertyBinding? && "property" in bindingTypes then true
      else if n.TagBinding? && "tag" in bindingTypes then true
      else false
    else false
  }

  /** `PollingIntervalRule` of rules/binding_rules.py. */
  class PollingIntervalRule {
    const minInterval: int
    const bindingTypes: seq<string> := ["expression", "property"]
    var errors: seq<string>

    constructor(minInterval: int)
      ensures this.minInterval == minInterval && errors == []
    {
      this.minInterval := minInterval;
      errors := [];
    }

    /** The rule looks at expression and property bindings and nothing else. */
    predicate Applies(n: Node)
      ensures Applies(n) <==> n.ExpressionBinding? || n.PropertyBinding?
    {
      assert "expression" in bindingTypes && "property" in bindingTypes && "tag" !in bindingTypes;
      AppliesTo(n, bindingTypes)
    }

    method VisitExpressionBinding(n: Node)
      requires n.ExpressionBinding?
      modifies this
      ensures errors == old(errors) + (if Flags(minInterval, n) then [Report(n)] else [])
    {
      var fails := CheckExpression(n.expression, minInterval);
      if fails {
        errors := errors + [n.path + ": '" + n.expression + "'"];
      }
    }
  }
}
