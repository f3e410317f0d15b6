/**
 * rules/performance/polling_interval.py: the polling test applied to every
 * expression a binding carries (expression bindings, each struct entry,
 * each query parameter, tag paths in expression mode and tag references
 * in indirect mode), reported under the configured severity.
 */
module PerformancePolling {
  import opened PyStr
  import opened Nodes
  import opened Polling

  /** The messages for the `(key, expression)` entries of a struct, a query or a tag's references. */
  function EntryFindings(min: int, prefix: string, entries: seq<(string, string)>): (r: seq<string>)
    ensures |r| <= |entries|
  {
    if entries == [] then []
    else
      var last := entries[|entries| - 1];
      EntryFindings(min, prefix, entries[..|entries| - 1])
      + (if Fails(min, last.1) then [prefix + "." + last.0 + ": '" + last.1 + "'"] else [])
  }

  /** Every failing entry gives its message, and every message comes from a failing entry. */
  lemma {:induction false} EntryFindingsSpec(min: int, prefix: string, entries: seq<(string, string)>)
    ensures forall m :: m in EntryFindings(min, prefix, entries) <==>
      exists k :: 0 <= k < |entries| && Fails(min, entries[k].1)
        && m == prefix + "." + entries[k].0 + ": '" + entries[k].1 + "'"
  {
    if entries != [] {
      var n := |entries| - 1;
      EntryFindingsSpec(min, prefix, entries[..n]);
      assert forall k :: 0 <= k < n ==> entries[..n][k] == entries[k];
    }
  }

  /** What the visit of one node reports, in order. */
  function NodeFindings(min: int, n: Node): (r: seq<string>)
    ensures n.ExpressionBinding? ==> r == (if Fails(min, n.expression) then [Report(n)] else [])
    ensures n.ExpressionStructBinding? ==> r == EntryFindings(min, n.path, n.struct)
    ensures n.QueryBinding? ==> r == EntryFindings(min, n.path, n.parameters)
    ensures n.TagBinding? && n.mode == "expression" ==>
      r == (if Fails(min, n.tagPath) then [n.path + ": '" + n.tagPath + "'"] else [])
    ensures n.TagBinding? && n.mode == "indirect" ==> r == EntryFindings(min, n.path + ".references", n.references)
    ensures n.TagBinding? && n.mode != "expression" && n.mode != "indirect" ==> r == []
    ensures TypeOf(n) !in AllBindings ==> r == []
  {
    match n
    case ExpressionBinding(_, e) => if Fails(min, e) then [Report(n)] else []
    case ExpressionStructBinding(_, struct) => EntryFindings(min, n.path, struct)
    case QueryBinding(_, _, parameters) => EntryFindings(min, n.path, parameters)
    case TagBinding(_, tagPath, mode, references) =>
      if mode == "expression" then (if Fails(min, tagPath) then [n.path + ": '" + tagPath + "'"] else [])
      else if mode == "indirect" then EntryFindings(min, n.path + ".references", references)
      else []
    case _ => []
  }

  /** The findings of a run over `nodes`, in node order. */
  function Findings(min: int, nodes: seq<Node>): (r: seq<string>)
  {
    if nodes == [] then [] else Findings(min, nodes[..|nodes| - 1]) + NodeFindings(min, nodes[|nodes| - 1])
  }

  lemma FindingsSnoc(min: int, nodes: seq<Node>, k: nat)
    requires k < |nodes|
    ensures Findings(min, nodes[..k + 1]) == Findings(min, nodes[..k]) + NodeFindings(min, nodes[k])
  {
    assert nodes[..k + 1][..k] == nodes[..k];
  }

  /** Every binding kind is a target, so filtering loses no finding. */
  lemma {:induction false} FindingsFilter(min: int, nodes: seq<Node>)
    ensures Findings(min, FilterByTypes(nodes, AllBindings)) == Findings(min, nodes)
  {
    if nodes != [] {
      var n := |nodes| - 1;
      FindingsFilter(min, nodes[..n]);
      assert nodes == nodes[..n] + [nodes[n]];
      FilterAppend(nodes[..n], [nodes[n]], AllBindings);
      var f := FilterByTypes(nodes[..n], AllBindings);
      if AppliesToRule(nodes[n], AllBindings) {
        assert FilterByTypes([nodes[n]], AllBindings) == [nodes[n]];
        assert (f + [nodes[n]])[..|f|] == f;
      } else {
        assert FilterByTypes([nodes[n]], AllBindings) == [];
        assert f + [] == f;
      }
    }
  }

  /** `PollingIntervalRule` of rules/performance/polling_interval.py. */
  class PollingIntervalRule {
    const minimumInterval: int
    const severity: string
    const targets: set<NodeType> := AllBindings
    var errors: seq<string>
    var warnings: seq<string>

    constructor(minimumInterval: int, severity: string)
      ensures this.minimumInterval == minimumInterval && this.severity == severity
      ensures errors == [] && warnings == []
    {
      this.minimumInterval := minimumInterval;
      this.severity := severity;
      errors := [];
      warnings := [];
    }

    /** `add_violation`: to the errors under severity `"error"`, to the warnings otherwise. */
    method AddViolations(ms: seq<string>)
      modifies this
      ensures severity == "error" ==> errors == old(errors) + ms && warnings == old(warnings)
      ensures severity != "error" ==> warnings == old(warnings) + ms && errors == old(errors)
    {
      if severity == "error" {
        errors := errors + ms;
      } else {
        warnings := warnings + ms;
      }
    }

    method VisitExpressionBinding(n: Node)
      requires n.ExpressionBinding?
      modifies this
      ensures severity == "error" ==> errors == old(errors) + NodeFindings(minimumInterval, n) && warnings == old(warnings)
      ensures severity != "error" ==> warnings == old(warnings) + NodeFindings(minimumInterval, n) && errors == old(errors)
    {
      var fails := CheckExpression(n.expression, minimumInterval);
      if fails {
        AddViolations([n.path + ": '" + n.expression + "'"]);
      } else {
        AddViolations([]);
      }
    }

    /** The loop over a struct's, a query's or a tag's `(key, expression)` items. */
    method CheckEntries(prefix: string, entries: seq<(string, string)>) returns (ms: seq<string>)
      ensures ms == EntryFindings(minimumInterval, prefix, entries)
    {
      ms := [];
      var k := 0;
      while k < |entries|
        invariant 0 <= k <= |entries|
        invariant ms == EntryFindings(minimumInterval, prefix, entries[..k])
      {
        assert entries[..k + 1][..k] == entries[..k];
        var fails := CheckExpression(entries[k].1, minimumInterval);
        if fails {
          ms := ms + [prefix + "." + entries[k].0 + ": '" + entries[k].1 + "'"];
        }
        k := k + 1;
      }
      assert entries[..k] == entries;
    }

    method VisitExpressionStructBinding(n: Node)
      requires n.ExpressionStructBinding?
      modifies this
      ensures severity == "error" ==> errors == old(errors) + NodeFindings(minimumInterval, n) && warnings == old(warnings)
      ensures severity != "error" ==> warnings == old(warnings) + NodeFindings(minimumInterval, n) && errors == old(errors)
    {
      var ms := CheckEntries(n.path, n.struct);
      AddViolations(ms);
    }

    method VisitQueryBinding(n: Node)
      requires n.QueryBinding?
      modifies this
      ensures severity == "error" ==> errors == old(errors) + NodeFindings(minimumInterval, n) && warnings == old(warnings)
      ensures severity != "error" ==> warnings == old(warnings) + NodeFindings(minimumInterval, n) && errors == old(errors)
    {
      var ms := CheckEntries(n.path, n.parameters);
      AddViolations(ms);
    }

    method VisitTagBinding(n: Node)
      requires n.TagBinding?
      modifies this
      ensures severity == "error" ==> errors == old(errors) + NodeFindings(minimumInterval, n) && warnings == old(warnings)
      ensures severity != "error" ==> warnings == old(warnings) + NodeFindings(minimumInterval, n) && errors == old(errors)
    {
      var ms := [];
      if n.mode == "expression" {
        var fails := CheckExpression(n.tagPath, minimumInterval);
        if fails {
          ms := [n.path + ": '" + n.tagPath + "'"];
        }
      } else if n.mode == "indirect" {
        ms := CheckEntries(n.path + ".references", n.references);
      }
      AddViolations(ms);
    }

    /** `node.accept(self)`: the four binding visits this rule defines; the others do nothing. */
    method Accept(n: Node)
      modifies this
      ensures severity == "error" ==> errors == old(errors) + NodeFindings(minimumInterval, n) && warnings == old(warnings)
      ensures severity != "error" ==> warnings == old(warnings) + NodeFindings(minimumInterval, n) && errors == old(errors)
    {
      match n
      case ExpressionBinding(_, _) => VisitExpressionBinding(n);
      case ExpressionStructBinding(_, _) => VisitExpressionStructBinding(n);
      case QueryBinding(_, _, _) => VisitQueryBinding(n);
      case TagBinding(_, _, _, _) => VisitTagBinding(n);
      case _ =>
    }

    /** `process_nodes`: every finding of the run, under the configured severity. */
    method ProcessNodes(nodes: seq<Node>)
      modifies this
      ensures severity == "error" ==> errors == Findings(minimumInterval, nodes) && warnings == []
      ensures severity != "error" ==> warnings == Findings(minimumInterval, nodes) && errors == []
    {
      errors := [];
      warnings := [];
      var applicable := FilterByTypes(nodes, targets);
      var k := 0;
      while k < |applicable|
        invariant 0 <= k <= |applicable|
        invariant severity == "error" ==> errors == Findings(minimumInterval, applicable[..k]) && warnings == []
        invariant severity != "error" ==> warnings == Findings(minimumInterval, applicable[..k]) && errors == []
      {
        Accept(applicable[k]);
        FindingsSnoc(minimumInterval, applicable, k);
        k := k + 1;
      }
      assert applicable[..k] == applicable;
      FindingsFilter(minimumInterval, nodes);
    }
  }
}
