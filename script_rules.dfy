/**
 * `ScriptLintingRule` and `PylintScriptRule` of `rules/script_rules.py`,
 * the third pylint rule. Its `accept` visits collect message handlers and
 * custom methods by path; `process_collected_scripts` writes every
 * collected script under its header into one combined file, with no
 * preamble, so that its `line_count` holds the real line numbers, runs
 * the analyzer once and hands each diagnostic back to its script. Any
 * exception of the run becomes the one issue `Error running pylint: <text>`
 * of every script.
 *
 * The analyzer (pylint on a temporary file) is the parameter `analyze`.
 */
module ScriptRules {
  import opened Wrappers
  import opened PyStr
  import opened Dicts
  import opened Nodes
  import opened RuleBase
  import opened RuleCommon
  import opened Escapes
  import opened ScriptBatch
  import opened ScriptIssues
  import LintScriptLegacy

  // ---------------------------------------------------------------------
  // Rendering a script object.

  /**
   * What `_run_pylint_batch` finds on a collected object: a
   * `get_formatted_code` method (with what it returns), a `code`
   * attribute, or neither, in which case the object is a `str` or is
   * turned into one by `str()` and that text is used.
   */
  datatype ScriptObject = WithFormatter(formatted: string) | WithCode(code: string) | Plain(text: string)

  /** Written in two pieces so that the verifier sees quickly that it holds no line break. */
  const GenericHeader := "def generic_" + "script(self):"
  const Margin := "    "

  /** Every line, indented by the four-space margin. */
  function Indented(ls: seq<string>): (r: seq<string>)
    ensures |r| == |ls|
  {
    seq(|ls|, i requires 0 <= i < |ls| => Margin + ls[i])
  }

  /** Indenting a non-empty run of lines: the first, then the rest. */
  lemma IndentedCons(ls: seq<string>)
    requires ls != []
    ensures Indented(ls) == [Margin + ls[0]] + Indented(ls[1..])
  {
    var r := [Margin + ls[0]] + Indented(ls[1..]);
    forall i | 0 <= i < |ls| ensures Indented(ls)[i] == r[i] {
      if i > 0 {
        assert r[i] == Indented(ls[1..])[i - 1];
      }
    }
  }

  lemma GenericHeaderOnOneLine()
    ensures '\n' !in GenericHeader
  {
    assert '\n' !in "def generic_";
    assert '\n' !in "script(self):";
  }

  /** `f"def generic_script(self):\n    {code.replace('\n', '\n    ')}"` */
  function Wrap(code: string): string {
    GenericHeader + "\n    " + Replace(code, "\n", "\n    ")
  }

  /** `formatted_code`: the object's own formatting, else its code or text wrapped in `generic_script`. */
  function Render(o: ScriptObject): string {
    match o
    case WithFormatter(f) => f
    case WithCode(c) => Wrap(c)
    case Plain(t) => Wrap(t)
  }

  /** The lines of `p` followed by the replaced `c`, as `ReplaceLines` states them. */
  ghost predicate IndentsLines(p: string, c: string) {
    Lines(p + Replace(c, "\n", "\n    ")) == [p + Lines(c)[0]] + Indented(Lines(c)[1..])
  }

  /** Replacing every newline by a newline and the margin indents every line but the first. */
  lemma {:induction false} ReplaceLines(p: string, c: string)
    requires '\n' !in p
    ensures IndentsLines(p, c)
    decreases |c|
  {
    if c == [] {
      assert Replace(c, "\n", "\n    ") == [];
      assert p + [] == p;
      LinesOfLine(p);
    } else if c[0] == '\n' {
      ReplaceLines(Margin, c[1..]);
      ReplaceNewline(p, c);
    } else {
      assert '\n' !in p + [c[0]];
      ReplaceLines(p + [c[0]], c[1..]);
      ReplaceChar(p, c);
    }
  }

  /** A leading newline: the first line ends, the rest follows on indented lines. */
  lemma ReplaceNewline(p: string, c: string)
    requires '\n' !in p && c != [] && c[0] == '\n' && IndentsLines(Margin, c[1..])
    ensures IndentsLines(p, c)
  {
    var rep := "\n    ";
    assert StartsWith(c, "\n");
    var rest := Replace(c[1..], "\n", rep);
    assert Replace(c, "\n", rep) == rep + rest;
    assert p + (rep + rest) == p + "\n" + (Margin + rest);
    LinesJoin(p, Margin + rest);
    LinesOfLine(p);
    var ls := Lines(c[1..]);
    assert Lines(c) == [""] + ls;
    IndentedCons(ls);
    assert p + "" == p;
  }

  /** Any other leading character stays on the first line. */
  lemma ReplaceChar(p: string, c: string)
    requires '\n' !in p && c != [] && c[0] != '\n' && IndentsLines(p + [c[0]], c[1..])
    ensures IndentsLines(p, c)
  {
    var rep := "\n    ";
    assert !StartsWith(c, "\n") by { assert c[..1][0] == c[0]; }
    var rest := Replace(c[1..], "\n", rep);
    assert Replace(c, "\n", rep) == [c[0]] + rest;
    assert p + ([c[0]] + rest) == (p + [c[0]]) + rest;
    var ls := Lines(c[1..]);
    assert Lines(c) == [[c[0]] + ls[0]] + ls[1..];
    assert p + [c[0]] + ls[0] == p + ([c[0]] + ls[0]);
  }

  /**
   * The wrapped text is the `generic_script` header followed by every
   * line of the code, indented: one line more than the code.
   */
  lemma WrapLines(code: string)
    ensures Lines(Wrap(code)) == [GenericHeader] + Indented(Lines(code))
    ensures ScriptLines(Wrap(code)) == ScriptLines(code) + 1
  {
    var rest := Replace(code, "\n", "\n    ");
    assert Wrap(code) == GenericHeader + "\n" + (Margin + rest);
    LinesJoin(GenericHeader, Margin + rest);
    GenericHeaderOnOneLine();
    LinesOfLine(GenericHeader);
    ReplaceLines(Margin, code);
    IndentedCons(Lines(code));
  }

  /** The class `str()` names for a script node. */
  function ClassName(n: Node): string
    requires IsScript(n)
  {
    match n
    case MessageHandler(_, _, _, _) => "MessageHandlerScript"
    case CustomMethod(_, _, _, _) => "CustomMethodScript"
    case Transform(_, _, _) => "TransformScript"
    case EventHandler(_, _, _, _, _) => "EventHandlerScript"
  }

  /**
   * `str(node)`: the node classes define no `__str__` or `__repr__`, so it
   * is Python's default text, naming the class and the object's address.
   */
  function ObjectText(n: Node, address: string): string
    requires IsScript(n)
  {
    "<ignition_lint." + "model.node_types." + ClassName(n) + " object at " + address + ">"
  }

  /**
   * The node classes have neither `get_formatted_code` nor `code`, so a
   * collected node is rendered from its `str()` text.
   */
  function AsObject(n: Node, address: string): ScriptObject
    requires IsScript(n)
  {
    Plain(ObjectText(n, address))
  }

  lemma ObjectTextOnOneLine(n: Node, address: string)
    requires IsScript(n) && '\n' !in address
    ensures '\n' !in ObjectText(n, address)
  {
    assert '\n' !in ClassName(n);
    assert '\n' !in "<ignition_lint.";
    assert '\n' !in "model.node_types.";
    assert '\n' !in " object at ";
  }

  /**
   * As written, the text given to the analyzer for a node is two lines,
   * the `generic_script` header and the node's `str()` text: the script
   * itself never reaches the analyzer, whatever it holds.
   */
  lemma AsWrittenLintsObjectText(n: Node, address: string, s: string)
    requires IsScript(n) && '\n' !in address
    ensures Lines(Render(AsObject(n, address))) == [GenericHeader, Margin + ObjectText(n, address)]
    ensures Render(AsObject(n.(script := s), address)) == Render(AsObject(n, address))
  {
    var t := ObjectText(n, address);
    ObjectTextOnOneLine(n, address);
    LinesOfLine(t);
    WrapLines(t);
    assert Indented([t]) == [Margin + t];
  }

  /**
   * With `get_formatted_script`, the rendering the other two pylint rules
   * use, the analyzer sees the function header and then every line of
   * the script.
   */
  lemma CorrectedKeepsScript(n: Node)
    requires IsScript(n)
    ensures Lines(FormatScript(n).1) == Lines(FunctionDef(n)) + Lines(FormatScript(n).0.script)
    ensures !IsBlank(n.script) ==> Lines(FormatScript(n).1) == Lines(FunctionDef(n)) + Lines(n.script)
  {
    LinesJoin(FunctionDef(n), FormatScript(n).0.script);
  }

  /** The scripts of a batch as written: each collected node rendered from its `str()` text. */
  function AsWrittenEntries(scripts: Dict<Node>, address: Node -> string): (r: seq<Entry>)
    requires ScriptsOnly(scripts)
    ensures |r| == |scripts|
    ensures forall i :: 0 <= i < |r| ==> r[i] == (scripts[i].0, Render(AsObject(scripts[i].1, address(scripts[i].1))))
  {
    seq(|scripts|, i requires 0 <= i < |scripts| => (scripts[i].0, Render(AsObject(scripts[i].1, address(scripts[i].1)))))
  }

  // ---------------------------------------------------------------------
  // Visits.

  /** The visits `PylintScriptRule` overrides. */
  const Overrides: set<string> := {"visit_message_handler", "visit_custom_method", "visit_script", "visit_script_event_handler"}

  /** The overriding visits that store their node by path without a further test. */
  const Storing: set<string> := {"visit_message_handler", "visit_custom_method", "visit_script_event_handler"}

  const MissingGeneric := "AttributeError: 'PylintScriptRule' object has no attribute 'visit_generic'"

  /**
   * `node.accept(rule)`: the overriding bodies it runs, in order, or the
   * error of a node whose visit the rule lacks, since neither it nor the
   * visitor of rules/base.py has a `visit_generic`.
   */
  function Visited(n: Node): (r: Result<seq<string>>)
    ensures r.Ok? ==> forall b :: b in r.value ==> b in Overrides
  {
    var d := Accept(n, VisitorMethods + Overrides);
    if d.Generic? then Err(MissingGeneric)
    else
      ReachedOnlyOverrides(Overrides, d.methodName);
      Ok(Reached(Overrides, d.methodName).value)
  }

  /** Some body that runs stores the node. */
  function StoresAny(bodies: seq<string>): (r: bool)
    ensures r <==> exists i :: 0 <= i < |bodies| && bodies[i] in Storing
  {
    if bodies == [] then false else bodies[0] in Storing || StoresAny(bodies[1..])
  }

  /** Whether `accept` stores the node. */
  predicate Stores(n: Node) {
    Visited(n).Ok? && StoresAny(Visited(n).value)
  }

  /**
   * Only message handlers and custom methods are collected. Event
   * handlers reach the visitor's `visit_event_handler`, which does
   * nothing; transforms, query bindings and structured expression
   * bindings have no visit and no fallback. `visit_script`, the one visit
   * that asks `applies_to`, is never reached.
   */
  lemma VisitKinds(n: Node)
    ensures Stores(n) <==> n.MessageHandler? || n.CustomMethod?
    ensures Visited(n).Err? <==> n.Transform? || n.ExpressionStructBinding? || n.QueryBinding?
    ensures Visited(n).Ok? ==> "visit_script" !in Visited(n).value
  {
    NamesOfBindings();
    NamesOfOtherBindings();
    NamesOfScripts();
    DispatchOfNames();
    match n
    case Component(_, _, _) => assert Visited(n) == Ok([]);
    case ExpressionBinding(_, _) => assert Visited(n) == Ok([]);
    case ExpressionStructBinding(_, _) => assert Visited(n).Err?;
    case PropertyBinding(_, _) => assert Visited(n) == Ok([]);
    case TagBinding(_, _, _, _) => assert Visited(n) == Ok([]);
    case QueryBinding(_, _, _) => assert Visited(n).Err?;
    case MessageHandler(_, _, _, _) => assert Visited(n) == Ok(["visit_message_handler"]);
    case CustomMethod(_, _, _, _) => assert Visited(n) == Ok(["visit_custom_method"]);
    case Transform(_, _, _) => assert Visited(n).Err?;
    case EventHandler(_, _, _, _, _) => assert Visited(n) == Ok([]);
    case Property(_, _, _, _, _) => assert Visited(n) == Ok([]);
  }

  lemma DispatchOfNames()
    ensures "visit_component" in Primitives && "visit_component" !in Overrides
    ensures "visit_event_handler" in Primitives && "visit_event_handler" !in Overrides
    ensures "visit_property" in Primitives && "visit_property" !in Overrides
    ensures "visit_expression_binding" in Compounds && "visit_expression_binding" !in Overrides + Primitives
    ensures "visit_property_binding" in Compounds && "visit_property_binding" !in Overrides + Primitives
    ensures "visit_tag_binding" in Compounds && "visit_tag_binding" !in Overrides + Primitives
    ensures "visit_binding" !in Overrides
    ensures "visit_message_handler" in Overrides && "visit_message_handler" in Storing
    ensures "visit_custom_method" in Overrides && "visit_custom_method" in Storing
    ensures "visit_expression_struct_binding" !in VisitorMethods + Overrides
    ensures "visit_query_binding" !in VisitorMethods + Overrides
    ensures "visit_transform" !in VisitorMethods + Overrides
  {
    var s := "visit_expression_struct_binding";
    assert |s| == 31;
    var q := "visit_query_binding";
    assert |q| == 19 && q[6] == 'q';
    var t := "visit_transform";
    assert |t| == 15 && t[6] == 't';
  }

  /** The collection after `accept(n)`: a stored node is put under its path. */
  function CollectVisit(d: Dict<Node>, n: Node): Dict<Node> {
    if Stores(n) then Put(d, n.path, n) else d
  }

  // ---------------------------------------------------------------------
  // The batch.

  /** `line_count` before the first header: there is no preamble, so the header is line 1. */
  const FirstCount: int := 1

  /** `_run_pylint_batch` on the rendered scripts, given what the analyzer did. */
  ghost function BatchIssues(entries: seq<Entry>, outcome: Outcome): Issues {
    LintScriptLegacy.BatchIssues(FirstCount, entries, outcome)
  }

  /** The errors `process_collected_scripts` adds: one `<path>: <issue>` per issue, in order. */
  ghost function BatchErrors(errors: seq<string>, entries: seq<Entry>, analyze: string -> Outcome): seq<string> {
    errors + IssueLines(BatchIssues(entries, analyze(Combined([], entries))))
  }

  /** `process_collected_scripts`: nothing for no scripts, else the errors of their batch. */
  ghost function ScriptErrors(errors: seq<string>, scripts: Dict<Node>, analyze: string -> Outcome): seq<string>
    requires ScriptsOnly(scripts)
  {
    if scripts == [] then errors else BatchErrors(errors, Entries(scripts), analyze)
  }

  /** An empty report (`if output:`) adds no issue. */
  lemma EmptyReportSilent(entries: seq<Entry>)
    ensures BatchIssues(entries, Report("")) == FreshIssues(Paths(entries))
    ensures IssueLines(BatchIssues(entries, Report(""))) == []
  {
    assert Lines("") == [""];
    assert [""][..0] == [];
    var issues := FreshIssues(Paths(entries));
    assert ParseDiagnostic("").None?;
    assert RecordAll(issues, LineMap(entries, FirstCount, |entries|), [""]) == issues;
    EmptyIssueLines(issues);
  }

  method RunPylintBatch(entries: seq<Entry>, analyze: string -> Outcome) returns (r: Issues)
    ensures r == BatchIssues(entries, analyze(Combined([], entries)))
  {
    var content, lineMap := CombineScripts([], entries, FirstCount);
    r := FreshIssues(Paths(entries));
    var outcome := analyze(content);
    match outcome {
      case Report(output) =>
        if output != "" {
          r := ParseOutput(output, lineMap, r);
        } else {
          EmptyReportSilent(entries);
        }
      case Raised(_, text) =>
        r := HandleError(LintScriptLegacy.RunErrorPrefix + text, r);
    }
  }

  /**
   * The combined file opens with the first script's header, and that
   * script's first line is line 2.
   */
  lemma HeaderFirst(entries: seq<Entry>)
    requires entries != [] && PathsOnOneLine(entries)
    ensures Lines(Combined([], entries))[0] == Header(0, entries[0].0)
    ensures FirstLine(entries, FirstCount, 0) == 2
  {
    CombinedLines([], entries);
    BlockLinesAt(entries, |entries|, 0, 0);
    assert Offset(entries, 0) == 0;
    assert [] + BlockLines(entries, |entries|) == BlockLines(entries, |entries|);
  }

  /**
   * A diagnostic the analyzer prints about line `j` (from 0) of script
   * `k` names the real line of the combined file that holds that line of
   * the script, and becomes the error `<path>: Line <j+1>: <message>`.
   */
  lemma DiagnosticReported(errors: seq<string>, entries: seq<Entry>, analyze: string -> Outcome,
                           k: nat, j: nat, i: nat, file: string, column: nat, id: string, message: string)
    requires DistinctPaths(entries) && PathsOnOneLine(entries)
    requires k < |entries| && entries[k].0 != "" && j < ScriptLines(entries[k].1)
    requires analyze(Combined([], entries)).Report?
    requires i < |SplitLines(analyze(Combined([], entries)).output)|
    requires SplitLines(analyze(Combined([], entries)).output)[i]
      == ReportLine(file, FirstLine(entries, FirstCount, k) + j, column, id, message)
    requires id != [] && message != [] && ':' !in id && ':' !in message
    ensures 1 <= FirstLine(entries, FirstCount, k) + j <= |Lines(Combined([], entries))|
    ensures Lines(Combined([], entries))[FirstLine(entries, FirstCount, k) + j - 1] == Lines(entries[k].1)[j]
    ensures entries[k].0 + ": " + IssueText(j + 1, message) in BatchErrors(errors, entries, analyze)
  {
    ScriptLineText([], entries, k, j);
    ReportInErrors(errors, entries, analyze, analyze(Combined([], entries)).output, k, j, i, file, column, id, message);
  }

  /** The error part of `DiagnosticReported`, for the report `out`. */
  lemma ReportInErrors(errors: seq<string>, entries: seq<Entry>, analyze: string -> Outcome, out: string,
                       k: nat, j: nat, i: nat, file: string, column: nat, id: string, message: string)
    requires DistinctPaths(entries) && k < |entries| && entries[k].0 != "" && j < ScriptLines(entries[k].1)
    requires analyze(Combined([], entries)) == Report(out)
    requires i < |SplitLines(out)| && SplitLines(out)[i] == ReportLine(file, FirstLine(entries, FirstCount, k) + j, column, id, message)
    requires id != [] && message != [] && ':' !in id && ':' !in message
    ensures entries[k].0 + ": " + IssueText(j + 1, message) in BatchErrors(errors, entries, analyze)
  {
    var lines := SplitLines(out);
    BatchReported(FirstCount, entries, lines, k, j, i, file, column, id, message);
    var issues := RecordAll(FreshIssues(Paths(entries)), LineMap(entries, FirstCount, |entries|), lines);
    assert BatchIssues(entries, Report(out)) == issues;
    assert BatchErrors(errors, entries, analyze) == errors + IssueLines(issues);
  }

  /** Any exception gives every script, in order, the one error `<path>: Error running pylint: <text>`. */
  lemma FailureReported(errors: seq<string>, entries: seq<Entry>, analyze: string -> Outcome)
    requires analyze(Combined([], entries)).Raised?
    ensures var out := analyze(Combined([], entries));
      BatchErrors(errors, entries, analyze)
        == errors + seq(|entries|, p requires 0 <= p < |entries| => entries[p].0 + ": " + (LintScriptLegacy.RunErrorPrefix + out.text))
  {
    var out := analyze(Combined([], entries));
    LintScriptLegacy.FailureReported(FirstCount, entries, out.failure, out.text);
  }

  // ---------------------------------------------------------------------
  // The rule.

  /**
   * `PylintScriptRule`, with the collection of `ScriptLintingRule`. Each
   * node is rendered with `get_formatted_script`, as the other two pylint
   * rules do (see `AsWrittenLintsObjectText` for the rendering as written).
   */
  class PylintScriptRule {
    const analyze: string -> Outcome
    /** Whether the combined file is also copied to the debug directory. */
    var debug: bool
    var errors: seq<string>
    /** `scripts_to_check`: path to node, in insertion order. */
    var scriptsToCheck: Dict<Node>

    ghost predicate Valid()
      reads this
    {
      ScriptsOnly(scriptsToCheck) && Distinct(scriptsToCheck)
    }

    constructor(analyze: string -> Outcome)
      ensures this.analyze == analyze && !debug
      ensures errors == [] && scriptsToCheck == [] && Valid()
    {
      this.analyze := analyze;
      debug := false;
      errors := [];
      scriptsToCheck := [];
    }

    /**
     * `node.accept(self)`: a message handler or custom method is stored
     * under its path, replacing an earlier one in place; a node the rule
     * has no visit for raises.
     */
    method Accept(n: Node) returns (raised: Option<string>)
      requires Valid()
      modifies this
      ensures raised.Some? <==> Visited(n).Err?
      ensures raised.Some? ==> raised.value == MissingGeneric
      ensures scriptsToCheck == CollectVisit(old(scriptsToCheck), n)
      ensures errors == old(errors) && debug == old(debug) && Valid()
    {
      var v := Visited(n);
      if v.Err? {
        return Some(v.error);
      }
      raised := None;
      if StoresAny(v.value) {
        VisitKinds(n);
        PutGet(scriptsToCheck, n.path, n);
        scriptsToCheck := Put(scriptsToCheck, n.path, n);
      }
    }

    /** `process_collected_scripts`: the errors of one batch over the collection, which is then emptied. */
    method ProcessCollectedScripts()
      requires Valid()
      modifies this
      ensures debug == old(debug) && scriptsToCheck == [] && Valid()
      ensures errors == ScriptErrors(old(errors), old(scriptsToCheck), analyze)
    {
      if scriptsToCheck == [] {
        return;
      }
      var issues := RunPylintBatch(Entries(scriptsToCheck), analyze);
      errors := AppendIssueLines(errors, issues);
      scriptsToCheck := [];
    }
  }
}
