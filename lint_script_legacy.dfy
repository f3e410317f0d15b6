/**
 * The older `PylintScriptRule` of `rules/lint_script.py`. It combines the
 * scripts behind the same preamble and parses the report the same way as
 * `LintScript`, with two differences: any exception of the run becomes
 * the one issue `Error running pylint: <text>` of every script, and its
 * line counter starts at 1 without counting the six preamble lines, so
 * that every `line_map` key is six too small and every script line it
 * reports is six too high (`AsWrittenMisnumbers`).
 * `BatchIssues` takes the counter's start as a parameter: `AsWrittenStart`
 * as the code reads, `StartCount` as intended; the rule below uses the
 * intended one.
 */
module LintScriptLegacy {
  import opened Wrappers
  import opened PyStr
  import opened Dicts
  import opened Nodes
  import opened RuleCommon
  import opened ScriptBatch
  import opened ScriptIssues

  const RunErrorPrefix := "Error running pylint: "

  /** `line_count` when the first header is counted, as written: the preamble is not counted. */
  const AsWrittenStart: int := 1

  /**
   * `_run_pylint_batch` with the line counter starting at `init`, given
   * what the analyzer did: a report is parsed into the issue lists; any
   * exception becomes one issue of every script.
   */
  ghost function BatchIssues(init: int, entries: seq<Entry>, outcome: Outcome): Issues {
    var issues := FreshIssues(Paths(entries));
    match outcome
    case Report(output) => RecordAll(issues, LineMap(entries, init, |entries|), SplitLines(output))
    case Raised(_, text) => AppendAll(issues, RunErrorPrefix + text)
  }

  /** `process_scripts` with the intended numbering. */
  ghost function ScriptErrors(errors: seq<string>, scripts: Dict<Node>, analyze: string -> Outcome): seq<string>
    requires ScriptsOnly(scripts)
  {
    if scripts == [] then errors
    else errors + IssueLines(BatchIssues(StartCount, Entries(scripts), analyze(Combined(Preamble, Entries(scripts)))))
  }

  method RunPylintBatch(init: int, entries: seq<Entry>, analyze: string -> Outcome) returns (r: Issues)
    ensures r == BatchIssues(init, entries, analyze(Combined(Preamble, entries)))
  {
    var content, lineMap := CombineScripts(Preamble, entries, init);
    r := FreshIssues(Paths(entries));
    var outcome := analyze(content);
    match outcome {
      case Report(output) =>
        r := ParseOutput(output, lineMap, r);
      case Raised(_, text) =>
        r := HandleError(RunErrorPrefix + text, r);
    }
  }

  // ---------------------------------------------------------------------
  // The preamble offset.

  /**
   * One script, and one diagnostic about its line `j` (from 0), which the
   * combined file holds at line `8 + j`: as written the issue reads
   * `Line <j+7>`, as intended `Line <j+1>`, and the two differ.
   */
  lemma AsWrittenMisnumbers(e: Entry, output: string, j: nat, file: string, column: nat, id: string, message: string)
    requires e.0 != "" && j < ScriptLines(e.1)
    requires SplitLines(output) == [ReportLine(file, FirstLine([e], StartCount, 0) + j, column, id, message)]
    requires id != [] && message != [] && ':' !in id && ':' !in message
    ensures FirstLine([e], StartCount, 0) + j == 8 + j
    ensures BatchIssues(AsWrittenStart, [e], Report(output)) == [(e.0, [IssueText(j + 7, message)])]
    ensures BatchIssues(StartCount, [e], Report(output)) == [(e.0, [IssueText(j + 1, message)])]
    ensures IssueText(j + 7, message) != IssueText(j + 1, message)
  {
    FirstLineOfOnlyScript(e, StartCount);
    ReportLineParsed(file, 8 + j, column, id, message);
    SingleReport(e, output, SplitLines(output)[0], j, message);
  }

  lemma SingleReport(e: Entry, output: string, line: string, j: nat, message: string)
    requires e.0 != "" && j < ScriptLines(e.1)
    requires SplitLines(output) == [line] && ParseDiagnostic(line) == Some(Diagnostic(8 + j, message))
    ensures BatchIssues(AsWrittenStart, [e], Report(output)) == [(e.0, [IssueText(j + 7, message)])]
    ensures BatchIssues(StartCount, [e], Report(output)) == [(e.0, [IssueText(j + 1, message)])]
    ensures IssueText(j + 7, message) != IssueText(j + 1, message)
  {
    SingleReportAsWritten(e, output, line, j, message);
    SingleReportCorrected(e, output, line, j, message);
    IssueTextInjective(j + 7, j + 1, message);
  }

  lemma SingleReportAsWritten(e: Entry, output: string, line: string, j: nat, message: string)
    requires e.0 != "" && SplitLines(output) == [line] && ParseDiagnostic(line) == Some(Diagnostic(8 + j, message))
    ensures BatchIssues(AsWrittenStart, [e], Report(output)) == [(e.0, [IssueText(j + 7, message)])]
  {
    var d := Diagnostic(8 + j, message);
    var issues := FreshIssues(Paths([e]));
    var asWritten := LineMap([e], AsWrittenStart, 1);
    assert issues == [(e.0, [])];
    assert HasKey(issues, e.0) by { assert issues[0].0 == e.0; }
    OwnerOfOnlyScript(e, AsWrittenStart, d.line);
    StartOfScript([e], AsWrittenStart, 0);
    assert Offset([e], 0) == 0;
    RecordOwned(issues, asWritten, line, d, e.0);
    SingleRecorded(issues, asWritten, line, e.0, IssueText(j + 7, message));
  }

  lemma SingleReportCorrected(e: Entry, output: string, line: string, j: nat, message: string)
    requires e.0 != "" && j < ScriptLines(e.1)
    requires SplitLines(output) == [line] && ParseDiagnostic(line) == Some(Diagnostic(8 + j, message))
    ensures BatchIssues(StartCount, [e], Report(output)) == [(e.0, [IssueText(j + 1, message)])]
  {
    var d := Diagnostic(8 + j, message);
    var issues := FreshIssues(Paths([e]));
    var lineMap := LineMap([e], StartCount, 1);
    assert issues == [(e.0, [])];
    assert HasKey(issues, e.0) by { assert issues[0].0 == e.0; }
    assert Offset([e], 0) == 0;
    ScriptLineOwned([e], StartCount, 0, j);
    RecordOwned(issues, lineMap, line, d, e.0);
    SingleRecorded(issues, lineMap, line, e.0, IssueText(j + 1, message));
  }

  /** A single line adding issue `t` to the only, empty, list. */
  lemma SingleRecorded(issues: Issues, lineMap: map<int, string>, line: string, p: string, t: string)
    requires issues == [(p, [])] && Target(issues, lineMap, line) == Some((p, t))
    ensures RecordAll(issues, lineMap, [line]) == [(p, [t])]
  {
    assert [line][..0] == [];
    assert Dicts.Find(issues, p) == 0;
    assert [] + [t] == [t];
  }

  /**
   * With the intended numbering, a diagnostic about line `j` (from 0) of
   * script `k` becomes the error `<path>: Line <j+1>: <message>`.
   */
  lemma CorrectedDiagnosticReported(entries: seq<Entry>, output: string, k: nat, j: nat, i: nat,
                                    file: string, column: nat, id: string, message: string)
    requires DistinctPaths(entries) && k < |entries| && entries[k].0 != "" && j < ScriptLines(entries[k].1)
    requires i < |SplitLines(output)| && SplitLines(output)[i] == ReportLine(file, FirstLine(entries, StartCount, k) + j, column, id, message)
    requires id != [] && message != [] && ':' !in id && ':' !in message
    ensures entries[k].0 + ": " + IssueText(j + 1, message) in IssueLines(BatchIssues(StartCount, entries, Report(output)))
  {
    BatchReported(StartCount, entries, SplitLines(output), k, j, i, file, column, id, message);
  }

  /** Any exception gives every script, in order, the one error `<path>: Error running pylint: <text>`. */
  lemma FailureReported(init: int, entries: seq<Entry>, failure: Failure, text: string)
    ensures IssueLines(BatchIssues(init, entries, Raised(failure, text)))
      == seq(|entries|, p requires 0 <= p < |entries| => entries[p].0 + ": " + (RunErrorPrefix + text))
  {
    var paths := Paths(entries);
    var msg := RunErrorPrefix + text;
    AppendAllFresh(paths, msg);
    FailedLines(paths, msg);
    assert seq(|paths|, p requires 0 <= p < |paths| => paths[p] + ": " + msg)
      == seq(|entries|, p requires 0 <= p < |entries| => entries[p].0 + ": " + msg);
  }

  // ---------------------------------------------------------------------
  // The rule.

  /** `PylintScriptRule`, with the collection of `ScriptRule`; no exception leaves `process_scripts`. */
  class PylintScriptRule {
    const targets: set<NodeType>
    const analyze: string -> Outcome
    /** Whether the combined file and the report are kept as debug files. */
    var debug: bool
    var errors: seq<string>
    var collectedScripts: Dict<Node>

    ghost predicate Valid()
      reads this
    {
      ScriptsOnly(collectedScripts) && Distinct(collectedScripts)
    }

    constructor(analyze: string -> Outcome)
      ensures targets == AllScripts && this.analyze == analyze && debug
      ensures errors == [] && collectedScripts == [] && Valid()
    {
      targets := AllScripts;
      this.analyze := analyze;
      debug := true;
      errors := [];
      collectedScripts := [];
    }

    /** The four script visits collect by path; every other visit does nothing. */
    method Accept(n: Node)
      requires Valid()
      modifies this
      ensures collectedScripts == CollectOne(old(collectedScripts), n) && errors == old(errors) && debug == old(debug)
      ensures Valid()
    {
      ghost var before := collectedScripts;
      if IsScript(n) {
        collectedScripts := Put(collectedScripts, n.path, n);
        PutGet(before, n.path, n);
      }
    }

    method ProcessScripts(scripts: Dict<Node>)
      requires ScriptsOnly(scripts)
      modifies this
      ensures collectedScripts == old(collectedScripts) && debug == old(debug)
      ensures errors == ScriptErrors(old(errors), scripts, analyze)
    {
      if scripts == [] {
        return;
      }
      var issues := RunPylintBatch(StartCount, Entries(scripts), analyze);
      errors := AppendIssueLines(errors, issues);
    }

    /** `post_process`: a non-empty collection goes to `process_scripts`, then the collection is emptied. */
    method PostProcess()
      requires Valid()
      modifies this
      ensures debug == old(debug) && collectedScripts == [] && Valid()
      ensures errors == ScriptErrors(old(errors), old(collectedScripts), analyze)
    {
      if collectedScripts != [] {
        ProcessScripts(collectedScripts);
        collectedScripts := [];
      }
    }

    /** `process_nodes`: forget the errors, visit the applicable nodes, then `post_process`. */
    method ProcessNodes(nodes: seq<Node>)
      requires Valid()
      modifies this
      ensures debug == old(debug) && collectedScripts == [] && Valid()
      ensures ScriptsOnly(Collect(old(collectedScripts), FilterByTypes(nodes, targets)))
      ensures errors == ScriptErrors([], Collect(old(collectedScripts), FilterByTypes(nodes, targets)), analyze)
    {
      errors := [];
      var start := collectedScripts;
      var applicable := FilterByTypes(nodes, targets);
      var k := 0;
      while k < |applicable|
        invariant 0 <= k <= |applicable|
        invariant collectedScripts == Collect(start, applicable[..k]) && errors == []
        invariant Valid() && debug == old(debug)
      {
        RunSnoc(CollectOne, start, applicable, k);
        Accept(applicable[k]);
        k := k + 1;
      }
      assert applicable[..k] == applicable;
      CollectScriptsOnly(start, applicable);
      PostProcess();
    }
  }
}
