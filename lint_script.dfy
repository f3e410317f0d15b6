/**
 * `PylintScriptRule` of `rules/scripts/lint_script.py`: every collected
 * script is written, behind a six-line preamble, into one combined file;
 * the analyzer runs once over that file and each diagnostic it prints is
 * handed back to the script whose lines it names, renumbered relative to
 * that script.
 *
 * The analyzer itself (pylint, run on a temporary file) is the parameter
 * `analyze`: what it makes of the combined text, either its report or the
 * exception it raised.
 */
module LintScript {
  import opened Wrappers
  import opened PyStr
  import opened Dicts
  import opened Nodes
  import opened RuleCommon
  import opened ScriptBatch
  import opened ScriptIssues

  const FileErrorPrefix := "Error with file operations during pylint: "
  const ImportErrorPrefix := "Error importing pylint modules: "

  /**
   * `_run_pylint_batch` on the scripts `entries`, given what the analyzer
   * did: a report is parsed into the issue lists; a file or import
   * failure becomes one issue of every script; any other exception
   * leaves the method (`Err`).
   */
  ghost function BatchIssues(entries: seq<Entry>, outcome: Outcome): Result<Issues> {
    var issues := FreshIssues(Paths(entries));
    match outcome
    case Report(output) => Ok(RecordAll(issues, LineMap(entries, StartCount, |entries|), SplitLines(output)))
    case Raised(FileFailure, text) => Ok(AppendAll(issues, FileErrorPrefix + text))
    case Raised(ImportFailure, text) => Ok(AppendAll(issues, ImportErrorPrefix + text))
    case Raised(OtherFailure, text) => Err(text)
  }

  /** The errors `process_scripts` adds for the scripts `entries`: one `<path>: <issue>` per issue, in order. */
  ghost function BatchErrors(errors: seq<string>, entries: seq<Entry>, analyze: string -> Outcome): Result<seq<string>> {
    match BatchIssues(entries, analyze(Combined(Preamble, entries)))
    case Ok(issues) => Ok(errors + IssueLines(issues))
    case Err(text) => Err(text)
  }

  /** `process_scripts`: nothing for no scripts, else the errors of their batch. */
  ghost function ScriptErrors(errors: seq<string>, scripts: Dict<Node>, analyze: string -> Outcome): Result<seq<string>>
    requires ScriptsOnly(scripts)
  {
    if scripts == [] then Ok(errors) else BatchErrors(errors, Entries(scripts), analyze)
  }

  method RunPylintBatch(entries: seq<Entry>, analyze: string -> Outcome) returns (r: Result<Issues>)
    ensures r == BatchIssues(entries, analyze(Combined(Preamble, entries)))
  {
    var content, lineMap := CombineScripts(Preamble, entries, StartCount);
    var issues := FreshIssues(Paths(entries));
    var outcome := analyze(content);
    match outcome {
      case Report(output) =>
        issues := ParseOutput(output, lineMap, issues);
        r := Ok(issues);
      case Raised(FileFailure, text) =>
        issues := HandleError(FileErrorPrefix + text, issues);
        r := Ok(issues);
      case Raised(ImportFailure, text) =>
        issues := HandleError(ImportErrorPrefix + text, issues);
        r := Ok(issues);
      case Raised(OtherFailure, text) =>
        r := Err(text);
    }
  }

  // ---------------------------------------------------------------------
  // What the rule reports.

  /**
   * A diagnostic the analyzer prints about line `j` (from 0) of script
   * `k` names the line of the combined file that holds that line of the
   * script, and becomes the error `<path>: Line <j+1>: <message>`.
   */
  lemma DiagnosticReported(errors: seq<string>, entries: seq<Entry>, analyze: string -> Outcome,
                           k: nat, j: nat, i: nat, file: string, column: nat, id: string, message: string)
    requires DistinctPaths(entries) && PathsOnOneLine(entries)
    requires k < |entries| && entries[k].0 != "" && j < ScriptLines(entries[k].1)
    requires analyze(Combined(Preamble, entries)).Report?
    requires i < |SplitLines(analyze(Combined(Preamble, entries)).output)|
    requires SplitLines(analyze(Combined(Preamble, entries)).output)[i]
      == ReportLine(file, FirstLine(entries, StartCount, k) + j, column, id, message)
    requires id != [] && message != [] && ':' !in id && ':' !in message
    ensures 1 <= FirstLine(entries, StartCount, k) + j <= |Lines(Combined(Preamble, entries))|
    ensures Lines(Combined(Preamble, entries))[FirstLine(entries, StartCount, k) + j - 1] == Lines(entries[k].1)[j]
    ensures BatchErrors(errors, entries, analyze).Ok?
    ensures entries[k].0 + ": " + IssueText(j + 1, message) in BatchErrors(errors, entries, analyze).value
  {
    PreambleOnOneLine();
    ScriptLineText(Preamble, entries, k, j);
    var lines := SplitLines(analyze(Combined(Preamble, entries)).output);
    BatchReported(StartCount, entries, lines, k, j, i, file, column, id, message);
  }

  /** A file or import failure gives every script, in order, the one issue `msg`. */
  lemma BatchFailed(entries: seq<Entry>, failure: Failure, text: string)
    requires failure != OtherFailure
    ensures var msg := (if failure == FileFailure then FileErrorPrefix else ImportErrorPrefix) + text;
      BatchIssues(entries, Raised(failure, text)).Ok? &&
      IssueLines(BatchIssues(entries, Raised(failure, text)).value)
        == seq(|entries|, p requires 0 <= p < |entries| => entries[p].0 + ": " + msg)
  {
    var msg := (if failure == FileFailure then FileErrorPrefix else ImportErrorPrefix) + text;
    var paths := Paths(entries);
    AppendAllFresh(paths, msg);
    FailedLines(paths, msg);
    assert seq(|paths|, p requires 0 <= p < |paths| => paths[p] + ": " + msg)
      == seq(|entries|, p requires 0 <= p < |entries| => entries[p].0 + ": " + msg);
  }

  /** A file or import failure gives every script, in order, one error: the failure's message. */
  lemma FailureReported(errors: seq<string>, entries: seq<Entry>, analyze: string -> Outcome)
    requires analyze(Combined(Preamble, entries)).Raised?
    requires analyze(Combined(Preamble, entries)).failure != OtherFailure
    ensures var out := analyze(Combined(Preamble, entries));
      var msg := (if out.failure == FileFailure then FileErrorPrefix else ImportErrorPrefix) + out.text;
      BatchErrors(errors, entries, analyze)
        == Ok(errors + seq(|entries|, p requires 0 <= p < |entries| => entries[p].0 + ": " + msg))
  {
    var out := analyze(Combined(Preamble, entries));
    BatchFailed(entries, out.failure, out.text);
  }

  /** Diagnostics that name only the preamble (or the first header) report nothing. */
  lemma PreambleSilent(errors: seq<string>, entries: seq<Entry>, analyze: string -> Outcome)
    requires analyze(Combined(Preamble, entries)).Report?
    requires forall l :: l in SplitLines(analyze(Combined(Preamble, entries)).output) ==>
      ParseDiagnostic(l).None? || ParseDiagnostic(l).value.line <= StartCount
    ensures BatchErrors(errors, entries, analyze) == Ok(errors)
  {
    var lines := SplitLines(analyze(Combined(Preamble, entries)).output);
    var issues := FreshIssues(Paths(entries));
    SilentAll(issues, entries, lines);
    EmptyIssueLines(issues);
    assert errors + [] == errors;
  }

  lemma {:induction false} SilentAll(issues: Issues, entries: seq<Entry>, lines: seq<string>)
    requires forall l :: l in lines ==> ParseDiagnostic(l).None? || ParseDiagnostic(l).value.line <= StartCount
    ensures RecordAll(issues, LineMap(entries, StartCount, |entries|), lines) == issues
    decreases |lines|
  {
    if lines != [] {
      var n := |lines| - 1;
      assert forall l :: l in lines[..n] ==> l in lines;
      SilentAll(issues, entries, lines[..n]);
      assert lines[n] in lines;
      if ParseDiagnostic(lines[n]).Some? {
        RecordBeforeScripts(issues, entries, StartCount, lines[n]);
      }
    }
  }

  // ---------------------------------------------------------------------
  // The rule.

  /** `PylintScriptRule`, with the collection of `ScriptRule`. */
  class PylintScriptRule {
    const targets: set<NodeType>
    const analyze: string -> Outcome
    /** Whether the combined file and the report are kept as debug files. */
    var debug: bool
    var errors: seq<string>
    var collectedScripts: Dict<Node>

    ghost predicate Valid()
      reads this
    {
      ScriptsOnly(collectedScripts) && Distinct(collectedScripts)
    }

    constructor(analyze: string -> Outcome)
      ensures targets == AllScripts && this.analyze == analyze && debug
      ensures errors == [] && collectedScripts == [] && Valid()
    {
      targets := AllScripts;
      this.analyze := analyze;
      debug := true;
      errors := [];
      collectedScripts := [];
    }

    /** `error_message` */
    function ErrorMessage(): (r: string)
      ensures |r| > 0
    {
      "Pylint detected issues in script"
    }

    /** The four script visits collect by path; every other visit does nothing. */
    method Accept(n: Node)
      requires Valid()
      modifies this
      ensures collectedScripts == CollectOne(old(collectedScripts), n) && errors == old(errors) && debug == old(debug)
      ensures Valid()
    {
      ghost var before := collectedScripts;
      if IsScript(n) {
        collectedScripts := Put(collectedScripts, n.path, n);
        PutGet(before, n.path, n);
      }
    }

    /**
     * `process_scripts`; `raised` is the exception that escapes it, in
     * which case no error has been added.
     */
    method ProcessScripts(scripts: Dict<Node>) returns (raised: Option<string>)
      requires ScriptsOnly(scripts)
      modifies this
      ensures collectedScripts == old(collectedScripts) && debug == old(debug)
      ensures ScriptErrors(old(errors), scripts, analyze) == if raised.Some? then Err(raised.value) else Ok(errors)
      ensures raised.Some? ==> errors == old(errors)
    {
      if scripts == [] {
        return None;
      }
      var r := RunPylintBatch(Entries(scripts), analyze);
      match r {
        case Ok(issues) =>
          errors := AppendIssueLines(errors, issues);
          raised := None;
        case Err(text) =>
          raised := Some(text);
      }
    }

    /** `post_process`: a non-empty collection goes to `process_scripts` and is emptied once that returns. */
    method PostProcess() returns (raised: Option<string>)
      requires Valid()
      modifies this
      ensures debug == old(debug) && Valid()
      ensures old(collectedScripts) == [] ==> raised.None? && errors == old(errors) && collectedScripts == []
      ensures old(collectedScripts) != [] ==>
        ScriptErrors(old(errors), old(collectedScripts), analyze) == (if raised.Some? then Err(raised.value) else Ok(errors))
      ensures old(collectedScripts) != [] ==> collectedScripts == if raised.Some? then old(collectedScripts) else []
    {
      raised := None;
      if collectedScripts != [] {
        raised := ProcessScripts(collectedScripts);
        if raised.None? {
          collectedScripts := [];
        }
      }
    }

    /** `process_nodes`: forget the errors, visit the applicable nodes, then `post_process`. */
    method ProcessNodes(nodes: seq<Node>) returns (raised: Option<string>)
      requires Valid()
      modifies this
      ensures debug == old(debug) && Valid()
      ensures ScriptsOnly(Collect(old(collectedScripts), FilterByTypes(nodes, targets)))
      ensures var c := Collect(old(collectedScripts), FilterByTypes(nodes, targets));
        (c == [] ==> raised.None? && errors == [] && collectedScripts == []) &&
        (c != [] ==> ScriptErrors([], c, analyze) == (if raised.Some? then Err(raised.value) else Ok(errors))) &&
        (c != [] ==> collectedScripts == if raised.Some? then c else [])
    {
      errors := [];
      var start := collectedScripts;
      var applicable := FilterByTypes(nodes, targets);
      var k := 0;
      while k < |applicable|
        invariant 0 <= k <= |applicable|
        invariant collectedScripts == Collect(start, applicable[..k]) && errors == []
        invariant Valid() && debug == old(debug)
      {
        RunSnoc(CollectOne, start, applicable, k);
        Accept(applicable[k]);
        k := k + 1;
      }
      assert applicable[..k] == applicable;
      CollectScriptsOnly(start, applicable);
      raised := PostProcess();
    }
  }
}
