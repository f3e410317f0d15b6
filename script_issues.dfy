/**
 * What the three pylint rules make of one analyzer run over the combined
 * file: an issue list per script, filled from the diagnostics of the
 * report or, when the run fails, with the failure's message; then one
 * `<path>: <issue>` error per issue.
 */
module ScriptIssues {
  import opened Wrappers
  import opened PyStr
  import opened Dicts
  import opened Nodes
  import opened ScriptBatch

  /** `path_to_issues`: each script's path with its issues, in script order. */
  type Issues = Dict<seq<string>>

  /** How the analyzer run ended: its text report, or an exception of some kind with its text. */
  datatype Failure = FileFailure | ImportFailure | OtherFailure
  datatype Outcome = Report(output: string) | Raised(failure: Failure, text: string)

  // ---------------------------------------------------------------------
  // The scripts of one batch.

  /** `(path, script.get_formatted_script())` for each collected script, in collection order. */
  function Entries(scripts: Dict<Node>): (r: seq<Entry>)
    requires forall i :: 0 <= i < |scripts| ==> IsScript(scripts[i].1)
    ensures |r| == |scripts|
    ensures forall i :: 0 <= i < |r| ==> r[i] == (scripts[i].0, FormatScript(scripts[i].1).1)
    ensures Distinct(scripts) ==> DistinctPaths(r)
  {
    seq(|scripts|, i requires 0 <= i < |scripts| => (scripts[i].0, FormatScript(scripts[i].1).1))
  }

  /** The paths of the scripts, in order. */
  function Paths(entries: seq<Entry>): (r: seq<string>)
    ensures |r| == |entries| && forall i :: 0 <= i < |r| ==> r[i] == entries[i].0
  {
    seq(|entries|, i requires 0 <= i < |entries| => entries[i].0)
  }

  // ---------------------------------------------------------------------
  // Fresh issue lists.

  /** `{path: [] for path in scripts.keys()}` */
  function FreshIssues(paths: seq<string>): (r: Issues)
    ensures |r| == |paths|
  {
    seq(|paths|, i requires 0 <= i < |paths| => (paths[i], []))
  }

  /** Every script starts with an empty list, and no other path has one. */
  lemma FreshIssuesGet(paths: seq<string>, p: string)
    requires forall i, j :: 0 <= i < j < |paths| ==> paths[i] != paths[j]
    ensures Distinct(FreshIssues(paths)) && DictKeys(FreshIssues(paths)) == paths
    ensures Get(FreshIssues(paths), p) == if p in paths then Some([]) else None
  {
    var r := FreshIssues(paths);
    if p in paths {
      var i :| 0 <= i < |paths| && paths[i] == p;
      GetAt(r, i);
    } else {
      assert forall i :: 0 <= i < |r| ==> r[i].0 == paths[i];
    }
  }

  // ---------------------------------------------------------------------
  // Recording diagnostics.

  /** `f"Line {relative_line}: {message}"` */
  function IssueText(rel: int, message: string): string {
    "Line " + IntToString(rel) + ": " + message
  }

  /** Different line numbers give different issue texts. */
  lemma IssueTextInjective(a: nat, b: nat, message: string)
    requires a != b
    ensures IssueText(a, message) != IssueText(b, message)
  {
    var x := NatToString(a);
    var y := NatToString(b);
    if |x| == |y| {
      assert IssueText(a, message)[5..5 + |x|] == x;
      assert IssueText(b, message)[5..5 + |y|] == y;
      DigitsValueOfNatToString(a);
      DigitsValueOfNatToString(b);
    } else {
      assert |IssueText(a, message)| != |IssueText(b, message)|;
    }
  }

  /**
   * The script an output line is recorded against, and the issue: a
   * diagnostic whose line has an owning script that is a non-empty path
   * with an issue list gives that path and `Line <rel>: <message>`.
   */
  ghost function Target(issues: Issues, lineMap: map<int, string>, line: string): (r: Option<(string, string)>)
    ensures r.Some? ==> HasKey(issues, r.value.0)
  {
    match ParseDiagnostic(line)
    case None => None
    case Some(d) =>
      var owner := Owner(lineMap, d.line);
      if owner.Some? && owner.value != "" && HasKey(issues, owner.value) then
        OwnerMapped(lineMap, d.line);
        Some((owner.value, IssueText(d.line - StartLine(lineMap, owner.value) + 1, d.message)))
      else None
  }

  /** One output line: its issue is appended to its script's list; any other line changes nothing. */
  ghost function Record(issues: Issues, lineMap: map<int, string>, line: string): Issues {
    var t := Target(issues, lineMap, line);
    if t.Some? then Put(issues, t.value.0, Get(issues, t.value.0).value + [t.value.1]) else issues
  }

  /** The output lines, recorded in order. */
  ghost function RecordAll(issues: Issues, lineMap: map<int, string>, lines: seq<string>): Issues
    decreases |lines|
  {
    if lines == [] then issues
    else Record(RecordAll(issues, lineMap, lines[..|lines| - 1]), lineMap, lines[|lines| - 1])
  }

  /** The body of the loop of `_parse_pylint_output`, for one line. */
  method RecordLine(issues: Issues, lineMap: map<int, string>, line: string) returns (r: Issues)
    ensures r == Record(issues, lineMap, line)
  {
    r := issues;
    var d := ParseDiagnostic(line);
    if d.Some? {
      var owner := FindScriptForLine(d.value.line, lineMap);
      if owner.Some? && owner.value != "" {
        var existing := Get(issues, owner.value);
        if existing.Some? {
          OwnerMapped(lineMap, d.value.line);
          var rel := CalculateRelativeLine(d.value.line, owner.value, lineMap);
          r := Put(issues, owner.value, existing.value + [IssueText(rel, d.value.message)]);
        }
      }
    }
  }

  /** `_parse_pylint_output`: every line of the report, in order. */
  method ParseOutput(output: string, lineMap: map<int, string>, issues: Issues) returns (r: Issues)
    ensures r == RecordAll(issues, lineMap, SplitLines(output))
  {
    var lines := SplitLines(output);
    r := issues;
    var i := 0;
    while i < |lines|
      invariant 0 <= i <= |lines|
      invariant r == RecordAll(issues, lineMap, lines[..i])
    {
      assert lines[..i + 1][..i] == lines[..i];
      r := RecordLine(r, lineMap, lines[i]);
      i := i + 1;
    }
    assert lines[..i] == lines;
  }

  /**
   * Recording keeps the scripts, in order, with distinct paths, and only
   * ever extends a script's list.
   */
  lemma RecordKeeps(issues: Issues, lineMap: map<int, string>, line: string)
    requires Distinct(issues)
    ensures Distinct(Record(issues, lineMap, line)) && DictKeys(Record(issues, lineMap, line)) == DictKeys(issues)
    ensures forall p :: HasKey(issues, p) ==> Get(issues, p).Some? && Get(Record(issues, lineMap, line), p).Some? && Get(issues, p).value <= Get(Record(issues, lineMap, line), p).value
  {
    var t := Target(issues, lineMap, line);
    if t.Some? {
      PutKeeps(issues, t.value.0, Get(issues, t.value.0).value + [t.value.1]);
    }
  }

  /** Extending one script's list keeps every script, in order. */
  lemma PutKeeps(issues: Issues, p: string, v: seq<string>)
    requires Distinct(issues) && HasKey(issues, p) && Get(issues, p).value <= v
    ensures Distinct(Put(issues, p, v)) && DictKeys(Put(issues, p, v)) == DictKeys(issues)
    ensures forall q :: HasKey(issues, q) ==> Get(issues, q).Some? && Get(Put(issues, p, v), q).Some? && Get(issues, q).value <= Get(Put(issues, p, v), q).value
  {
    var r := Put(issues, p, v);
    PutGet(issues, p, v);
    assert forall i :: 0 <= i < |r| ==> r[i].0 == issues[i].0;
    assert DictKeys(r) == DictKeys(issues);
  }

  lemma {:induction false} RecordAllKeeps(issues: Issues, lineMap: map<int, string>, lines: seq<string>)
    requires Distinct(issues)
    ensures Distinct(RecordAll(issues, lineMap, lines)) && DictKeys(RecordAll(issues, lineMap, lines)) == DictKeys(issues)
    ensures forall p :: HasKey(issues, p) ==> Get(issues, p).Some? && Get(RecordAll(issues, lineMap, lines), p).Some? && Get(issues, p).value <= Get(RecordAll(issues, lineMap, lines), p).value
    decreases |lines|
  {
    if lines != [] {
      var before := RecordAll(issues, lineMap, lines[..|lines| - 1]);
      RecordAllKeeps(issues, lineMap, lines[..|lines| - 1]);
      RecordKeeps(before, lineMap, lines[|lines| - 1]);
      forall p | HasKey(issues, p)
        ensures Get(issues, p).Some? && Get(RecordAll(issues, lineMap, lines), p).Some? && Get(issues, p).value <= Get(RecordAll(issues, lineMap, lines), p).value
      {
        assert HasKey(before, p) by {
          assert Get(before, p).Some?;
        }
      }
    }
  }

  /** Recording two runs of lines is recording the first, then the second. */
  lemma {:induction false} RecordAllAppend(issues: Issues, lineMap: map<int, string>, a: seq<string>, b: seq<string>)
    ensures RecordAll(issues, lineMap, a + b) == RecordAll(RecordAll(issues, lineMap, a), lineMap, b)
    decreases |b|
  {
    if b == [] {
      assert a + b == a;
    } else {
      assert (a + b)[..|a + b| - 1] == a + b[..|b| - 1];
      RecordAllAppend(issues, lineMap, a, b[..|b| - 1]);
    }
  }

  /**
   * A diagnostic about line `j` (from 0) of script `k` of the combined
   * file appends `Line <j + 1>: <message>` to that script's list and to
   * no other.
   */
  lemma RecordDiagnostic(issues: Issues, entries: seq<Entry>, init: nat, k: nat, j: nat, line: string, message: string)
    requires DistinctPaths(entries) && k < |entries| && j < ScriptLines(entries[k].1)
    requires entries[k].0 != "" && HasKey(issues, entries[k].0)
    requires ParseDiagnostic(line) == Some(Diagnostic(FirstLine(entries, init, k) + j, message))
    ensures Record(issues, LineMap(entries, init, |entries|), line)
      == Put(issues, entries[k].0, Get(issues, entries[k].0).value + [IssueText(j + 1, message)])
  {
    ScriptLineOwned(entries, init, k, j);
    RecordOwned(issues, LineMap(entries, init, |entries|), line, Diagnostic(FirstLine(entries, init, k) + j, message), entries[k].0);
  }

  /** So does the analyzer's report line about that line, when its id and message carry no colon. */
  lemma RecordReport(issues: Issues, entries: seq<Entry>, init: nat, k: nat, j: nat,
                     file: string, column: nat, id: string, message: string)
    requires DistinctPaths(entries) && k < |entries| && j < ScriptLines(entries[k].1)
    requires entries[k].0 != "" && HasKey(issues, entries[k].0)
    requires id != [] && message != [] && ':' !in id && ':' !in message
    ensures Record(issues, LineMap(entries, init, |entries|), ReportLine(file, FirstLine(entries, init, k) + j, column, id, message))
      == Put(issues, entries[k].0, Get(issues, entries[k].0).value + [IssueText(j + 1, message)])
  {
    ReportLineParsed(file, FirstLine(entries, init, k) + j, column, id, message);
    RecordDiagnostic(issues, entries, init, k, j, ReportLine(file, FirstLine(entries, init, k) + j, column, id, message), message);
  }

  /** A diagnostic with an owner is recorded against it, at its relative line. */
  lemma RecordOwned(issues: Issues, lineMap: map<int, string>, line: string, d: Diagnostic, p: string)
    requires ParseDiagnostic(line) == Some(d) && Owner(lineMap, d.line) == Some(p)
    requires p != "" && HasKey(issues, p)
    ensures Mapped(lineMap, p)
    ensures Target(issues, lineMap, line) == Some((p, IssueText(d.line - StartLine(lineMap, p) + 1, d.message)))
  {
    OwnerMapped(lineMap, d.line);
  }

  /** A diagnostic about a line at or before the counter's start (the preamble) is dropped. */
  lemma RecordBeforeScripts(issues: Issues, entries: seq<Entry>, init: int, line: string)
    requires ParseDiagnostic(line).Some? && ParseDiagnostic(line).value.line <= init
    ensures Record(issues, LineMap(entries, init, |entries|), line) == issues
  {
    OwnerBeforeFirst(entries, init, ParseDiagnostic(line).value.line);
  }

  /**
   * Wherever it comes in the report, a diagnostic about line `j` of
   * script `k` leaves `Line <j + 1>: <message>` in that script's list.
   */
  lemma ReportedIssue(issues: Issues, entries: seq<Entry>, init: nat, lines: seq<string>, i: nat, k: nat, j: nat, message: string)
    requires Distinct(issues) && DistinctPaths(entries) && k < |entries| && j < ScriptLines(entries[k].1)
    requires entries[k].0 != "" && HasKey(issues, entries[k].0)
    requires i < |lines| && ParseDiagnostic(lines[i]) == Some(Diagnostic(FirstLine(entries, init, k) + j, message))
    ensures Get(RecordAll(issues, LineMap(entries, init, |entries|), lines), entries[k].0).Some?
    ensures IssueText(j + 1, message) in Get(RecordAll(issues, LineMap(entries, init, |entries|), lines), entries[k].0).value
  {
    RecordedAt(issues, entries, init, lines, i, k, j, message);
    RecordedStays(issues, LineMap(entries, init, |entries|), lines, i, entries[k].0, IssueText(j + 1, message));
  }

  /**
   * A diagnostic about line `j` (from 0) of script `k` becomes the issue
   * `Line <j+1>: <message>` of that script.
   */
  lemma BatchDiagnostic(init: nat, entries: seq<Entry>, lines: seq<string>, k: nat, j: nat, i: nat, message: string)
    requires DistinctPaths(entries) && k < |entries| && entries[k].0 != "" && j < ScriptLines(entries[k].1)
    requires i < |lines| && ParseDiagnostic(lines[i]) == Some(Diagnostic(FirstLine(entries, init, k) + j, message))
    ensures entries[k].0 + ": " + IssueText(j + 1, message)
      in IssueLines(RecordAll(FreshIssues(Paths(entries)), LineMap(entries, init, |entries|), lines))
  {
    var paths := Paths(entries);
    var issues := FreshIssues(paths);
    FreshIssuesGet(paths, entries[k].0);
    assert paths[k] == entries[k].0;
    ReportedIssue(issues, entries, init, lines, i, k, j, message);
    IssueError(RecordAll(issues, LineMap(entries, init, |entries|), lines), entries[k].0, IssueText(j + 1, message));
  }

  /** The same for a line of the analyzer's text report. */
  lemma BatchReported(init: nat, entries: seq<Entry>, lines: seq<string>, k: nat, j: nat, i: nat,
                      file: string, column: nat, id: string, message: string)
    requires DistinctPaths(entries) && k < |entries| && entries[k].0 != "" && j < ScriptLines(entries[k].1)
    requires i < |lines| && lines[i] == ReportLine(file, FirstLine(entries, init, k) + j, column, id, message)
    requires id != [] && message != [] && ':' !in id && ':' !in message
    ensures entries[k].0 + ": " + IssueText(j + 1, message)
      in IssueLines(RecordAll(FreshIssues(Paths(entries)), LineMap(entries, init, |entries|), lines))
  {
    ReportLineParsed(file, FirstLine(entries, init, k) + j, column, id, message);
    BatchDiagnostic(init, entries, lines, k, j, i, message);
  }

  /** An issue recorded by line `i` is still there at the end of the report. */
  lemma RecordedStays(issues: Issues, lineMap: map<int, string>, lines: seq<string>, i: nat, p: string, t: string)
    requires i < |lines|
    requires Distinct(RecordAll(issues, lineMap, lines[..i + 1])) && HasKey(RecordAll(issues, lineMap, lines[..i + 1]), p)
    requires t in Get(RecordAll(issues, lineMap, lines[..i + 1]), p).value
    ensures Get(RecordAll(issues, lineMap, lines), p).Some? && t in Get(RecordAll(issues, lineMap, lines), p).value
  {
    var a := lines[..i + 1];
    var b := lines[i + 1..];
    assert a + b == lines;
    StaysAfter(issues, lineMap, a, b, p, t);
  }

  lemma StaysAfter(issues: Issues, lineMap: map<int, string>, a: seq<string>, b: seq<string>, p: string, t: string)
    requires Distinct(RecordAll(issues, lineMap, a)) && HasKey(RecordAll(issues, lineMap, a), p)
    requires t in Get(RecordAll(issues, lineMap, a), p).value
    ensures Get(RecordAll(issues, lineMap, a + b), p).Some? && t in Get(RecordAll(issues, lineMap, a + b), p).value
  {
    RecordAllAppend(issues, lineMap, a, b);
    StaysRecorded(RecordAll(issues, lineMap, a), lineMap, b, p, t);
  }

  /** Right after its line, the issue is the last of the script's list. */
  lemma RecordedAt(issues: Issues, entries: seq<Entry>, init: nat, lines: seq<string>, i: nat, k: nat, j: nat, message: string)
    requires Distinct(issues) && DistinctPaths(entries) && k < |entries| && j < ScriptLines(entries[k].1)
    requires entries[k].0 != "" && HasKey(issues, entries[k].0)
    requires i < |lines| && ParseDiagnostic(lines[i]) == Some(Diagnostic(FirstLine(entries, init, k) + j, message))
    ensures Distinct(RecordAll(issues, LineMap(entries, init, |entries|), lines[..i + 1]))
    ensures HasKey(RecordAll(issues, LineMap(entries, init, |entries|), lines[..i + 1]), entries[k].0)
    ensures IssueText(j + 1, message) in Get(RecordAll(issues, LineMap(entries, init, |entries|), lines[..i + 1]), entries[k].0).value
  {
    var m := LineMap(entries, init, |entries|);
    var p := entries[k].0;
    var before := RecordAll(issues, m, lines[..i]);
    KeepsKey(issues, m, lines[..i], p);
    var v := Get(before, p).value + [IssueText(j + 1, message)];
    RecordDiagnostic(before, entries, init, k, j, lines[i], message);
    assert lines[..i + 1][..i] == lines[..i];
    PutGet(before, p, v);
    assert v[|v| - 1] == IssueText(j + 1, message);
  }

  /** A script keeps its list, and its list only grows, over any run of lines. */
  lemma KeepsKey(issues: Issues, lineMap: map<int, string>, lines: seq<string>, p: string)
    requires Distinct(issues) && HasKey(issues, p)
    ensures Distinct(RecordAll(issues, lineMap, lines)) && HasKey(RecordAll(issues, lineMap, lines), p)
    ensures Get(issues, p).value <= Get(RecordAll(issues, lineMap, lines), p).value
  {
    RecordAllKeeps(issues, lineMap, lines);
  }

  /** An issue once recorded is still there after any further lines. */
  lemma StaysRecorded(issues: Issues, lineMap: map<int, string>, lines: seq<string>, p: string, t: string)
    requires Distinct(issues) && HasKey(issues, p) && t in Get(issues, p).value
    ensures Get(RecordAll(issues, lineMap, lines), p).Some? && t in Get(RecordAll(issues, lineMap, lines), p).value
  {
    KeepsKey(issues, lineMap, lines, p);
    var a := Get(issues, p).value;
    var b := Get(RecordAll(issues, lineMap, lines), p).value;
    var x :| 0 <= x < |a| && a[x] == t;
    assert b[x] == t;
  }

  // ---------------------------------------------------------------------
  // A failed run.

  /** `_handle_pylint_error`: the message is appended to every list. */
  function AppendAll(issues: Issues, msg: string): (r: Issues) {
    seq(|issues|, i requires 0 <= i < |issues| => (issues[i].0, issues[i].1 + [msg]))
  }

  method HandleError(msg: string, issues: Issues) returns (r: Issues)
    ensures r == AppendAll(issues, msg)
  {
    r := issues;
    var i := 0;
    while i < |r|
      invariant |r| == |issues| && 0 <= i <= |r|
      invariant forall j :: 0 <= j < i ==> r[j] == (issues[j].0, issues[j].1 + [msg])
      invariant forall j :: i <= j < |r| ==> r[j] == issues[j]
    {
      r := r[i := (r[i].0, r[i].1 + [msg])];
      i := i + 1;
    }
  }

  /** After a failure every script keeps its place and gets the message last. */
  lemma AppendAllGet(issues: Issues, msg: string, p: string)
    requires Distinct(issues)
    ensures Distinct(AppendAll(issues, msg)) && DictKeys(AppendAll(issues, msg)) == DictKeys(issues)
    ensures Get(AppendAll(issues, msg), p) == if HasKey(issues, p) then Some(Get(issues, p).value + [msg]) else None
  {
    var r := AppendAll(issues, msg);
    assert forall i :: 0 <= i < |r| ==> r[i].0 == issues[i].0;
    assert DictKeys(r) == DictKeys(issues);
    if HasKey(issues, p) {
      var i := Dicts.Find(issues, p);
      FindAt(issues, i);
      GetAt(r, i);
    } else {
      assert forall i :: 0 <= i < |r| ==> r[i].0 == issues[i].0;
    }
  }

  // ---------------------------------------------------------------------
  // Errors.

  /** `f"{path}: {issue}"` for each issue of one script. */
  function PathLines(path: string, list: seq<string>): (r: seq<string>)
    ensures |r| == |list|
  {
    seq(|list|, i requires 0 <= i < |list| => path + ": " + list[i])
  }

  /** The errors of a batch: every issue of every script, script by script. */
  function IssueLines(issues: Issues): seq<string> {
    if issues == [] then [] else IssueLines(issues[..|issues| - 1]) + PathLines(issues[|issues| - 1].0, issues[|issues| - 1].1)
  }

  /** An error is exactly some script's path, `": "` and one of its issues. */
  lemma {:induction false} IssueLinesMembers(issues: Issues, x: string)
    ensures x in IssueLines(issues) <==> exists i, j :: 0 <= i < |issues| && 0 <= j < |issues[i].1| && x == issues[i].0 + ": " + issues[i].1[j]
    decreases |issues|
  {
    if issues != [] {
      var init := issues[..|issues| - 1];
      var last := issues[|issues| - 1];
      IssueLinesMembers(init, x);
      if x in IssueLines(issues) {
        if x in IssueLines(init) {
          var i, j :| 0 <= i < |init| && 0 <= j < |init[i].1| && x == init[i].0 + ": " + init[i].1[j];
          assert issues[i] == init[i];
        } else {
          assert x in PathLines(last.0, last.1);
          var j :| 0 <= j < |last.1| && PathLines(last.0, last.1)[j] == x;
          assert x == issues[|issues| - 1].0 + ": " + issues[|issues| - 1].1[j];
        }
      } else {
        forall i, j | 0 <= i < |issues| && 0 <= j < |issues[i].1| ensures x != issues[i].0 + ": " + issues[i].1[j] {
          if i < |init| {
            assert issues[i] == init[i];
          } else {
            assert PathLines(last.0, last.1)[j] in IssueLines(issues);
          }
        }
      }
    }
  }

  /** There are as many errors as issues. */
  function IssueCount(issues: Issues): nat {
    if issues == [] then 0 else IssueCount(issues[..|issues| - 1]) + |issues[|issues| - 1].1|
  }

  lemma {:induction false} IssueLinesCount(issues: Issues)
    ensures |IssueLines(issues)| == IssueCount(issues)
    decreases |issues|
  {
    if issues != [] {
      IssueLinesCount(issues[..|issues| - 1]);
    }
  }

  /** Scripts without issues give no errors. */
  lemma {:induction false} EmptyIssueLines(issues: Issues)
    requires forall i :: 0 <= i < |issues| ==> issues[i].1 == []
    ensures IssueLines(issues) == []
    decreases |issues|
  {
    if issues != [] {
      EmptyIssueLines(issues[..|issues| - 1]);
    }
  }

  /** Any issue of a script becomes the error `<path>: <issue>`. */
  lemma IssueError(issues: Issues, p: string, t: string)
    requires Get(issues, p).Some? && t in Get(issues, p).value
    ensures p + ": " + t in IssueLines(issues)
  {
    var i := Dicts.Find(issues, p);
    var list := issues[i].1;
    var j :| 0 <= j < |list| && list[j] == t;
    IssueLinesMembers(issues, p + ": " + t);
  }

  /** Every script of a failed run holds the failure's message alone. */
  function FailedIssues(paths: seq<string>, msg: string): (r: Issues)
    ensures |r| == |paths| && forall i :: 0 <= i < |r| ==> r[i] == (paths[i], [msg])
  {
    seq(|paths|, i requires 0 <= i < |paths| => (paths[i], [msg]))
  }

  lemma AppendAllFresh(paths: seq<string>, msg: string)
    ensures AppendAll(FreshIssues(paths), msg) == FailedIssues(paths, msg)
  {
    var issues := FreshIssues(paths);
    forall i | 0 <= i < |paths|
      ensures AppendAll(issues, msg)[i] == FailedIssues(paths, msg)[i]
    {
      assert issues[i] == (paths[i], []);
      assert [] + [msg] == [msg];
    }
  }

  /** The errors of a failed run: one `<path>: <message>` per script, in order. */
  lemma {:induction false} FailedLines(paths: seq<string>, msg: string)
    ensures IssueLines(FailedIssues(paths, msg)) == seq(|paths|, i requires 0 <= i < |paths| => paths[i] + ": " + msg)
    decreases |paths|
  {
    var r := FailedIssues(paths, msg);
    if paths != [] {
      var n := |paths| - 1;
      FailedLines(paths[..n], msg);
      assert r[..n] == FailedIssues(paths[..n], msg);
      assert PathLines(r[n].0, r[n].1) == [paths[n] + ": " + msg];
    }
  }

  /** The loops of `process_scripts` that append one error per issue. */
  method AppendIssueLines(errors: seq<string>, issues: Issues) returns (r: seq<string>)
    ensures r == errors + IssueLines(issues)
  {
    r := errors;
    var i := 0;
    while i < |issues|
      invariant 0 <= i <= |issues|
      invariant r == errors + IssueLines(issues[..i])
    {
      var (path, list) := issues[i];
      var j := 0;
      while j < |list|
        invariant 0 <= j <= |list|
        invariant r == errors + IssueLines(issues[..i]) + PathLines(path, list[..j])
      {
        assert PathLines(path, list[..j + 1]) == PathLines(path, list[..j]) + [path + ": " + list[j]];
        r := r + [path + ": " + list[j]];
        j := j + 1;
      }
      assert list[..j] == list;
      assert issues[..i + 1][..i] == issues[..i];
      i := i + 1;
    }
    assert issues[..i] == issues;
  }
}
