/**
 * The batch check shared by the three pylint rules (rules/scripts/lint_script.py,
 * rules/lint_script.py and rules/script_rules.py): the scripts are joined
 * into one file behind an optional fixed preamble, each under a
 * `# Script <i>: <path>` header and followed by a blank line; a map from
 * file line to script path lets each diagnostic of the analyzer be
 * reported against its script, at a line relative to the script's start.
 * The variants differ only in the preamble, the line the counter starts
 * from and the error texts, which are parameters here.
 */
module ScriptBatch {
  import opened Wrappers
  import opened PyStr
  import opened Dicts

  // ---------------------------------------------------------------------
  // Lines of a text.

  /** `s.split('\n')`: the lines of `s`, one more than its newlines. */
  function Lines(s: string): (r: seq<string>)
    ensures |r| == CountNewlines(s) + 1
  {
    if s == [] then [""]
    else
      var rest := Lines(s[1..]);
      if s[0] == '\n' then [""] + rest else [[s[0]] + rest[0]] + rest[1..]
  }

  /** A text without a newline is one line. */
  lemma {:induction false} LinesOfLine(s: string)
    requires '\n' !in s
    ensures Lines(s) == [s]
  {
    if s != [] {
      assert '\n' !in s[1..];
      LinesOfLine(s[1..]);
      assert [s[0]] + s[1..] == s;
    }
  }

  /** Joining two texts with a newline joins their lines. */
  lemma {:induction false} LinesJoin(a: string, b: string)
    ensures Lines(a + "\n" + b) == Lines(a) + Lines(b)
  {
    if a == [] {
      assert a + "\n" + b == "\n" + b;
      assert ("\n" + b)[1..] == b;
    } else {
      var s := a + "\n" + b;
      assert s[0] == a[0];
      assert s[1..] == a[1..] + "\n" + b;
      LinesJoin(a[1..], b);
    }
  }

  /** The lines of each part, one after the other. */
  function PartsLines(ps: seq<string>): seq<string> {
    if ps == [] then [] else PartsLines(ps[..|ps| - 1]) + Lines(ps[|ps| - 1])
  }

  lemma {:induction false} JoinSnoc(ps: seq<string>, x: string)
    requires ps != []
    ensures Join("\n", ps + [x]) == Join("\n", ps) + "\n" + x
    decreases |ps|
  {
    if |ps| == 1 {
      assert (ps + [x])[1..] == [x];
    } else {
      assert (ps + [x])[0] == ps[0];
      assert (ps + [x])[1..] == ps[1..] + [x];
      JoinSnoc(ps[1..], x);
    }
  }

  /** The lines of `"\n".join(ps)` are the lines of its parts. */
  lemma {:induction false} LinesOfJoin(ps: seq<string>)
    requires ps != []
    ensures Lines(Join("\n", ps)) == PartsLines(ps)
    decreases |ps|
  {
    var n := |ps| - 1;
    if n == 0 {
      assert PartsLines(ps) == PartsLines([]) + Lines(ps[0]);
    } else {
      var init := ps[..n];
      assert ps == init + [ps[n]];
      JoinSnoc(init, ps[n]);
      LinesJoin(Join("\n", init), ps[n]);
      LinesOfJoin(init);
    }
  }

  lemma {:induction false} PartsLinesAppend(a: seq<string>, b: seq<string>)
    ensures PartsLines(a + b) == PartsLines(a) + PartsLines(b)
    decreases |b|
  {
    if b == [] {
      assert a + b == a;
    } else {
      var n := |b| - 1;
      var ab := a + b;
      assert ab[..|ab| - 1] == a + b[..n];
      assert ab[|ab| - 1] == b[n];
      assert PartsLines(ab) == PartsLines(a + b[..n]) + Lines(b[n]);
      PartsLinesAppend(a, b[..n]);
      assert PartsLines(b) == PartsLines(b[..n]) + Lines(b[n]);
    }
  }

  predicate NoNewlines(ps: seq<string>) {
    forall i :: 0 <= i < |ps| ==> '\n' !in ps[i]
  }

  /** Parts without newlines are their own lines. */
  lemma {:induction false} PartsLinesOfLines(ps: seq<string>)
    requires NoNewlines(ps)
    ensures PartsLines(ps) == ps
    decreases |ps|
  {
    if ps != [] {
      var n := |ps| - 1;
      var init := ps[..n];
      assert NoNewlines(init) by {
        forall i | 0 <= i < |init| ensures '\n' !in init[i] {
          assert init[i] == ps[i];
        }
      }
      PartsLinesOfLines(init);
      LinesOfLine(ps[n]);
      assert PartsLines(ps) == PartsLines(init) + Lines(ps[n]);
      assert init + [ps[n]] == ps;
    }
  }

  // ---------------------------------------------------------------------
  // The combined file and its line map.

  /** A script of the batch: its path and the text it is rendered as. */
  type Entry = (string, string)

  /** `formatted_script.count('\n') + 1` */
  function ScriptLines(text: string): nat {
    CountNewlines(text) + 1
  }

  /** `f"# Script {i+1}: {path}"` */
  function Header(i: nat, path: string): string {
    "# Script " + NatToString(i + 1) + ": " + path
  }

  /** The parts the first `k` scripts add: header, text and blank line each. */
  function Blocks(entries: seq<Entry>, k: nat): seq<string>
    requires k <= |entries|
  {
    if k == 0 then [] else Blocks(entries, k - 1) + [Header(k - 1, entries[k - 1].0), entries[k - 1].1, ""]
  }

  /** `"\n".join(combined_scripts)` */
  function Combined(prefix: seq<string>, entries: seq<Entry>): string {
    Join("\n", prefix + Blocks(entries, |entries|))
  }

  /**
   * The stub lines both pylint rules write before the first script. The
   * long lines are written in pieces only so that the verifier sees
   * quickly that none of them holds a line break.
   */
  const Preamble: seq<string> := [
    "#pylint: disable=" + "unused-argument," + "missing-docstring," + "invalid-name," + "redefined-outer-name",
    "# Stub for common " + "globals, and to " + "simulate the " + "Ignition environment",
    "system = None  " + "# Simulated " + "Ignition system " + "object",
    "self = {} " + "# Simulated self " + "object for script " + "context",
    "event = {}  " + "# Simulated event " + "object",
    ""
  ]

  /** `line_count` once the preamble is counted: the header of the first script is this line. */
  const StartCount: int := 7

  /** Each stub line is one line of the combined file. */
  lemma PreambleOnOneLine()
    ensures |Preamble| == 6 && NoNewlines(Preamble) && StartCount == 1 + |Preamble|
  {
    PreambleHeadOnOneLine();
    PreambleTailOnOneLine();
  }

  lemma PreambleHeadOnOneLine()
    ensures '\n' !in Preamble[0] && '\n' !in Preamble[1]
  {
    assert '\n' !in Preamble[0];
  }

  lemma PreambleTailOnOneLine()
    ensures '\n' !in Preamble[2] && '\n' !in Preamble[3] && '\n' !in Preamble[4]
  {
    assert '\n' !in Preamble[2];
    assert '\n' !in Preamble[3];
  }

  /** How far `line_count` has advanced over the first `k` scripts. */
  function Offset(entries: seq<Entry>, k: nat): nat
    requires k <= |entries|
  {
    if k == 0 then 0 else Offset(entries, k - 1) + ScriptLines(entries[k - 1].1) + 2
  }

  lemma {:induction false} OffsetMono(entries: seq<Entry>, k: nat, m: nat)
    requires k <= m <= |entries|
    ensures Offset(entries, k) <= Offset(entries, m)
    ensures k < m ==> Offset(entries, k) + ScriptLines(entries[k].1) + 2 <= Offset(entries, m)
    decreases m - k
  {
    if k < m {
      OffsetMono(entries, k, m - 1);
    }
  }

  /** `for line_num in range(lo, lo + count): line_map[line_num] = path` */
  function Fill(m: map<int, string>, lo: int, count: nat, path: string): map<int, string> {
    if count == 0 then m else Fill(m, lo, count - 1, path)[lo + count - 1 := path]
  }

  lemma {:induction false} FillSpec(m: map<int, string>, lo: int, count: nat, path: string, l: int)
    ensures l in Fill(m, lo, count, path) <==> l in m || lo <= l < lo + count
    ensures lo <= l < lo + count ==> Fill(m, lo, count, path)[l] == path
    ensures l in m && !(lo <= l < lo + count) ==> Fill(m, lo, count, path)[l] == m[l]
  {
    if count > 0 {
      FillSpec(m, lo, count - 1, path, l);
    }
  }

  /** The first file line of script `k`, right after its header. */
  function FirstLine(entries: seq<Entry>, init: int, k: nat): int
    requires k < |entries|
  {
    init + Offset(entries, k) + 1
  }

  /**
   * The line map after the first `k` scripts when `line_count` starts at
   * `init`: script `i` owns the `ScriptLines` lines after its header.
   */
  function LineMap(entries: seq<Entry>, init: int, k: nat): map<int, string>
    requires k <= |entries|
  {
    if k == 0 then map[]
    else Fill(LineMap(entries, init, k - 1), FirstLine(entries, init, k - 1), ScriptLines(entries[k - 1].1), entries[k - 1].0)
  }

  /** The lines of the combined file: the preamble, then each script's block. */
  function BlockLines(entries: seq<Entry>, k: nat): seq<string>
    requires k <= |entries|
  {
    if k == 0 then [] else BlockLines(entries, k - 1) + ([Header(k - 1, entries[k - 1].0)] + Lines(entries[k - 1].1) + [""])
  }

  predicate PathsOnOneLine(entries: seq<Entry>) {
    forall i :: 0 <= i < |entries| ==> '\n' !in entries[i].0
  }

  lemma HeaderOnOneLine(i: nat, path: string)
    requires '\n' !in path
    ensures '\n' !in Header(i, path)
  {
    var d := NatToString(i + 1);
    assert forall k :: 0 <= k < |d| ==> IsDigit(d[k]);
  }

  lemma {:induction false} BlockLinesLength(entries: seq<Entry>, k: nat)
    requires k <= |entries|
    ensures |BlockLines(entries, k)| == Offset(entries, k)
  {
    if k > 0 {
      BlockLinesLength(entries, k - 1);
    }
  }

  /** The lines of one block: the header, the script's lines and the blank line. */
  lemma BlockParts(h: string, t: string)
    requires '\n' !in h
    ensures PartsLines([h, t, ""]) == [h] + Lines(t) + [""]
  {
    assert [h, t, ""][..2] == [h, t];
    assert [h, t][..1] == [h];
    assert [h][..0] == [];
    assert PartsLines([h]) == Lines(h);
    LinesOfLine(h);
    assert PartsLines([h, t]) == [h] + Lines(t);
  }

  /** Appending one block appends its lines. */
  lemma BlockSnoc(parts: seq<string>, lines: seq<string>, h: string, t: string)
    requires PartsLines(parts) == lines && '\n' !in h
    ensures PartsLines(parts + [h, t, ""]) == lines + ([h] + Lines(t) + [""])
  {
    PartsLinesAppend(parts, [h, t, ""]);
    BlockParts(h, t);
  }

  lemma {:induction false} BlocksLines(entries: seq<Entry>, k: nat)
    requires k <= |entries| && PathsOnOneLine(entries)
    ensures PartsLines(Blocks(entries, k)) == BlockLines(entries, k)
  {
    if k > 0 {
      BlocksLines(entries, k - 1);
      var e := entries[k - 1];
      var h := Header(k - 1, e.0);
      HeaderOnOneLine(k - 1, e.0);
      BlockSnoc(Blocks(entries, k - 1), BlockLines(entries, k - 1), h, e.1);
    }
  }

  /**
   * The lines of the combined file are the preamble lines followed by
   * every script's header, lines and blank separator.
   */
  lemma CombinedLines(prefix: seq<string>, entries: seq<Entry>)
    requires NoNewlines(prefix) && PathsOnOneLine(entries)
    requires prefix != [] || entries != []
    ensures Lines(Combined(prefix, entries)) == prefix + BlockLines(entries, |entries|)
  {
    var b := Blocks(entries, |entries|);
    if entries != [] {
      assert |b| >= 3;
    }
    LinesOfJoin(prefix + b);
    PartsLinesAppend(prefix, b);
    PartsLinesOfLines(prefix);
    BlocksLines(entries, |entries|);
  }

  lemma {:induction false} BlockLinesPrefix(entries: seq<Entry>, m: nat, n: nat)
    requires m <= n <= |entries|
    ensures |BlockLines(entries, m)| <= |BlockLines(entries, n)|
    ensures BlockLines(entries, n)[..|BlockLines(entries, m)|] == BlockLines(entries, m)
    decreases n - m
  {
    if m < n {
      BlockLinesPrefix(entries, m, n - 1);
      var prev := BlockLines(entries, n - 1);
      var e := entries[n - 1];
      assert BlockLines(entries, n) == prev + ([Header(n - 1, e.0)] + Lines(e.1) + [""]);
    }
  }

  /** Script `k`'s block starts at `Offset(k)`: its header, then its lines. */
  lemma BlockOfScript(entries: seq<Entry>, k: nat, j: nat)
    requires k < |entries| && j < ScriptLines(entries[k].1)
    ensures Offset(entries, k) + 1 + j < |BlockLines(entries, k + 1)|
    ensures BlockLines(entries, k + 1)[Offset(entries, k)] == Header(k, entries[k].0)
    ensures BlockLines(entries, k + 1)[Offset(entries, k) + 1 + j] == Lines(entries[k].1)[j]
  {
    BlockLinesLength(entries, k);
    var prev := BlockLines(entries, k);
    var e := entries[k];
    assert BlockLines(entries, k + 1) == prev + [Header(k, e.0)] + Lines(e.1) + [""];
  }

  /** Line `j` of script `k` sits right after its header in the block lines. */
  lemma BlockLinesAt(entries: seq<Entry>, n: nat, k: nat, j: nat)
    requires k < n <= |entries|
    requires j < ScriptLines(entries[k].1)
    ensures Offset(entries, k) + 1 + j < |BlockLines(entries, n)|
    ensures BlockLines(entries, n)[Offset(entries, k)] == Header(k, entries[k].0)
    ensures BlockLines(entries, n)[Offset(entries, k) + 1 + j] == Lines(entries[k].1)[j]
  {
    BlockOfScript(entries, k, j);
    BlockLinesPrefix(entries, k + 1, n);
    var pre := BlockLines(entries, k + 1);
    var all := BlockLines(entries, n);
    assert all[Offset(entries, k)] == pre[Offset(entries, k)];
    assert all[Offset(entries, k) + 1 + j] == pre[Offset(entries, k) + 1 + j];
  }

  // ---------------------------------------------------------------------
  // The line map.

  /** Every key of the map lies in the range of one of the scripts. */
  lemma {:induction false} LineMapKeyBlock(entries: seq<Entry>, init: int, n: nat, l: int) returns (k: nat)
    requires n <= |entries| && l in LineMap(entries, init, n)
    ensures k < n && FirstLine(entries, init, k) <= l < FirstLine(entries, init, k) + ScriptLines(entries[k].1)
    decreases n
  {
    var lo := FirstLine(entries, init, n - 1);
    FillSpec(LineMap(entries, init, n - 1), lo, ScriptLines(entries[n - 1].1), entries[n - 1].0, l);
    if lo <= l < lo + ScriptLines(entries[n - 1].1) {
      k := n - 1;
    } else {
      k := LineMapKeyBlock(entries, init, n - 1, l);
    }
  }

  /** The keys lie between `init` and the end of the last script's block. */
  lemma LineMapBounds(entries: seq<Entry>, init: int, n: nat, l: int)
    requires n <= |entries| && l in LineMap(entries, init, n)
    ensures init < l < init + Offset(entries, n)
  {
    var k := LineMapKeyBlock(entries, init, n, l);
    OffsetMono(entries, k, n);
  }

  /** Line `j + 1` of script `k` maps to its path. */
  lemma {:induction false} LineMapAt(entries: seq<Entry>, init: int, n: nat, k: nat, j: nat)
    requires k < n <= |entries| && j < ScriptLines(entries[k].1)
    ensures FirstLine(entries, init, k) + j in LineMap(entries, init, n)
    ensures LineMap(entries, init, n)[FirstLine(entries, init, k) + j] == entries[k].0
    decreases n
  {
    var l := FirstLine(entries, init, k) + j;
    var lo := FirstLine(entries, init, n - 1);
    FillSpec(LineMap(entries, init, n - 1), lo, ScriptLines(entries[n - 1].1), entries[n - 1].0, l);
    if k < n - 1 {
      LineMapAt(entries, init, n - 1, k, j);
      OffsetMono(entries, k, n - 1);
    }
  }

  /** Starting the counter `d` lines later shifts every key by `d`. */
  lemma {:induction false} LineMapShift(entries: seq<Entry>, init: int, d: int, n: nat, l: int)
    requires n <= |entries|
    ensures l in LineMap(entries, init, n) <==> l + d in LineMap(entries, init + d, n)
    ensures l in LineMap(entries, init, n) ==> LineMap(entries, init, n)[l] == LineMap(entries, init + d, n)[l + d]
    decreases n
  {
    if n > 0 {
      LineMapShift(entries, init, d, n - 1, l);
      var lo := FirstLine(entries, init, n - 1);
      var count := ScriptLines(entries[n - 1].1);
      var path := entries[n - 1].0;
      assert FirstLine(entries, init + d, n - 1) == lo + d;
      FillSpec(LineMap(entries, init, n - 1), lo, count, path, l);
      FillSpec(LineMap(entries, init + d, n - 1), lo + d, count, path, l + d);
    }
  }

  // ---------------------------------------------------------------------
  // Which script a line of the combined file belongs to.

  /** Some element of a non-empty set of integers. */
  lemma Witness(s: set<int>) returns (x: int)
    requires s != {}
    ensures x in s
  {
    if forall y :: y !in s {
      assert false;
    }
    x :| x in s;
  }

  /** A non-empty finite set of integers has a greatest element. */
  lemma {:induction false} MaxOf(s: set<int>) returns (m: int)
    requires s != {}
    ensures m in s && forall y :: y in s ==> y <= m
    decreases |s|
  {
    var x := Witness(s);
    if s - {x} == {} {
      m := x;
      assert forall y :: y in s ==> y == x by {
        forall y | y in s ensures y == x {
          assert y !in s - {x};
        }
      }
    } else {
      var m' := MaxOf(s - {x});
      m := if x < m' then m' else x;
      forall y | y in s ensures y <= m {
        if y != x {
          assert y in s - {x};
        }
      }
    }
  }

  /** A non-empty finite set of integers has a least element. */
  lemma {:induction false} MinOf(s: set<int>) returns (m: int)
    requires s != {}
    ensures m in s && forall y :: y in s ==> m <= y
    decreases |s|
  {
    var x := Witness(s);
    if s - {x} == {} {
      m := x;
      assert forall y :: y in s ==> y == x by {
        forall y | y in s ensures y == x {
          assert y !in s - {x};
        }
      }
    } else {
      var m' := MinOf(s - {x});
      m := if m' < x then m' else x;
      forall y | y in s ensures m <= y {
        if y != x {
          assert y in s - {x};
        }
      }
    }
  }

  /** `ln` is the greatest key of the map that is at most `n`. */
  ghost predicate IsOwnerLine(lineMap: map<int, string>, n: int, ln: int) {
    ln in lineMap && ln <= n && forall x :: x in lineMap && x <= n ==> x <= ln
  }

  /**
   * The script a line belongs to: the path at the greatest mapped line at
   * or before it, or none when every mapped line comes after it.
   */
  ghost function Owner(lineMap: map<int, string>, n: int): Option<string> {
    if exists ln :: IsOwnerLine(lineMap, n, ln) then
      var ln :| IsOwnerLine(lineMap, n, ln);
      Some(lineMap[ln])
    else None
  }

  lemma OwnerIs(lineMap: map<int, string>, n: int, ln: int)
    requires IsOwnerLine(lineMap, n, ln)
    ensures Owner(lineMap, n) == Some(lineMap[ln])
  {
    var ln' :| IsOwnerLine(lineMap, n, ln');
    assert IsOwnerLine(lineMap, n, ln');
    assert ln' <= ln && ln <= ln';
  }

  lemma OwnerNone(lineMap: map<int, string>, n: int)
    requires forall x :: x in lineMap ==> x > n
    ensures Owner(lineMap, n) == None
  {
  }

  /** Some line is mapped to `path`. */
  ghost predicate Mapped(lineMap: map<int, string>, path: string) {
    exists ln :: ln in lineMap && lineMap[ln] == path
  }

  /** `ln` is the first line mapped to `path`. */
  ghost predicate IsStartLine(lineMap: map<int, string>, path: string, ln: int) {
    ln in lineMap && lineMap[ln] == path && forall x :: x in lineMap && lineMap[x] == path ==> ln <= x
  }

  lemma StartLineExists(lineMap: map<int, string>, path: string)
    requires Mapped(lineMap, path)
    ensures exists ln :: IsStartLine(lineMap, path, ln)
  {
    var lines := set x | x in lineMap && lineMap[x] == path;
    var w :| w in lineMap && lineMap[w] == path;
    assert w in lines;
    var ln := MinOf(lines);
    forall x | x in lineMap && lineMap[x] == path ensures ln <= x {
      assert x in lines;
    }
    assert IsStartLine(lineMap, path, ln);
  }

  /** `min(ln for ln, p in line_map.items() if p == path)` */
  ghost function StartLine(lineMap: map<int, string>, path: string): int
    requires Mapped(lineMap, path)
  {
    StartLineExists(lineMap, path);
    var ln :| IsStartLine(lineMap, path, ln);
    assert IsStartLine(lineMap, path, ln);
    ln
  }

  lemma StartLineIs(lineMap: map<int, string>, path: string, ln: int)
    requires IsStartLine(lineMap, path, ln)
    ensures Mapped(lineMap, path) && StartLine(lineMap, path) == ln
  {
    var s := StartLine(lineMap, path);
    assert IsStartLine(lineMap, path, s);
    assert s <= ln && ln <= s;
  }

  /** The start line of a mapped path is its least mapped line. */
  lemma StartLineLeast(lineMap: map<int, string>, path: string, x: int)
    requires x in lineMap && lineMap[x] == path
    ensures Mapped(lineMap, path) && StartLine(lineMap, path) <= x
  {
    var s := StartLine(lineMap, path);
    StartLineExists(lineMap, path);
    assert IsStartLine(lineMap, path, s);
  }

  /**
   * A line with an owner belongs to a mapped path whose first line
   * comes at or before it, so its relative line is at least 1.
   */
  lemma OwnerMapped(lineMap: map<int, string>, n: int)
    ensures Owner(lineMap, n).Some? ==> Mapped(lineMap, Owner(lineMap, n).value)
    ensures Owner(lineMap, n).Some? ==> StartLine(lineMap, Owner(lineMap, n).value) <= n
  {
    if exists ln :: IsOwnerLine(lineMap, n, ln) {
      var ln :| IsOwnerLine(lineMap, n, ln);
      OwnerIs(lineMap, n, ln);
      StartLineLeast(lineMap, lineMap[ln], ln);
    }
  }

  /** Paths of distinct scripts differ. */
  predicate DistinctPaths(entries: seq<Entry>) {
    forall i, j :: 0 <= i < j < |entries| ==> entries[i].0 != entries[j].0
  }

  /**
   * Every line from the first line of script `k` up to the header of the
   * next script (its lines, its blank separator and that header) belongs
   * to script `k`; lines before the first script belong to none.
   */
  lemma OwnerOfLine(entries: seq<Entry>, init: int, k: nat, l: int)
    requires k < |entries|
    requires init + Offset(entries, k) < l <= init + Offset(entries, k + 1)
    ensures Owner(LineMap(entries, init, |entries|), l) == Some(entries[k].0)
  {
    var m := LineMap(entries, init, |entries|);
    var last := FirstLine(entries, init, k) + ScriptLines(entries[k].1) - 1;
    var ln := if l <= last then l else last;
    LineMapAt(entries, init, |entries|, k, ln - FirstLine(entries, init, k));
    forall x | x in m && x <= l ensures x <= ln {
      var b := LineMapKeyBlock(entries, init, |entries|, x);
      if b < k {
        OffsetMono(entries, b, k);
      } else if b > k {
        OffsetMono(entries, k + 1, b);
      }
    }
    OwnerIs(m, l, ln);
  }

  /** A single script starts on the line after its header. */
  lemma FirstLineOfOnlyScript(e: Entry, init: int)
    ensures FirstLine([e], init, 0) == init + 1
  {
    assert Offset([e], 0) == 0;
  }

  /** With a single script, every line after its header belongs to it. */
  lemma OwnerOfOnlyScript(e: Entry, init: int, l: int)
    requires init < l
    ensures Owner(LineMap([e], init, 1), l) == Some(e.0)
  {
    var m := LineMap([e], init, 1);
    var n := ScriptLines(e.1);
    var last := init + n;
    var ln := if l <= last then l else last;
    assert Offset([e], 0) == 0 && LineMap([e], init, 0) == map[];
    assert FirstLine([e], init, 0) == init + 1;
    assert m == Fill(map[], init + 1, n, e.0);
    FillSpec(map[], init + 1, n, e.0, ln);
    forall x | x in m && x <= l
      ensures x <= ln
    {
      FillSpec(map[], init + 1, n, e.0, x);
    }
    OwnerIs(m, l, ln);
  }

  lemma OwnerBeforeFirst(entries: seq<Entry>, init: int, l: int)
    requires l <= init
    ensures Owner(LineMap(entries, init, |entries|), l) == None
  {
    var m := LineMap(entries, init, |entries|);
    forall x | x in m ensures x > l {
      LineMapBounds(entries, init, |entries|, x);
    }
  }

  /** With distinct paths, only script `k`'s lines map to its path. */
  lemma KeyOfScript(entries: seq<Entry>, init: int, k: nat, x: int)
    requires k < |entries| && DistinctPaths(entries)
    requires x in LineMap(entries, init, |entries|) && LineMap(entries, init, |entries|)[x] == entries[k].0
    ensures FirstLine(entries, init, k) <= x
  {
    var b := LineMapKeyBlock(entries, init, |entries|, x);
    LineMapAt(entries, init, |entries|, b, x - FirstLine(entries, init, b));
    assert entries[b].0 == entries[k].0;
    assert b == k;
  }

  lemma KeysOfScript(entries: seq<Entry>, init: int, k: nat)
    requires k < |entries| && DistinctPaths(entries)
    ensures forall x :: x in LineMap(entries, init, |entries|) && LineMap(entries, init, |entries|)[x] == entries[k].0 ==> FirstLine(entries, init, k) <= x
  {
    forall x | x in LineMap(entries, init, |entries|) && LineMap(entries, init, |entries|)[x] == entries[k].0
      ensures FirstLine(entries, init, k) <= x
    {
      KeyOfScript(entries, init, k, x);
    }
  }

  /** With distinct paths, script `k` starts right after its header. */
  lemma StartOfScript(entries: seq<Entry>, init: int, k: nat)
    requires k < |entries| && DistinctPaths(entries)
    ensures Mapped(LineMap(entries, init, |entries|), entries[k].0)
    ensures StartLine(LineMap(entries, init, |entries|), entries[k].0) == FirstLine(entries, init, k)
  {
    LineMapAt(entries, init, |entries|, k, 0);
    KeysOfScript(entries, init, k);
    StartLineIs(LineMap(entries, init, |entries|), entries[k].0, FirstLine(entries, init, k));
  }

  /** `_find_script_for_line`: the keys are visited from the greatest down. */
  method FindScriptForLine(n: int, lineMap: map<int, string>) returns (r: Option<string>)
    ensures r == Owner(lineMap, n)
  {
    var rest := lineMap.Keys;
    while rest != {}
      invariant rest <= lineMap.Keys
      invariant forall x :: x in lineMap && x !in rest ==> x > n
      decreases |rest|
    {
      ghost var top := MaxOf(rest);
      var ln :| ln in rest && forall y :: y in rest ==> y <= ln;
      if ln <= n {
        OwnerIs(lineMap, n, ln);
        return Some(lineMap[ln]);
      }
      rest := rest - {ln};
    }
    OwnerNone(lineMap, n);
    return None;
  }

  /** `_calculate_relative_line`: one plus the distance from the script's first line. */
  method CalculateRelativeLine(n: int, path: string, lineMap: map<int, string>) returns (rel: int)
    requires Mapped(lineMap, path)
    ensures rel == n - StartLine(lineMap, path) + 1
  {
    var rest := lineMap.Keys;
    var start: Option<int> := None;
    while rest != {}
      invariant rest <= lineMap.Keys
      invariant start.None? ==> forall x :: x in lineMap && x !in rest ==> lineMap[x] != path
      invariant start.Some? ==> start.value in lineMap && start.value !in rest && lineMap[start.value] == path
      invariant start.Some? ==> forall x :: x in lineMap && x !in rest && lineMap[x] == path ==> start.value <= x
      decreases |rest|
    {
      ghost var some := Witness(rest);
      var ln :| ln in rest;
      if lineMap[ln] == path && (start.None? || ln < start.value) {
        start := Some(ln);
      }
      rest := rest - {ln};
    }
    ghost var w :| w in lineMap && lineMap[w] == path;
    assert start.Some?;
    StartLineIs(lineMap, path, start.value);
    return n - start.value + 1;
  }

  // ---------------------------------------------------------------------
  // Building the combined file.

  /**
   * `_combine_scripts`: the preamble, then each script under its header
   * and followed by a blank line, while `line_count`, starting at `init`,
   * records which lines each script occupies.
   */
  method CombineScripts(prefix: seq<string>, entries: seq<Entry>, init: int) returns (content: string, lineMap: map<int, string>)
    ensures content == Combined(prefix, entries)
    ensures lineMap == LineMap(entries, init, |entries|)
  {
    var parts := prefix;
    lineMap := map[];
    var lineCount := init;
    var i := 0;
    while i < |entries|
      invariant 0 <= i <= |entries|
      invariant parts == prefix + Blocks(entries, i)
      invariant lineMap == LineMap(entries, init, i)
      invariant lineCount == init + Offset(entries, i)
    {
      var (path, text) := entries[i];
      var header := "# Script " + NatToString(i + 1) + ": " + path;
      parts := parts + [header];
      lineCount := lineCount + 1;
      var scriptLines := CountNewlines(text) + 1;
      var n := lineCount;
      while n < lineCount + scriptLines
        invariant lineCount <= n <= lineCount + scriptLines
        invariant lineMap == Fill(LineMap(entries, init, i), lineCount, n - lineCount, path)
      {
        lineMap := lineMap[n := path];
        n := n + 1;
      }
      parts := parts + [text];
      lineCount := lineCount + scriptLines;
      parts := parts + [""];
      lineCount := lineCount + 1;
      assert parts == prefix + Blocks(entries, i) + [header, text, ""];
      i := i + 1;
    }
    content := Join("\n", parts);
  }

  /**
   * File line `FirstLine(k) + j` belongs to script `k` and lies `j + 1`
   * lines into it, wherever the counter starts.
   */
  lemma ScriptLineOwned(entries: seq<Entry>, init: int, k: nat, j: nat)
    requires DistinctPaths(entries)
    requires k < |entries| && j < ScriptLines(entries[k].1)
    ensures Owner(LineMap(entries, init, |entries|), FirstLine(entries, init, k) + j) == Some(entries[k].0)
    ensures Mapped(LineMap(entries, init, |entries|), entries[k].0)
    ensures FirstLine(entries, init, k) + j - StartLine(LineMap(entries, init, |entries|), entries[k].0) + 1 == j + 1
  {
    OffsetMono(entries, k, k + 1);
    OwnerOfLine(entries, init, k, FirstLine(entries, init, k) + j);
    StartOfScript(entries, init, k);
  }

  /**
   * When the counter starts on the line after the preamble, file line
   * `FirstLine(k) + j` (counting from 1) holds line `j` of script `k`.
   */
  lemma ScriptLineText(prefix: seq<string>, entries: seq<Entry>, k: nat, j: nat)
    requires NoNewlines(prefix) && PathsOnOneLine(entries)
    requires k < |entries| && j < ScriptLines(entries[k].1)
    ensures 1 <= FirstLine(entries, |prefix| + 1, k) + j <= |Lines(Combined(prefix, entries))|
    ensures Lines(Combined(prefix, entries))[FirstLine(entries, |prefix| + 1, k) + j - 1] == Lines(entries[k].1)[j]
  {
    CombinedLines(prefix, entries);
    BlockLinesAt(entries, |entries|, k, j);
    var all := prefix + BlockLines(entries, |entries|);
    assert all[|prefix| + Offset(entries, k) + 1 + j] == BlockLines(entries, |entries|)[Offset(entries, k) + 1 + j];
  }

  // ---------------------------------------------------------------------
  // Diagnostics: the pattern `.*:(\d+):\d+: .+: (.+)`.

  /** A diagnostic: the line of the combined file it names and its message. */
  datatype Diagnostic = Diagnostic(line: nat, message: string)

  /**
   * The whole pattern matches with `.*` ending before `a`, the line digits
   * in `s[a+1..c]`, the column digits in `s[c+1..e]`, the `": "` closing
   * the message id at `q` and the message in `s[q+2..]`. Lines come from
   * `splitlines`, so no character is a line break and `.` matches each.
   */
  predicate Matched(s: string, a: nat, c: nat, e: nat, q: nat) {
    && a + 1 < c && c + 1 < e && e + 3 <= q && q + 2 < |s|
    && s[a] == ':' && DigitSpan(s, a + 1, c) && s[c] == ':'
    && DigitSpan(s, c + 1, e) && OccursAt(s, ": ", e)
    && OccursAt(s, ": ", q)
  }

  /** `:(\d+):\d+: ` at `a`: the digit runs are forced, so the ends are too. */
  function ColumnEnd(s: string, a: nat): (r: Option<(nat, nat)>)
    ensures r.Some? ==> var (c, e) := r.value;
      && a < c < e && e + 2 <= |s| && s[a] == ':' && DigitSpan(s, a + 1, c) && s[c] == ':'
      && DigitSpan(s, c + 1, e) && OccursAt(s, ": ", e)
  {
    if a < |s| && s[a] == ':' then
      var c := DigitsEnd(s, a + 1);
      if c > a + 1 && c < |s| && s[c] == ':' then
        var e := DigitsEnd(s, c + 1);
        if e > c + 1 && OccursAt(s, ": ", e) then Some((c, e)) else None
      else None
    else None
  }

  /** Any match at `a` has the digit runs `ColumnEnd` finds. */
  lemma ColumnEndOfMatch(s: string, a: nat, c: nat, e: nat, q: nat)
    requires Matched(s, a, c, e, q)
    ensures ColumnEnd(s, a) == Some((c, e))
  {
    assert DigitsEnd(s, a + 1) == c by {
      DigitsEndAt(s, a + 1, c);
    }
    assert DigitsEnd(s, c + 1) == e by {
      DigitsEndAt(s, c + 1, e);
    }

  }

  lemma {:induction false} DigitsEndAt(s: string, b: nat, c: nat)
    requires b <= c < |s| && DigitSpan(s, b, c) && !IsDigit(s[c])
    ensures DigitsEnd(s, b) == c
    decreases c - b
  {
    if b < c {
      DigitsEndAt(s, b + 1, c);
    }
  }

  /** The last `": "` at or after `lo` and at most `q` that leaves a message behind it. */
  function SepDown(s: string, lo: nat, q: int): (r: Option<nat>)
    ensures r.Some? ==> lo <= r.value <= q && OccursAt(s, ": ", r.value) && r.value + 2 < |s|
    ensures r.Some? ==> forall q' :: r.value < q' <= q && q' + 2 < |s| ==> !OccursAt(s, ": ", q')
    ensures r.None? ==> forall q' :: lo <= q' <= q && q' + 2 < |s| ==> !OccursAt(s, ": ", q')
    decreases q - lo + 1
  {
    if q < lo then None
    else if q + 2 < |s| && OccursAt(s, ": ", q) then Some(q)
    else SepDown(s, lo, q - 1)
  }

  /** The rest of the pattern matches when `.*` stops before `a`. */
  predicate TailAt(s: string, a: nat) {
    ColumnEnd(s, a).Some? && SepDown(s, ColumnEnd(s, a).value.1 + 3, |s| - 3).Some?
  }

  /** A match at `a` means the rest of the pattern matches there. */
  lemma TailOfMatch(s: string, a: nat, c: nat, e: nat, q: nat)
    requires Matched(s, a, c, e, q)
    ensures TailAt(s, a) && a < |s|
  {
    ColumnEndOfMatch(s, a, c, e, q);
    var r := SepDown(s, e + 3, |s| - 3);
    assert r.Some? by {
      assert e + 3 <= q <= |s| - 3 && q + 2 < |s| && OccursAt(s, ": ", q);
    }
  }

  /** The greatest `a' <= a` where the rest matches: `.*` backtracks from the longest. */
  function MatchDown(s: string, a: int): (r: Option<nat>)
    ensures r.Some? ==> r.value <= a && TailAt(s, r.value)
    ensures r.Some? ==> forall a' :: r.value < a' <= a ==> !TailAt(s, a')
    ensures r.None? ==> forall a' :: 0 <= a' <= a ==> !TailAt(s, a')
    decreases a + 1
  {
    if a < 0 then None
    else if TailAt(s, a) then Some(a)
    else MatchDown(s, a - 1)
  }

  /** The two groups of a match: the line as a number, and the message. */
  function Groups(s: string, a: nat, c: nat, q: nat): Diagnostic
    requires a < c <= |s| && DigitSpan(s, a + 1, c) && q + 2 <= |s|
  {
    var digits := s[a + 1..c];
    assert AllDigits(digits) by {
      forall i | 0 <= i < |digits| ensures IsDigit(digits[i]) {
        assert digits[i] == s[a + 1 + i];
      }
    }
    Diagnostic(DigitsValue(digits), s[q + 2..])
  }

  /** `re.match(pattern, line)` and its two groups. */
  function ParseDiagnostic(s: string): Option<Diagnostic> {
    match MatchDown(s, |s| - 1)
    case None => None
    case Some(a) =>
      var (c, e) := ColumnEnd(s, a).value;
      Some(Groups(s, a, c, SepDown(s, e + 3, |s| - 3).value))
  }

  /** No match of the whole pattern anywhere. */
  ghost predicate NoMatch(s: string) {
    forall a: nat, c: nat, e: nat, q: nat :: !Matched(s, a, c, e, q)
  }

  /** A line matches the pattern exactly when `ParseDiagnostic` finds a diagnostic. */
  lemma ParseDiagnosticNone(s: string)
    ensures ParseDiagnostic(s).None? <==> NoMatch(s)
  {
    if ParseDiagnostic(s).None? {
      forall a: nat, c: nat, e: nat, q: nat ensures !Matched(s, a, c, e, q) {
        if Matched(s, a, c, e, q) {
          TailOfMatch(s, a, c, e, q);
        }
      }
    } else {
      var a := MatchDown(s, |s| - 1).value;
      var c := ColumnEnd(s, a).value.0;
      var e := ColumnEnd(s, a).value.1;
      var q := SepDown(s, e + 3, |s| - 3).value;
      assert Matched(s, a, c, e, q);
    }
  }

  /**
   * The diagnostic found reads the groups of a match: the one Python's
   * backtracking picks, with the last possible start of `:(\d+):` and
   * within it the last possible `": "` before the message.
   */
  lemma ParseDiagnosticFound(s: string) returns (a: nat, c: nat, e: nat, q: nat)
    requires ParseDiagnostic(s).Some?
    ensures Matched(s, a, c, e, q)
    ensures ParseDiagnostic(s) == Some(Groups(s, a, c, q))
    ensures forall a': nat, c': nat, e': nat, q': nat :: Matched(s, a', c', e', q') ==> a' <= a
    ensures forall q': nat :: Matched(s, a, c, e, q') ==> q' <= q
  {
    a := MatchDown(s, |s| - 1).value;
    c := ColumnEnd(s, a).value.0;
    e := ColumnEnd(s, a).value.1;
    q := SepDown(s, e + 3, |s| - 3).value;
    forall a': nat, c': nat, e': nat, q': nat | Matched(s, a', c', e', q') ensures a' <= a {
      TailOfMatch(s, a', c', e', q');
    }
  }

  /** Every match starts at or before the one `ParseDiagnostic` reads. */
  lemma ParseDiagnosticGreedy(s: string, a: nat, c: nat, e: nat, q: nat)
    requires Matched(s, a, c, e, q)
    ensures MatchDown(s, |s| - 1).Some? && a <= MatchDown(s, |s| - 1).value
    ensures MatchDown(s, |s| - 1) == Some(a) ==> q <= SepDown(s, e + 3, |s| - 3).value
  {
    TailOfMatch(s, a, c, e, q);
  }

  /** A line as pylint's text reporter writes it: `path:line:column: id: message`. */
  function ReportLine(file: string, line: nat, column: nat, id: string, message: string): string {
    file + (":" + (NatToString(line) + (":" + (NatToString(column) + (": " + (id + (": " + message)))))))
  }

  /**
   * The pieces of such a line by position: the file, then the colon at
   * `a`, the line digits, the colon at `c`, the column digits, `": "` at
   * `e`, the id, `": "` at `q` and the message.
   */
  predicate Shaped(s: string, a: nat, n: string, k: string, id: string, message: string) {
    var c := a + 1 + |n|;
    var e := c + 1 + |k|;
    var q := e + 2 + |id|;
    && |s| == q + 2 + |message|
    && s[a] == ':' && s[a + 1..c] == n && s[c] == ':' && s[c + 1..e] == k
    && s[e] == ':' && s[e + 1] == ' ' && s[e + 2..q] == id
    && s[q] == ':' && s[q + 1] == ' ' && s[q + 2..] == message
  }

  /** A suffix that starts with a separator and a field splits at both. */
  lemma SuffixFields(s: string, a: nat, sep: string, x: string, rest: string)
    requires a <= |s| && s[a..] == sep + (x + rest)
    ensures a + |sep| + |x| <= |s|
    ensures s[a..a + |sep|] == sep && s[a + |sep|..a + |sep| + |x|] == x && s[a + |sep| + |x|..] == rest
  {
    assert s[a..a + |sep|] == s[a..][..|sep|];
    assert s[a + |sep|..a + |sep| + |x|] == s[a..][|sep|..|sep| + |x|];
    assert s[a + |sep| + |x|..] == s[a..][|sep| + |x|..];
  }

  lemma ReportLineShaped(file: string, line: nat, column: nat, id: string, message: string)
    ensures Shaped(ReportLine(file, line, column, id, message), |file|, NatToString(line), NatToString(column), id, message)
  {
    var n := NatToString(line);
    var k := NatToString(column);
    var t4 := ": " + message;
    var t3 := ": " + (id + t4);
    var t2 := ":" + (k + t3);
    var t1 := ":" + (n + t2);
    var s := ReportLine(file, line, column, id, message);
    assert s[|file|..] == t1;
    ShapedOfTails(s, |file|, n, k, id, message);
  }

  lemma ShapedOfTails(s: string, a: nat, n: string, k: string, id: string, message: string)
    requires a <= |s| && s[a..] == ":" + (n + (":" + (k + (": " + (id + (": " + message))))))
    ensures Shaped(s, a, n, k, id, message)
  {
    var c := a + 1 + |n|;
    SuffixFields(s, a, ":", n, ":" + (k + (": " + (id + (": " + message)))));
    assert s[a] == s[a..a + 1][0];
    ShapedRest(s, c, k, id, message);
  }

  /** The part of a report line after its line digits. */
  lemma ShapedRest(s: string, c: nat, k: string, id: string, message: string)
    requires c <= |s| && s[c..] == ":" + (k + (": " + (id + (": " + message))))
    ensures var e := c + 1 + |k|; var q := e + 2 + |id|;
      && |s| == q + 2 + |message| && s[c] == ':' && s[c + 1..e] == k
      && s[e] == ':' && s[e + 1] == ' ' && s[e + 2..q] == id
      && s[q] == ':' && s[q + 1] == ' ' && s[q + 2..] == message
  {
    var e := c + 1 + |k|;
    var q := e + 2 + |id|;
    SuffixFields(s, c, ":", k, ": " + (id + (": " + message)));
    SuffixFields(s, e, ": ", id, ": " + message);
    SuffixFields(s, q, ": ", message, []);
    assert s[c] == s[c..c + 1][0];
    assert s[e] == s[e..e + 2][0] && s[e + 1] == s[e..e + 2][1];
    assert s[q] == s[q..q + 2][0] && s[q + 1] == s[q..q + 2][1];
  }

  /** Each position of a shaped line holds the piece it falls in. */
  lemma ShapedDigits(s: string, a: nat, n: string, k: string, id: string, message: string, p: nat)
    requires Shaped(s, a, n, k, id, message)
    ensures a + 1 <= p < a + 1 + |n| ==> s[p] == n[p - a - 1]
    ensures a + 2 + |n| <= p < a + 2 + |n| + |k| ==> s[p] == k[p - a - 2 - |n|]
    ensures a + 4 + |n| + |k| <= p < a + 4 + |n| + |k| + |id| ==> s[p] == id[p - a - 4 - |n| - |k|]
    ensures a + 6 + |n| + |k| + |id| <= p < |s| ==> s[p] == message[p - a - 6 - |n| - |k| - |id|]
  {
    var c := a + 1 + |n|;
    var e := c + 1 + |k|;
    var q := e + 2 + |id|;
    if a + 1 <= p < c {
      assert s[a + 1..c][p - a - 1] == s[p];
    }
    if c + 1 <= p < e {
      assert s[c + 1..e][p - c - 1] == s[p];
    }
    if e + 2 <= p < q {
      assert s[e + 2..q][p - e - 2] == s[p];
    }
    if q + 2 <= p < |s| {
      assert s[q + 2..][p - q - 2] == s[p];
    }
  }

  /** In a shaped line the only colon after the file followed by a digit is the one before the column. */
  lemma ShapedColons(s: string, a: nat, n: string, k: string, id: string, message: string, p: nat)
    requires Shaped(s, a, n, k, id, message) && AllDigits(n) && AllDigits(k)
    requires ':' !in id && ':' !in message
    requires a < p && p + 1 < |s|
    ensures s[p] == ':' && IsDigit(s[p + 1]) ==> p == a + 1 + |n|
  {
    var c := a + 1 + |n|;
    var e := c + 1 + |k|;
    var q := e + 2 + |id|;
    ShapedDigits(s, a, n, k, id, message, p);
    if a + 1 <= p < c {
      assert IsDigit(n[p - a - 1]);
    } else if c + 1 <= p < e {
      assert IsDigit(k[p - c - 1]);
    } else if e + 2 <= p < q {
      assert id[p - e - 2] in id;
    } else if q + 2 <= p {
      assert message[p - q - 2] in message;
    }
  }

  /** In a shaped line no `": "` follows the one that ends the id. */
  lemma ShapedSeparators(s: string, a: nat, n: string, k: string, id: string, message: string, q: nat)
    requires Shaped(s, a, n, k, id, message)
    requires ':' !in message
    requires q > a + 4 + |n| + |k| + |id|
    ensures !OccursAt(s, ": ", q)
  {
    var q0 := a + 4 + |n| + |k| + |id|;
    ShapedDigits(s, a, n, k, id, message, q);
    if q + 2 <= |s| {
      assert s[q] == s[q..q + 2][0];
      if q == q0 + 1 {
        assert s[q] == ' ';
      } else {
        assert message[q - q0 - 2] in message;
      }
    }
  }

  /** The pattern matches a shaped line right after the file name. */
  lemma ShapedMatched(s: string, a: nat, n: string, k: string, id: string, message: string)
    requires Shaped(s, a, n, k, id, message) && n != [] && k != [] && id != [] && message != []
    requires AllDigits(n) && AllDigits(k)
    ensures Matched(s, a, a + 1 + |n|, a + 2 + |n| + |k|, a + 4 + |n| + |k| + |id|)
  {
    var c := a + 1 + |n|;
    var e := c + 1 + |k|;
    var q := e + 2 + |id|;
    forall m | a + 1 <= m < c ensures IsDigit(s[m]) {
      ShapedDigits(s, a, n, k, id, message, m);
    }
    forall m | c + 1 <= m < e ensures IsDigit(s[m]) {
      ShapedDigits(s, a, n, k, id, message, m);
    }
    assert s[e..e + 2] == ": ";
    assert s[q..q + 2] == ": ";
  }

  /**
   * A match whose start is followed by no other colon-and-digit but its
   * column separator, and whose id is followed by no other `": "`, is the
   * one read.
   */
  lemma ParsedAt(s: string, a0: nat, c0: nat, e0: nat, q0: nat)
    requires Matched(s, a0, c0, e0, q0)
    requires forall p :: a0 < p && p + 1 < |s| && s[p] == ':' && IsDigit(s[p + 1]) ==> p == c0
    requires forall q :: q0 < q ==> !OccursAt(s, ": ", q)
    ensures ParseDiagnostic(s) == Some(Groups(s, a0, c0, q0))
  {
    ParseDiagnosticNone(s);
    var a, c, e, q := ParseDiagnosticFound(s);
    MatchedColons(s, a, c, e, q);
    assert a <= a0;
    assert a == a0;
    ColumnEndOfMatch(s, a, c, e, q);
    ColumnEndOfMatch(s, a0, c0, e0, q0);
    assert c == c0 && e == e0;
    assert q0 <= q;
  }

  /** A match starts at a colon followed by a digit and holds a second such colon. */
  lemma MatchedColons(s: string, a: nat, c: nat, e: nat, q: nat)
    requires Matched(s, a, c, e, q)
    ensures a < c && c + 1 < |s|
    ensures s[a] == ':' && IsDigit(s[a + 1]) && s[c] == ':' && IsDigit(s[c + 1])
  {
  }

  /**
   * A line in pylint's format yields the line number it names and the
   * message text, whatever the file name holds, provided the id and the
   * message carry no colon.
   */
  lemma ReportLineParsed(file: string, line: nat, column: nat, id: string, message: string)
    requires id != [] && message != [] && ':' !in id && ':' !in message
    ensures ParseDiagnostic(ReportLine(file, line, column, id, message)) == Some(Diagnostic(line, message))
  {
    ReportLineShaped(file, line, column, id, message);
    ShapedParsed(ReportLine(file, line, column, id, message), |file|, NatToString(line), NatToString(column), id, message);
    DigitsValueOfNatToString(line);
  }

  /** A shaped line parses to its line digits and its message. */
  lemma ShapedParsed(s: string, a0: nat, n: string, k: string, id: string, message: string)
    requires Shaped(s, a0, n, k, id, message) && n != [] && k != [] && AllDigits(n) && AllDigits(k)
    requires id != [] && message != [] && ':' !in id && ':' !in message
    ensures ParseDiagnostic(s) == Some(Diagnostic(DigitsValue(n), message))
  {
    var c0 := a0 + 1 + |n|;
    var q0 := a0 + 4 + |n| + |k| + |id|;
    ShapedMatched(s, a0, n, k, id, message);
    ShapedColonsAll(s, a0, n, k, id, message);
    ShapedSeparatorsAll(s, a0, n, k, id, message);
    ParsedAt(s, a0, c0, a0 + 2 + |n| + |k|, q0);
    assert s[a0 + 1..c0] == n && s[q0 + 2..] == message;
  }

  lemma ShapedColonsAll(s: string, a0: nat, n: string, k: string, id: string, message: string)
    requires Shaped(s, a0, n, k, id, message) && AllDigits(n) && AllDigits(k)
    requires ':' !in id && ':' !in message
    ensures forall p :: a0 < p && p + 1 < |s| && s[p] == ':' && IsDigit(s[p + 1]) ==> p == a0 + 1 + |n|
  {
    forall p | a0 < p && p + 1 < |s| && s[p] == ':' && IsDigit(s[p + 1]) ensures p == a0 + 1 + |n| {
      ShapedColons(s, a0, n, k, id, message, p);
    }
  }

  lemma ShapedSeparatorsAll(s: string, a0: nat, n: string, k: string, id: string, message: string)
    requires Shaped(s, a0, n, k, id, message) && ':' !in message
    ensures forall q :: a0 + 4 + |n| + |k| + |id| < q ==> !OccursAt(s, ": ", q)
  {
    forall q | a0 + 4 + |n| + |k| + |id| < q ensures !OccursAt(s, ": ", q) {
      ShapedSeparators(s, a0, n, k, id, message, q);
    }
  }
}
