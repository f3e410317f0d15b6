/**
 * `UnusedCustomPropertiesRule` (rules/properties/unused_custom_properties.py):
 * property nodes define view custom properties, view parameters and
 * component custom properties; bindings, scripts and (once the flattened
 * view is handed over) every string value of the view mark them used; at
 * the end each definition that was never marked is reported.
 *
 * The regular expressions of the rule are written out as scanners over
 * the text: `{prefix...}` captures, identifier captures after a prefix,
 * and the one `segment.custom.identifier` search.
 */
module UnusedProperties {
  import opened Wrappers
  import opened PyStr
  import opened Nodes
  import opened Dicts
  import opened JsonValue
  import FlatMaps

  // ---------------------------------------------------------------------
  // Character classes and scanners

  /** `[a-zA-Z_]` */
  predicate IsIdentStart(c: char) { IsAlpha(c) || c == '_' }

  /** `[a-zA-Z0-9_]` */
  predicate IsIdentChar(c: char) { IsIdentStart(c) || IsDigit(c) }

  /** A whole match of `[a-zA-Z_][a-zA-Z0-9_]*`. */
  predicate IsIdentifier(x: string) {
    x != [] && IsIdentStart(x[0]) && forall i :: 0 <= i < |x| ==> IsIdentChar(x[i])
  }

  /** End of the run of identifier characters from `k`. */
  function IdentEnd(s: string, k: nat): (j: nat)
    requires k <= |s|
    ensures k <= j <= |s|
    decreases |s| - k
  {
    if k == |s| || !IsIdentChar(s[k]) then k else IdentEnd(s, k + 1)
  }

  lemma {:induction false} IdentEndSpec(s: string, k: nat)
    requires k <= |s|
    ensures IdentEnd(s, k) < |s| ==> !IsIdentChar(s[IdentEnd(s, k)])
    ensures forall i :: k <= i < IdentEnd(s, k) ==> IsIdentChar(s[i])
    decreases |s| - k
  {
    if k < |s| && IsIdentChar(s[k]) {
      IdentEndSpec(s, k + 1);
    }
  }

  /** An identifier at the end of the text is captured whole. */
  lemma {:induction false} IdentEndOfIdentifier(u: string, x: string, k: nat)
    requires IsIdentifier(x) && k <= |x|
    ensures IdentEnd(u + x, |u| + k) == |u + x|
    decreases |x| - k
  {
    if k < |x| {
      assert (u + x)[|u| + k] == x[k];
      IdentEndOfIdentifier(u, x, k + 1);
    }
  }

  /** The first `}` at or after `k`, or the end of the text. */
  function BraceEnd(s: string, k: nat): (j: nat)
    requires k <= |s|
    ensures k <= j <= |s|
    decreases |s| - k
  {
    if k == |s| || s[k] == '}' then k else BraceEnd(s, k + 1)
  }

  lemma {:induction false} BraceEndSpec(s: string, k: nat)
    requires k <= |s|
    ensures BraceEnd(s, k) < |s| ==> s[BraceEnd(s, k)] == '}'
    ensures forall i :: k <= i < BraceEnd(s, k) ==> s[i] != '}'
    decreases |s| - k
  {
    if k < |s| && s[k] != '}' {
      BraceEndSpec(s, k + 1);
    }
  }

  /** The first `.` at or after `k`, or the end of the text. */
  function DotEnd(s: string, k: nat): (j: nat)
    requires k <= |s|
    ensures k <= j <= |s|
    decreases |s| - k
  {
    if k == |s| || s[k] == '.' then k else DotEnd(s, k + 1)
  }

  lemma {:induction false} DotEndSpec(s: string, k: nat)
    requires k <= |s|
    ensures DotEnd(s, k) < |s| ==> s[DotEnd(s, k)] == '.'
    ensures forall i :: k <= i < DotEnd(s, k) ==> s[i] != '.'
    decreases |s| - k
  {
    if k < |s| && s[k] != '.' {
      DotEndSpec(s, k + 1);
    }
  }

  /**
   * `re.findall` of `<p>([^}]+)\}` from index `i`, `p` a literal without
   * a `}`: after a match the scan resumes behind its `}`.
   */
  function BraceCaptures(s: string, p: string, i: nat): seq<string>
    decreases |s| - i
  {
    if i + |p| > |s| then []
    else
      var j := BraceEnd(s, i + |p|);
      if OccursAt(s, p, i) && i + |p| < j < |s| then [s[i + |p|..j]] + BraceCaptures(s, p, j + 1)
      else BraceCaptures(s, p, i + 1)
  }

  /** What `[^}]+` matches. */
  predicate IsBraceCapture(c: string) {
    c != [] && forall k :: 0 <= k < |c| ==> c[k] != '}'
  }

  /** Every capture is non-empty and holds no `}`. */
  lemma {:induction false} BraceCapturesShape(s: string, p: string, i: nat)
    ensures forall c :: c in BraceCaptures(s, p, i) ==> IsBraceCapture(c)
    decreases |s| - i
  {
    if i + |p| <= |s| {
      var j := BraceEnd(s, i + |p|);
      if OccursAt(s, p, i) && i + |p| < j < |s| {
        BraceEndSpec(s, i + |p|);
        BraceCapturesShape(s, p, j + 1);
      } else {
        BraceCapturesShape(s, p, i + 1);
      }
    }
  }

  /** `p` followed by a capture and its `}` is found in the text it makes up. */
  lemma BraceCaptureOf(p: string, x: string)
    requires IsBraceCapture(x)
    ensures x in BraceCaptures(p + x + "}", p, 0)
  {
    var s := p + x + "}";
    var n := |p| + |x|;
    forall k | |p| <= k < n ensures s[k] != '}' {
      assert s[k] == x[k - |p|];
    }
    BraceEndAt(s, |p|, n);
    assert s[..|p|] == p;
    assert s[|p|..n] == x;
  }

  lemma {:induction false} BraceEndAt(s: string, k: nat, n: nat)
    requires k <= n < |s| && s[n] == '}' && forall i :: k <= i < n ==> s[i] != '}'
    ensures BraceEnd(s, k) == n
    decreases n - k
  {
    if k < n {
      BraceEndAt(s, k + 1, n);
    }
  }

  /**
   * `re.findall` of `<p>([a-zA-Z_][a-zA-Z0-9_]*)` from index `i`, `p` a
   * literal: the identifier is taken whole and the scan resumes after it.
   */
  function IdentCaptures(s: string, p: string, i: nat): seq<string>
    decreases |s| - i
  {
    if i + |p| >= |s| then []
    else if OccursAt(s, p, i) && IsIdentStart(s[i + |p|]) then
      var j := IdentEnd(s, i + |p|);
      [s[i + |p|..j]] + IdentCaptures(s, p, j)
    else IdentCaptures(s, p, i + 1)
  }

  /** Every capture is an identifier. */
  lemma {:induction false} IdentCapturesShape(s: string, p: string, i: nat)
    ensures forall c :: c in IdentCaptures(s, p, i) ==> IsIdentifier(c)
    decreases |s| - i
  {
    if i + |p| < |s| {
      if OccursAt(s, p, i) && IsIdentStart(s[i + |p|]) {
        var j := IdentEnd(s, i + |p|);
        IdentEndSpec(s, i + |p|);
        IdentCapturesShape(s, p, j);
      } else {
        IdentCapturesShape(s, p, i + 1);
      }
    }
  }

  /** `re.search` of the same pattern: the leftmost match, which is the first that `findall` returns. */
  function IdentSearch(s: string, p: string): Option<string> {
    var cs := IdentCaptures(s, p, 0);
    if cs == [] then None else Some(cs[0])
  }

  /** `p` followed by an identifier, at the start of the text, is found first. */
  lemma IdentSearchAtStart(p: string, x: string)
    requires IsIdentifier(x)
    ensures IdentSearch(p + x, p) == Some(x)
  {
    var s := p + x;
    assert s[..|p|] == p && s[|p|] == x[0];
    IdentEndOfIdentifier(p, x, 0);
    assert s[|p|..|s|] == x;
  }

  /**
   * `re.search` of `([^.]+)\.custom\.([a-zA-Z_][a-zA-Z0-9_]*)` from index
   * `i`: the segment before the first `.` from the match start, and the
   * identifier after `.custom.`.
   */
  function SegmentSearch(s: string, i: nat): Option<(string, string)>
    decreases |s| - i
  {
    if i >= |s| then None
    else
      var q := DotEnd(s, i);
      if q > i && OccursAt(s, ".custom.", q) && q + 8 < |s| && IsIdentStart(s[q + 8]) then
        Some((s[i..q], s[q + 8..IdentEnd(s, q + 8)]))
      else SegmentSearch(s, i + 1)
  }

  /** A dot-free segment, `.custom.` and an identifier are found as such. */
  lemma SegmentSearchAtStart(c: string, x: string)
    requires c != [] && '.' !in c && IsIdentifier(x)
    ensures SegmentSearch(c + ".custom." + x, 0) == Some((c, x))
  {
    var s := c + ".custom." + x;
    var u := c + ".custom.";
    assert s == u + x;
    forall k | 0 <= k < |c| ensures s[k] != '.' {
      assert s[k] == c[k];
    }
    DotEndAt(s, 0, |c|);
    assert s[|c|..|c| + 8] == ".custom.";
    assert s[|c| + 8] == x[0];
    IdentEndOfIdentifier(u, x, 0);
    assert s[..|c|] == c;
    assert s[|c| + 8..|s|] == x;
  }

  lemma {:induction false} DotEndAt(s: string, k: nat, n: nat)
    requires k <= n < |s| && s[n] == '.' && forall i :: k <= i < n ==> s[i] != '.'
    ensures DotEnd(s, k) == n
    decreases n - k
  {
    if k < n {
      DotEndAt(s, k + 1, n);
    }
  }

  // ---------------------------------------------------------------------
  // Substring facts

  /** For one character, `in` on a text is the same as on a sequence. */
  lemma ContainsChar(s: string, c: char)
    ensures Contains(s, [c]) <==> c in s
  {
    if c in s {
      var i :| 0 <= i < |s| && s[i] == c;
      assert s[i..i + 1] == [c];
      assert OccursAt(s, [c], i);
    }
    forall i | 0 <= i <= |s| && OccursAt(s, [c], i) ensures c in s {
      assert s[i..i + 1][0] == s[i];
    }
  }

  /** A text lacking one character of a pattern does not contain the pattern. */
  lemma AbsentChar(s: string, q: string, k: nat)
    requires k < |q| && q[k] !in s
    ensures !Contains(s, q)
  {
    forall i | 0 <= i && i + |q| <= |s| ensures !OccursAt(s, q, i) {
      assert s[i..i + |q|][k] == s[i + k];
    }
  }

  /** A pattern ending in `.` that is not in `u` is not in `u` followed by a dot-free tail either. */
  lemma DotEndedNotInTail(u: string, x: string, q: string)
    requires q != [] && q[|q| - 1] == '.' && '.' !in x && !Contains(u, q)
    ensures !Contains(u + x, q)
  {
    var s := u + x;
    forall j | 0 <= j && j + |q| <= |s| ensures !OccursAt(s, q, j) {
      if j + |q| <= |u| {
        assert !OccursAt(u, q, j);
        assert s[j..j + |q|] == u[j..j + |q|];
      } else {
        assert s[j..j + |q|][|q| - 1] == s[j + |q| - 1];
        assert s[j + |q| - 1] == x[j + |q| - 1 - |u|];
      }
    }
  }

  /**
   * In `u.w.x` with dot-free parts, a text `.v.` with a dot-free `v`
   * occurs only around the middle segment, and only if it is that segment.
   */
  lemma DotFrame(u: string, w: string, x: string, v: string)
    requires '.' !in u && '.' !in w && '.' !in x && '.' !in v
    ensures forall j :: OccursAt(u + "." + w + "." + x, "." + v + ".", j) ==> j == |u| && v == w
    ensures Contains(u + "." + w + "." + x, "." + v + ".") <==> v == w
  {
    var s := u + "." + w + "." + x;
    var q := "." + v + ".";
    if v == w {
      assert s[|u|..|u| + |q|] == q;
      assert OccursAt(s, q, |u|);
    }
    forall j | 0 <= j && j + |q| <= |s| && !(j == |u| && v == w) ensures !OccursAt(s, q, j) {
      var t := s[j..j + |q|];
      assert t[0] == s[j];
      if j < |u| {
        assert s[j] == u[j];
      } else if |u| < j <= |u| + |w| {
        assert s[j] == w[j - |u| - 1];
      } else if j > |u| + |w| {
        assert t[|q| - 1] == s[j + |q| - 1];
        assert s[j + |q| - 1] == x[j + |q| - 1 - |u| - |w| - 2];
      } else if |v| == |w| {
        var a := u + ".";
        assert s == a + w + "." + x;
        assert s[|a|..|a| + |w|] == w;
        assert t[1..|q| - 1] == s[|a|..|a| + |w|];
        assert q[1..|q| - 1] == v;
      } else if |v| < |w| {
        assert t[|q| - 1] == w[|v|];
      } else {
        assert s[|u| + |w| + 1] == '.';
        assert t[|w| + 1] == s[|u| + |w| + 1];
        assert q[|w| + 1] == v[|w|];
      }
    }
  }

  /** `u + "." + x` ends in `x` when `x` holds no `.`: `split('.')[-1]`. */
  lemma LastSegment(u: string, x: string)
    requires '.' !in x
    ensures AfterLast(u + "." + x, ".") == x
  {
    var s := u + "." + x;
    assert OccursAt(s, ".", |u|) by {
      assert s[|u|..|u| + 1] == ".";
    }
    AfterLastSpec(s, ".");
    var r := AfterLast(s, ".");
    var i := |s| - |r| - 1;
    forall j | |u| < j < |s| ensures !OccursAt(s, ".", j) {
      assert s[j] == x[j - |u| - 1];
      assert s[j..j + 1][0] == s[j];
    }
    assert i == |u|;
    assert s[|u| + 1..] == x;
  }

  // ---------------------------------------------------------------------
  // visit_property: where a definition is recorded

  /**
   * `re.search(r'\.custom\.([^.]+)$', path)`: the last segment, when the
   * path ends with `.custom.` and a non-empty segment.
   */
  function CustomTail(path: string): (r: Option<string>)
    ensures r.Some? ==> r.value != [] && '.' !in r.value && EndsWith(path, ".custom." + r.value)
  {
    var x := AfterLast(path, ".");
    AfterLastFree(path, ".");
    ContainsChar(x, '.');
    if x != [] && EndsWith(path, ".custom." + x) then Some(x) else None
  }

  /** The regular expression matches every path that ends with `.custom.` and a dot-free segment. */
  lemma CustomTailOf(u: string, x: string)
    requires x != [] && '.' !in x
    ensures CustomTail(u + ".custom." + x) == Some(x)
  {
    var s := u + ".custom." + x;
    assert s == (u + ".custom") + "." + x;
    LastSegment(u + ".custom", x);
    assert s[|s| - |".custom." + x|..] == ".custom." + x;
  }

  /** `visit_property`: the key a property path defines, if any. */
  function DefinitionKey(path: string): Option<string> {
    if StartsWith(path, "custom.") && '.' !in path[7..] then Some("view.custom." + path[7..])
    else if StartsWith(path, "params.") && '.' !in path[7..] then Some("view.params." + path[7..])
    else if Contains(path, ".custom.") && !StartsWith(path, "propConfig.") && CustomTail(path).Some? then
      Some(AfterLast(BeforeFirst(path, ".custom."), ".") + ".custom." + CustomTail(path).value)
    else None
  }

  /**
   * A definition's key ends with the property's own name: the last
   * segment of the key, which the report shows, is that of the path.
   */
  lemma DefinitionKeyName(path: string)
    requires DefinitionKey(path).Some?
    ensures AfterLast(DefinitionKey(path).value, ".") == AfterLast(path, ".")
  {
    if StartsWith(path, "custom.") && '.' !in path[7..] {
      ViewKeyName(path, "custom");
    } else if StartsWith(path, "params.") && '.' !in path[7..] {
      ViewKeyName(path, "params");
    } else {
      var x := CustomTail(path).value;
      var c := AfterLast(BeforeFirst(path, ".custom."), ".");
      assert DefinitionKey(path).value == (c + ".custom") + "." + x;
      LastSegment(c + ".custom", x);
    }
  }

  /** The first two branches of `DefinitionKeyName`. */
  lemma ViewKeyName(path: string, w: string)
    requires (w == "custom" || w == "params") && StartsWith(path, w + ".") && '.' !in path[7..]
    ensures DefinitionKey(path) == Some("view." + w + "." + path[7..])
    ensures AfterLast("view." + w + "." + path[7..], ".") == AfterLast(path, ".")
  {
    var y := path[7..];
    assert path == w + "." + y;
    if w == "custom" {
      assert w + "." == "custom.";
      assert "view." + w + "." == "view.custom.";
    } else {
      assert w + "." == "params.";
      assert "view." + w + "." == "view.params.";
      assert path[0] == 'p';
    }
    LastSegment(w, y);
    assert "view." + w + "." + y == ("view." + w) + "." + y;
    LastSegment("view." + w, y);
  }

  /** The three places a definition can come from, and nothing else. */
  lemma DefinitionKeyCases(path: string)
    ensures StartsWith(path, "custom.") && '.' !in path[7..] ==> DefinitionKey(path) == Some("view.custom." + path[7..])
    ensures StartsWith(path, "params.") && '.' !in path[7..] ==> DefinitionKey(path) == Some("view.params." + path[7..])
    ensures DefinitionKey(path).Some? && !StartsWith(path, "custom.") && !StartsWith(path, "params.") ==>
      !StartsWith(path, "propConfig.") && CustomTail(path).Some?
    ensures !Contains(path, ".custom.") && !StartsWith(path, "custom.") && !StartsWith(path, "params.") ==> DefinitionKey(path).None?
  {
    if StartsWith(path, "custom.") {
      assert path[..7] == "custom.";
    }
    if StartsWith(path, "params.") {
      assert path[..7] == "params.";
      assert path[0] == 'p' && "custom."[0] == 'c';
    }
  }

  /** The third branch of `visit_property`, once the first two are ruled out. */
  lemma ComponentBranch(path: string)
    requires |path| < 7 || '.' in path[7..]
    requires Contains(path, ".custom.") && !StartsWith(path, "propConfig.") && CustomTail(path).Some?
    ensures DefinitionKey(path) == Some(AfterLast(BeforeFirst(path, ".custom."), ".") + ".custom." + CustomTail(path).value)
  {
  }

  /** A nested component custom property is keyed by the component's own name. */
  lemma ComponentDefinition(parent: string, comp: string, x: string)
    requires comp != [] && '.' !in comp && comp != "custom"
    requires x != [] && '.' !in x
    requires !Contains(parent + "." + comp, ".custom.") && !StartsWith(parent, "propConfig")
    ensures DefinitionKey(parent + "." + comp + ".custom." + x) == Some(comp + ".custom." + x)
  {
    var pre := parent + "." + comp;
    var path := pre + ".custom." + x;
    assert path == parent + "." + (comp + ".custom." + x);
    NotPropConfig(parent, comp + ".custom." + x);
    NotViewLevel(pre, x);
    CustomBefore(parent, comp, x);
    CustomTailOf(pre, x);
    ComponentBranch(path);
  }

  /** The text before the first `.custom.` ends in the component name. */
  lemma CustomBefore(parent: string, comp: string, x: string)
    requires comp != [] && '.' !in comp && comp != "custom"
    requires !Contains(parent + "." + comp, ".custom.")
    ensures Contains(parent + "." + comp + ".custom." + x, ".custom.")
    ensures AfterLast(BeforeFirst(parent + "." + comp + ".custom." + x, ".custom."), ".") == comp
  {
    var pre := parent + "." + comp;
    var path := pre + ".custom." + x;
    var n := |pre|;
    assert OccursAt(path, ".custom.", n) by {
      assert path[n..n + 8] == ".custom.";
    }
    NotEndsCustom(parent, comp);
    FirstCustom(pre, x);
    BeforeFirstSpec(path, ".custom.");
    assert BeforeFirst(path, ".custom.") == pre;
    LastSegment(parent, comp);
  }

  /** The first `.custom.` of `pre + ".custom." + x` is the one after `pre`. */
  lemma FirstCustom(pre: string, x: string)
    requires !Contains(pre, ".custom.") && !EndsWith(pre, ".custom")
    ensures forall j :: 0 <= j < |pre| ==> !OccursAt(pre + ".custom." + x, ".custom.", j)
  {
    var path := pre + ".custom." + x;
    var n := |pre|;
    forall j | 0 <= j < n && j + 8 <= |path| ensures !OccursAt(path, ".custom.", j) {
      var w := path[j..j + 8];
      if j + 8 <= n {
        assert !OccursAt(pre, ".custom.", j);
        assert pre[j..j + 8] == w;
      } else if j + 7 > n {
        assert path[j + 7] == ".custom."[j + 7 - n];
        assert w[7] == path[j + 7];
        assert w[7] != ".custom."[7];
      } else {
        assert pre[n - 7..] != ".custom";
        assert path[j..n] == pre[n - 7..];
        assert w[..7] == path[j..n];
        assert ".custom."[..7] == ".custom";
      }
      assert w != ".custom.";
    }
  }

  /** A dot-free component name other than "custom" leaves no `.custom` at the end of its path. */
  lemma NotEndsCustom(parent: string, comp: string)
    requires '.' !in comp && comp != "custom"
    ensures !EndsWith(parent + "." + comp, ".custom")
  {
    var pre := parent + "." + comp;
    var n := |pre|;
    if n >= 7 {
      var t := pre[n - 7..];
      if |comp| >= 7 {
        assert t[0] == comp[|comp| - 7];
      } else if |comp| == 6 {
        assert t[1..] == comp;
      } else {
        assert t[6 - |comp|] == '.';
      }
    }
  }

  /** A path made of a parent and more segments starts with `propConfig.` only if the parent does. */
  lemma NotPropConfig(parent: string, tail: string)
    requires !StartsWith(parent, "propConfig")
    ensures !StartsWith(parent + "." + tail, "propConfig.")
  {
    var path := parent + "." + tail;
    if |path| >= 11 {
      var t := path[..11];
      if |parent| >= 10 {
        assert t[..10] == parent[..10];
      } else {
        assert t[|parent|] == '.';
      }
    }
  }

  /** Such a path is never a one-segment view-level `custom.`/`params.` entry. */
  lemma NotViewLevel(pre: string, x: string)
    ensures |pre + ".custom." + x| < 7 || '.' in (pre + ".custom." + x)[7..]
  {
    var path := pre + ".custom." + x;
    if |path| >= 7 {
      assert path[7..][|pre|] == '.';
    }
  }

  /** The word the report uses for a definition. */
  function DefinitionKind(key: string): string {
    if Contains(key, ".params.") then "view parameter" else "custom property"
  }

  lemma KindOfViewLevel(w: string, y: string)
    requires (w == "custom" || w == "params") && '.' !in y
    ensures DefinitionKind("view." + w + "." + y) == (if w == "params" then "view parameter" else "custom property")
  {
    assert "view." + w + "." + y == "view" + "." + w + "." + y;
    assert ".params." == "." + "params" + ".";
    DotFrame("view", w, y, "params");
  }

  lemma KindOfComponent(c: string, x: string)
    requires '.' !in c && '.' !in x
    ensures DefinitionKind(c + ".custom." + x) == "custom property"
  {
    assert c + ".custom." + x == c + "." + "custom" + "." + x;
    assert ".params." == "." + "params" + ".";
    DotFrame(c, "custom", x, "params");
  }

  /** A definition is reported as a view parameter exactly when it comes from a `params.X` entry. */
  lemma DefinitionKindOf(path: string)
    requires DefinitionKey(path).Some?
    ensures DefinitionKind(DefinitionKey(path).value) == "view parameter" <==> StartsWith(path, "params.") && '.' !in path[7..]
  {
    var k := DefinitionKey(path).value;
    if StartsWith(path, "custom.") && '.' !in path[7..] {
      assert k == "view." + "custom" + "." + path[7..];
      KindOfViewLevel("custom", path[7..]);
      assert path[..7] == "custom.";
      assert "custom."[0] != "params."[0];
    } else if StartsWith(path, "params.") && '.' !in path[7..] {
      assert k == "view." + "params" + "." + path[7..];
      KindOfViewLevel("params", path[7..]);
    } else {
      var b := BeforeFirst(path, ".custom.");
      var c := AfterLast(b, ".");
      AfterLastFree(b, ".");
      ContainsChar(c, '.');
      KindOfComponent(c, CustomTail(path).value);
    }
  }

  // ---------------------------------------------------------------------
  // _check_expression_for_references

  /** `prefix + c` for each `c` of `cs`. */
  function WithPrefix(prefix: string, cs: seq<string>): set<string>
    decreases |cs|
  {
    if cs == [] then {} else WithPrefix(prefix, cs[..|cs| - 1]) + {prefix + cs[|cs| - 1]}
  }

  lemma {:induction false} WithPrefixMembers(prefix: string, cs: seq<string>)
    ensures forall c :: c in cs ==> prefix + c in WithPrefix(prefix, cs)
    ensures forall u :: u in WithPrefix(prefix, cs) ==> StartsWith(u, prefix) && u[|prefix|..] in cs
    decreases |cs|
  {
    if cs != [] {
      var init := cs[..|cs| - 1];
      WithPrefixMembers(prefix, init);
      assert cs == init + [cs[|cs| - 1]];
      assert (prefix + cs[|cs| - 1])[|prefix|..] == cs[|cs| - 1];
    }
  }

  /** The five `{...}` patterns, each with the prefix its handler records, in the order they are tried. */
  const ExpressionPatterns: seq<(string, string)> := [
    ("{view.custom.", "view.custom."),
    ("{view.params.", "view.params."),
    ("{this.custom.", "*.custom."),
    ("{self.view.custom.", "view.custom."),
    ("{self.view.params.", "view.params.")]

  /** What the patterns `hs` record for the expression `e`. */
  function PatternUses(e: string, hs: seq<(string, string)>): set<string>
    decreases |hs|
  {
    if hs == [] then {}
    else
      var h := hs[|hs| - 1];
      PatternUses(e, hs[..|hs| - 1]) + WithPrefix(h.1, BraceCaptures(e, h.0, 0))
  }

  lemma {:induction false} PatternUsesMembers(e: string, hs: seq<(string, string)>, u: string)
    ensures u in PatternUses(e, hs) <==> exists i :: 0 <= i < |hs| && u in WithPrefix(hs[i].1, BraceCaptures(e, hs[i].0, 0))
    decreases |hs|
  {
    if hs != [] {
      var init := hs[..|hs| - 1];
      PatternUsesMembers(e, init, u);
      if exists i :: 0 <= i < |init| && u in WithPrefix(init[i].1, BraceCaptures(e, init[i].0, 0)) {
        var i :| 0 <= i < |init| && u in WithPrefix(init[i].1, BraceCaptures(e, init[i].0, 0));
        assert init[i] == hs[i];
      }
      if exists i :: 0 <= i < |hs| && u in WithPrefix(hs[i].1, BraceCaptures(e, hs[i].0, 0)) {
        var i :| 0 <= i < |hs| && u in WithPrefix(hs[i].1, BraceCaptures(e, hs[i].0, 0));
        if i < |init| {
          assert init[i] == hs[i];
        }
      }
    }
  }

  /** Everything `_check_expression_for_references` records for one expression. */
  function ExpressionUses(e: string): set<string> {
    if e == [] then {} else PatternUses(e, ExpressionPatterns)
  }

  /** What a recorded use looks like: a view or wildcard prefix before a `[^}]+` capture. */
  predicate IsExpressionUse(u: string) {
    (StartsWith(u, "view.custom.") && IsBraceCapture(u[12..]))
    || (StartsWith(u, "view.params.") && IsBraceCapture(u[12..]))
    || (StartsWith(u, "*.custom.") && IsBraceCapture(u[9..]))
  }

  /** Every use an expression records names a view custom property, a view parameter or a wildcard. */
  lemma ExpressionUsesShape(e: string, u: string)
    requires u in ExpressionUses(e)
    ensures IsExpressionUse(u)
  {
    PatternUsesMembers(e, ExpressionPatterns, u);
    var i :| 0 <= i < |ExpressionPatterns| && u in WithPrefix(ExpressionPatterns[i].1, BraceCaptures(e, ExpressionPatterns[i].0, 0));
    var h := ExpressionPatterns[i];
    WithPrefixMembers(h.1, BraceCaptures(e, h.0, 0));
    BraceCapturesShape(e, h.0, 0);
  }

  /** Each pattern, wrapped around a capture, records its handler's use. */
  lemma ExpressionReference(i: nat, x: string)
    requires i < |ExpressionPatterns| && IsBraceCapture(x)
    ensures ExpressionPatterns[i].1 + x in ExpressionUses(ExpressionPatterns[i].0 + x + "}")
  {
    var h := ExpressionPatterns[i];
    var e := h.0 + x + "}";
    BraceCaptureOf(h.0, x);
    WithPrefixMembers(h.1, BraceCaptures(e, h.0, 0));
    PatternUsesMembers(e, ExpressionPatterns, h.1 + x);
  }

  // ---------------------------------------------------------------------
  // _check_script_for_references

  const EscapedDot := "\\."
  const IdentGroup := "([a-zA-Z_][a-zA-Z0-9_]*)"

  /**
   * The three script patterns: the raw regular expression as the source
   * writes it, and the text it matches before its identifier group.
   */
  const ScriptPatterns: seq<(string, string)> := [
    ("self" + EscapedDot + "view" + EscapedDot + "custom" + EscapedDot + IdentGroup, "self.view.custom."),
    ("self" + EscapedDot + "view" + EscapedDot + "params" + EscapedDot + IdentGroup, "self.view.params."),
    ("self" + EscapedDot + "custom" + EscapedDot + IdentGroup, "self.custom.")]

  /** The branch chain run for a match `m`, testing the text `t` for the three markers. */
  function ScriptUse(t: string, m: string): Option<string> {
    if Contains(t, ".view.custom.") then Some("view.custom." + m)
    else if Contains(t, ".view.params.") then Some("view.params." + m)
    else if Contains(t, ".custom.") then Some("*.custom." + m)
    else None
  }

  /** The uses the branch chain on `t` records for the matches `ms`. */
  function BranchUses(t: string, ms: seq<string>): set<string>
    decreases |ms|
  {
    if ms == [] then {}
    else
      var u := ScriptUse(t, ms[|ms| - 1]);
      BranchUses(t, ms[..|ms| - 1]) + (if u.Some? then {u.value} else {})
  }

  lemma {:induction false} BranchUsesMembers(t: string, ms: seq<string>)
    ensures forall m :: m in ms && ScriptUse(t, m).Some? ==> ScriptUse(t, m).value in BranchUses(t, ms)
    ensures (forall m :: m in ms ==> ScriptUse(t, m).None?) ==> BranchUses(t, ms) == {}
    decreases |ms|
  {
    if ms != [] {
      BranchUsesMembers(t, ms[..|ms| - 1]);
      assert ms == ms[..|ms| - 1] + [ms[|ms| - 1]];
    }
  }

  /**
   * The uses of the patterns `ps`; `asWritten` runs the branch tests on
   * the regular expression's source, as the code does, and otherwise on
   * the text it matches.
   */
  function ScriptPatternUses(script: string, ps: seq<(string, string)>, asWritten: bool): set<string>
    decreases |ps|
  {
    if ps == [] then {}
    else
      var p := ps[|ps| - 1];
      ScriptPatternUses(script, ps[..|ps| - 1], asWritten)
        + BranchUses(if asWritten then p.0 else p.1, IdentCaptures(script, p.1, 0))
  }

  /** `_check_script_for_references` as written. */
  function ScriptUsesAsWritten(script: string): set<string> {
    if script == [] then {} else ScriptPatternUses(script, ScriptPatterns, true)
  }

  /** `_check_script_for_references` with its branch tests on the matched text. */
  function ScriptUses(script: string): set<string> {
    if script == [] then {} else ScriptPatternUses(script, ScriptPatterns, false)
  }

  /** Every `.` of `s` is escaped by a backslash before it. */
  predicate DotsEscaped(s: string) {
    forall i :: 0 <= i < |s| && s[i] == '.' ==> i > 0 && s[i - 1] == '\\'
  }

  lemma EscapedWord(w: string)
    requires '.' !in w
    ensures DotsEscaped(w + EscapedDot)
  {
  }

  lemma EscapedJoin(a: string, b: string)
    requires DotsEscaped(a) && DotsEscaped(b) && (b == [] || b[0] != '.')
    ensures DotsEscaped(a + b)
  {
    var s := a + b;
    forall i | 0 <= i < |s| && s[i] == '.' ensures i > 0 && s[i - 1] == '\\' {
      if i >= |a| {
        assert s[i] == b[i - |a|];
      }
    }
  }

  /** An escaped source holds no unescaped dot, so no text with a dot after another character. */
  lemma EscapedNoOccurrence(s: string, q: string, k: nat)
    requires DotsEscaped(s) && 0 < k < |q| && q[k] == '.' && q[k - 1] != '\\'
    ensures !Contains(s, q)
  {
    forall j | 0 <= j && j + |q| <= |s| ensures !OccursAt(s, q, j) {
      var t := s[j..j + |q|];
      assert t[k] == s[j + k];
      assert t[k - 1] == s[j + k - 1];
    }
  }

  lemma SourcesEscaped(i: nat)
    requires i < |ScriptPatterns|
    ensures DotsEscaped(ScriptPatterns[i].0)
  {
    var s, v, c, p := "self" + EscapedDot, "view" + EscapedDot, "custom" + EscapedDot, "params" + EscapedDot;
    EscapedWord("self");
    EscapedWord("view");
    EscapedWord("custom");
    EscapedWord("params");
    assert DotsEscaped(IdentGroup);
    EscapedJoin(c, IdentGroup);
    EscapedJoin(p, IdentGroup);
    EscapedJoin(v, c + IdentGroup);
    EscapedJoin(v, p + IdentGroup);
    EscapedJoin(s, v + c + IdentGroup);
    EscapedJoin(s, v + p + IdentGroup);
    EscapedJoin(s, c + IdentGroup);
    assert ScriptPatterns[0].0 == s + (v + c + IdentGroup);
    assert ScriptPatterns[1].0 == s + (v + p + IdentGroup);
    assert ScriptPatterns[2].0 == s + (c + IdentGroup);
  }

  /** As written, no branch test ever holds: a script reference records nothing. */
  lemma ScriptUsesAsWrittenEmpty(script: string)
    ensures ScriptUsesAsWritten(script) == {}
  {
    forall i | 0 <= i < |ScriptPatterns| ensures forall m :: ScriptUse(ScriptPatterns[i].0, m).None? {
      SourcesEscaped(i);
      EscapedNoOccurrence(ScriptPatterns[i].0, ".view.custom.", 5);
      EscapedNoOccurrence(ScriptPatterns[i].0, ".view.params.", 5);
      EscapedNoOccurrence(ScriptPatterns[i].0, ".custom.", 7);
    }
    NoScriptUses(script, ScriptPatterns);
  }

  lemma {:induction false} NoScriptUses(script: string, ps: seq<(string, string)>)
    requires forall i :: 0 <= i < |ps| ==> forall m :: ScriptUse(ps[i].0, m).None?
    ensures ScriptPatternUses(script, ps, true) == {}
    decreases |ps|
  {
    if ps != [] {
      var p := ps[|ps| - 1];
      NoScriptUses(script, ps[..|ps| - 1]);
      BranchUsesMembers(p.0, IdentCaptures(script, p.1, 0));
    }
  }

  /** The use each script pattern is meant to record. */
  const ScriptRecords: seq<string> := ["view.custom.", "view.params.", "*.custom."]

  lemma ScriptBranches(m: string)
    ensures ScriptUse("self.view.custom.", m) == Some("view.custom." + m)
    ensures ScriptUse("self.view.params.", m) == Some("view.params." + m)
    ensures ScriptUse("self.custom.", m) == Some("*.custom." + m)
  {
    assert OccursAt("self.view.custom.", ".view.custom.", 4);
    AbsentChar("self.view.params.", ".view.custom.", 6);
    assert OccursAt("self.view.params.", ".view.params.", 4);
    AbsentChar("self.custom.", ".view.custom.", 1);
    AbsentChar("self.custom.", ".view.params.", 1);
    assert OccursAt("self.custom.", ".custom.", 4);
  }

  lemma {:induction false} ScriptPatternUsesHas(script: string, ps: seq<(string, string)>, i: nat, m: string)
    requires i < |ps| && m in IdentCaptures(script, ps[i].1, 0) && ScriptUse(ps[i].1, m).Some?
    ensures ScriptUse(ps[i].1, m).value in ScriptPatternUses(script, ps, false)
    decreases |ps|
  {
    var p := ps[|ps| - 1];
    if i < |ps| - 1 {
      assert ps[..|ps| - 1][i] == ps[i];
      ScriptPatternUsesHas(script, ps[..|ps| - 1], i, m);
    } else {
      BranchUsesMembers(p.1, IdentCaptures(script, p.1, 0));
    }
  }

  /** With the branch tests on the matched text, each script reference records its use. */
  lemma ScriptReference(i: nat, x: string)
    requires i < |ScriptPatterns| && IsIdentifier(x)
    ensures ScriptRecords[i] + x in ScriptUses(ScriptPatterns[i].1 + x)
  {
    var lit := ScriptPatterns[i].1;
    var script := lit + x;
    IdentSearchAtStart(lit, x);
    ScriptBranches(x);
    ScriptPatternUsesHas(script, ScriptPatterns, i, x);
  }

  // ---------------------------------------------------------------------
  // _mark_property_used_from_pattern

  /** The use a found search pattern records, if any. */
  function Marked(pattern: string): Option<string> {
    if Contains(pattern, "view.custom.") then
      var m := IdentSearch(pattern, "view.custom.");
      if m.Some? then Some("view.custom." + m.value) else None
    else if Contains(pattern, "view.params.") then
      var m := IdentSearch(pattern, "view.params.");
      if m.Some? then Some("view.params." + m.value) else None
    else if Contains(pattern, ".custom.") then
      if StartsWith(pattern, "this.custom.") || StartsWith(pattern, "self.custom.") then
        var m := IdentSearch(pattern, ".custom.");
        if m.Some? then Some("*.custom." + m.value) else None
      else
        var m := SegmentSearch(pattern, 0);
        if m.Some? then Some(m.value.0 + ".custom." + m.value.1) else None
    else None
  }

  /** Skipping positions whose character cannot start the literal changes no capture. */
  lemma {:induction false} IdentCapturesSkip(s: string, p: string, i: nat, j: nat)
    requires p != [] && i <= j && forall k :: i <= k < j && k < |s| ==> s[k] != p[0]
    ensures IdentCaptures(s, p, i) == IdentCaptures(s, p, j)
    decreases j - i
  {
    if i < j && i + |p| < |s| {
      assert s[i..i + |p|][0] == s[i];
      IdentCapturesSkip(s, p, i + 1, j);
    }
  }

  /** The literal at `i`, then an identifier up to the end: the first capture from `i` is that identifier. */
  lemma IdentCaptureAt(s: string, p: string, i: nat, x: string)
    requires OccursAt(s, p, i) && IsIdentifier(x) && s == s[..i + |p|] + x
    ensures IdentCaptures(s, p, i) != [] && IdentCaptures(s, p, i)[0] == x
  {
    var a := i + |p|;
    DropPrefix(s, s[..a], x);
    assert s[a] == x[0];
    IdentEndOfIdentifier(s[..a], x, 0);
  }

  /** The literal after a text without its first character, then an identifier: that identifier is found. */
  lemma IdentSearchAfter(u: string, p: string, x: string)
    requires p != [] && p[0] !in u && IsIdentifier(x)
    ensures IdentSearch(u + p + x, p) == Some(x)
  {
    var s := u + p + x;
    forall k | 0 <= k < |u| ensures s[k] != p[0] {
      assert s[k] == u[k];
    }
    IdentCapturesSkip(s, p, 0, |u|);
    assert s[|u|..|u| + |p|] == p;
    assert s[..|u| + |p|] + x == s;
    IdentCaptureAt(s, p, |u|, x);
  }

  /** A short-form pattern `{X}` never marks anything: no branch matches it. */
  lemma ShortFormNeverMarks(x: string)
    requires '.' !in x
    ensures Marked("{" + x + "}") == None
  {
    var s := "{" + x + "}";
    assert '.' !in s;
    AbsentChar(s, "view.custom.", 4);
    AbsentChar(s, "view.params.", 4);
    AbsentChar(s, ".custom.", 0);
  }

  lemma MarkedCustomBranch(p: string)
    requires Contains(p, "view.custom.") && IdentSearch(p, "view.custom.").Some?
    ensures Marked(p) == Some("view.custom." + IdentSearch(p, "view.custom.").value)
  {
  }

  lemma MarkedParamsBranch(p: string)
    requires !Contains(p, "view.custom.") && Contains(p, "view.params.") && IdentSearch(p, "view.params.").Some?
    ensures Marked(p) == Some("view.params." + IdentSearch(p, "view.params.").value)
  {
  }

  lemma MarkedGenericBranch(p: string)
    requires !Contains(p, "view.custom.") && !Contains(p, "view.params.") && Contains(p, ".custom.")
    requires StartsWith(p, "this.custom.") || StartsWith(p, "self.custom.")
    requires IdentSearch(p, ".custom.").Some?
    ensures Marked(p) == Some("*.custom." + IdentSearch(p, ".custom.").value)
  {
  }

  lemma MarkedSegmentBranch(p: string)
    requires !Contains(p, "view.custom.") && !Contains(p, "view.params.") && Contains(p, ".custom.")
    requires !StartsWith(p, "this.custom.") && !StartsWith(p, "self.custom.")
    requires SegmentSearch(p, 0).Some?
    ensures Marked(p) == Some(SegmentSearch(p, 0).value.0 + ".custom." + SegmentSearch(p, 0).value.1)
  {
  }

  /**
   * `u` then `view.custom.` then an identifier, where `u` cannot hide an
   * earlier match: with `u` empty or `self.`, both search patterns of a
   * view custom property.
   */
  lemma MarkedViewCustomAfter(u: string, x: string)
    requires IsIdentifier(x) && 'v' !in u
    ensures Marked(u + "view.custom." + x) == Some("view.custom." + x)
  {
    var s := u + "view.custom." + x;
    assert s[|u|..|u| + 12] == "view.custom.";
    assert OccursAt(s, "view.custom.", |u|);
    IdentSearchAfter(u, "view.custom.", x);
    MarkedCustomBranch(s);
  }

  /** Likewise both search patterns of a view parameter. */
  lemma MarkedViewParamsAfter(u: string, x: string)
    requires IsIdentifier(x) && 'v' !in u && 'c' !in u
    ensures Marked(u + "view.params." + x) == Some("view.params." + x)
  {
    var s := u + "view.params." + x;
    assert '.' !in x;
    assert 'c' !in u + "view.params.";
    AbsentChar(u + "view.params.", "view.custom.", 5);
    DotEndedNotInTail(u + "view.params.", x, "view.custom.");
    assert s[|u|..|u| + 12] == "view.params.";
    assert OccursAt(s, "view.params.", |u|);
    IdentSearchAfter(u, "view.params.", x);
    MarkedParamsBranch(s);
  }

  /** Both generic search patterns of a component property mark the wildcard. */
  lemma MarkedWildcardAfter(g: string, x: string)
    requires (g == "this" || g == "self") && IsIdentifier(x)
    ensures Marked(g + ".custom." + x) == Some("*.custom." + x)
  {
    var s := g + ".custom." + x;
    assert '.' !in x;
    assert 'v' !in g + ".custom.";
    AbsentChar(g + ".custom.", "view.custom.", 0);
    AbsentChar(g + ".custom.", "view.params.", 0);
    DotEndedNotInTail(g + ".custom.", x, "view.custom.");
    DotEndedNotInTail(g + ".custom.", x, "view.params.");
    assert s[4..12] == ".custom.";
    assert OccursAt(s, ".custom.", 4);
    assert s[..12] == g + ".custom.";
    assert g + ".custom." == "this.custom." || g + ".custom." == "self.custom.";
    IdentSearchAfter(g, ".custom.", x);
    MarkedGenericBranch(s);
  }

  /** The text `c.custom.x` holds no view marker unless the component name ends in `view`. */
  lemma NoViewMarker(c: string, x: string)
    requires '.' !in c && '.' !in x && !EndsWith(c, "view")
    ensures !Contains(c + ".custom." + x, "view.custom.") && !Contains(c + ".custom." + x, "view.params.")
  {
    var s := c + ".custom." + x;
    assert s == c + "." + "custom" + "." + x;
    DotFrame(c, "custom", x, "custom");
    DotFrame(c, "custom", x, "params");
    assert ".custom." == "." + "custom" + "." && ".params." == "." + "params" + ".";
    assert "view.custom."[..4] == "view" && "view.custom."[4..] == ".custom." && "view.params."[4..] == ".params.";
    forall j | 0 <= j && j + 12 <= |s| ensures !OccursAt(s, "view.custom.", j) {
      var t := s[j..j + 12];
      assert t[4..] == s[j + 4..j + 12];
      if j + 4 == |c| {
        assert t[..4] == c[|c| - 4..];
      } else {
        assert !OccursAt(s, ".custom.", j + 4);
      }
    }
    forall j | 0 <= j && j + 12 <= |s| ensures !OccursAt(s, "view.params.", j) {
      var t := s[j..j + 12];
      assert t[4..] == s[j + 4..j + 12];
      assert !OccursAt(s, ".params.", j + 4);
    }
  }

  /** A dot-free name other than the four-letter `g`, then a dot, does not start with `g.`. */
  lemma NotPrefixed(c: string, t: string, g: string)
    requires '.' !in c && c != g && |g| == 4 && '.' !in g && t != [] && t[0] == '.'
    ensures !StartsWith(c + t, g + ".")
  {
    var s := c + t;
    var q := g + ".";
    if |s| >= 5 {
      var h := s[..5];
      if |c| > 4 {
        assert h[4] == c[4];
      } else if |c| < 4 {
        assert h[|c|] == '.';
        assert q[|c|] == g[|c|];
      } else {
        assert h[..4] == c;
        assert q[..4] == g;
      }
    }
  }

  lemma StartsWithPrefix(s: string, q: string, r: string)
    requires StartsWith(q, r) && StartsWith(s, q)
    ensures StartsWith(s, r)
  {
    assert s[..|r|] == q[..|q|][..|r|];
  }

  /** The exact search pattern of a component property marks that property. */
  lemma MarkedComponent(c: string, x: string)
    requires c != [] && '.' !in c && IsIdentifier(x)
    requires !EndsWith(c, "view") && c != "this" && c != "self"
    ensures Marked(c + ".custom." + x) == Some(c + ".custom." + x)
  {
    var s := c + ".custom." + x;
    NoViewMarker(c, x);
    NotPrefixed(c, ".custom." + x, "this");
    NotPrefixed(c, ".custom." + x, "self");
    assert s == c + (".custom." + x);
    assert "this.custom."[..5] == "this" + ".";
    assert "self.custom."[..5] == "self" + ".";
    if StartsWith(s, "this.custom.") {
      StartsWithPrefix(s, "this.custom.", "this.");
    }
    if StartsWith(s, "self.custom.") {
      StartsWithPrefix(s, "self.custom.", "self.");
    }
    assert s[|c|..|c| + 8] == ".custom.";
    assert OccursAt(s, ".custom.", |c|);
    SegmentSearchAtStart(c, x);
    MarkedSegmentBranch(s);
  }

  /** A component whose name ends in `view` has its exact reference read as a view property's. */
  lemma ViewSuffixMisread()
    ensures Marked("subview.custom.x") == Some("view.custom.x")
  {
    assert IsIdentifier("x");
    MarkedViewCustomAfter("sub", "x");
    assert "sub" + "view.custom." + "x" == "subview.custom.x";
    assert "view.custom." + "x" == "view.custom.x";
  }

  // ---------------------------------------------------------------------
  // _search_flattened_json_for_references

  /** The three search patterns one defined key contributes, in the order the source lists them. */
  function PatternsOf(key: string): seq<string> {
    if StartsWith(key, "view.custom.") then
      ["view.custom." + key[12..], "self.view.custom." + key[12..], "{" + key[12..] + "}"]
    else if StartsWith(key, "view.params.") then
      ["view.params." + key[12..], "self.view.params." + key[12..], "{" + key[12..] + "}"]
    else if Contains(key, ".custom.") then
      SplitPieces(key, ".custom.");
      var parts := Split(key, ".custom.");
      [parts[0] + ".custom." + parts[1], "this.custom." + parts[1], "self.custom." + parts[1]]
    else []
  }

  /** `f(k)` for each `k` of `keys`, concatenated in order. */
  function ConcatMap(keys: seq<string>, f: string -> seq<string>): seq<string>
    decreases |keys|
  {
    if keys == [] then [] else ConcatMap(keys[..|keys| - 1], f) + f(keys[|keys| - 1])
  }

  lemma {:induction false} ConcatMapMembers(keys: seq<string>, f: string -> seq<string>, p: string)
    ensures p in ConcatMap(keys, f) <==> exists i :: 0 <= i < |keys| && p in f(keys[i])
    decreases |keys|
  {
    if keys != [] {
      var n := |keys| - 1;
      var init := keys[..n];
      ConcatMapMembers(init, f, p);
      if exists i :: 0 <= i < |init| && p in f(init[i]) {
        var i :| 0 <= i < |init| && p in f(init[i]);
        assert init[i] == keys[i];
      }
      if exists i :: 0 <= i < |keys| && p in f(keys[i]) {
        var i :| 0 <= i < |keys| && p in f(keys[i]);
        if i < n {
          assert init[i] == keys[i];
        }
      }
    }
  }

  /** The patterns of every defined key, key by key. */
  function SearchPatterns(keys: seq<string>): seq<string> {
    ConcatMap(keys, PatternsOf)
  }

  /** What `_mark_property_used_from_pattern` adds for one found pattern. */
  function MarkedUses(p: string): set<string> {
    if Marked(p).Some? then {Marked(p).value} else {}
  }

  /** The names marked while one string value is tested against the patterns `ps`, in order. */
  function ValueMarks(v: string, ps: seq<string>): set<string>
    decreases |ps|
  {
    if ps == [] then {}
    else
      var p := ps[|ps| - 1];
      ValueMarks(v, ps[..|ps| - 1]) + (if Contains(v, p) then MarkedUses(p) else {})
  }

  lemma {:induction false} ValueMarksMembers(v: string, ps: seq<string>, u: string)
    ensures u in ValueMarks(v, ps) <==> exists p :: p in ps && Contains(v, p) && Marked(p) == Some(u)
    decreases |ps|
  {
    if ps != [] {
      var n := |ps| - 1;
      var init := ps[..n];
      ValueMarksMembers(v, init, u);
      assert ps == init + [ps[n]];
      if exists p :: p in ps && Contains(v, p) && Marked(p) == Some(u) {
        var p :| p in ps && Contains(v, p) && Marked(p) == Some(u);
        if p != ps[n] {
          assert p in init;
        }
      }
    }
  }

  /** The names marked by the string values of the flattened view; other values are skipped. */
  function FlatMarks(flat: seq<FlatMaps.Entry>, ps: seq<string>): set<string>
    decreases |flat|
  {
    if flat == [] then {}
    else
      var e := flat[|flat| - 1];
      FlatMarks(flat[..|flat| - 1], ps) + (if e.1.JString? then ValueMarks(e.1.s, ps) else {})
  }

  lemma {:induction false} FlatMarksMembers(flat: seq<FlatMaps.Entry>, ps: seq<string>, u: string)
    ensures u in FlatMarks(flat, ps) <==> exists i :: 0 <= i < |flat| && flat[i].1.JString? && u in ValueMarks(flat[i].1.s, ps)
    decreases |flat|
  {
    if flat != [] {
      var n := |flat| - 1;
      var init := flat[..n];
      FlatMarksMembers(init, ps, u);
      if exists i :: 0 <= i < |init| && init[i].1.JString? && u in ValueMarks(init[i].1.s, ps) {
        var i :| 0 <= i < |init| && init[i].1.JString? && u in ValueMarks(init[i].1.s, ps);
        assert init[i] == flat[i];
      }
      if exists i :: 0 <= i < |flat| && flat[i].1.JString? && u in ValueMarks(flat[i].1.s, ps) {
        var i :| 0 <= i < |flat| && flat[i].1.JString? && u in ValueMarks(flat[i].1.s, ps);
        if i < n {
          assert init[i] == flat[i];
        }
      }
    }
  }

  /** Everything the search of the flattened view marks; nothing when either table is empty. */
  function SearchUses(flat: seq<FlatMaps.Entry>, defined: Dict<string>): set<string> {
    if flat == [] || defined == [] then {} else FlatMarks(flat, SearchPatterns(DictKeys(defined)))
  }

  /**
   * A name is marked by the search exactly when some string value of the
   * view contains a search pattern of some defined key that marks it.
   */
  lemma SearchUsesMembers(flat: seq<FlatMaps.Entry>, defined: Dict<string>, u: string)
    ensures u in SearchUses(flat, defined) <==>
      exists i, k, p :: 0 <= i < |flat| && 0 <= k < |defined| && flat[i].1.JString? && p in PatternsOf(defined[k].0)
        && Contains(flat[i].1.s, p) && Marked(p) == Some(u)
  {
    var keys := DictKeys(defined);
    var ps := SearchPatterns(keys);
    if flat != [] && defined != [] {
      FlatMarksMembers(flat, ps, u);
      if u in SearchUses(flat, defined) {
        var i :| 0 <= i < |flat| && flat[i].1.JString? && u in ValueMarks(flat[i].1.s, ps);
        ValueMarksMembers(flat[i].1.s, ps, u);
        var p :| p in ps && Contains(flat[i].1.s, p) && Marked(p) == Some(u);
        ConcatMapMembers(keys, PatternsOf, p);
        var k :| 0 <= k < |keys| && p in PatternsOf(keys[k]);
        assert keys[k] == defined[k].0;
      }
      if exists i, k, p :: 0 <= i < |flat| && 0 <= k < |defined| && flat[i].1.JString? && p in PatternsOf(defined[k].0)
          && Contains(flat[i].1.s, p) && Marked(p) == Some(u) {
        var i, k, p :| 0 <= i < |flat| && 0 <= k < |defined| && flat[i].1.JString? && p in PatternsOf(defined[k].0)
          && Contains(flat[i].1.s, p) && Marked(p) == Some(u);
        assert keys[k] == defined[k].0;
        ConcatMapMembers(keys, PatternsOf, p);
        ValueMarksMembers(flat[i].1.s, ps, u);
      }
    }
  }

  /** The search call, put in the form the four reference lemmas below use. */
  lemma SearchMarks(flat: seq<FlatMaps.Entry>, defined: Dict<string>, i: nat, key: string, p: string, u: string)
    requires i < |flat| && flat[i].1.JString? && Contains(flat[i].1.s, p)
    requires HasKey(defined, key) && p in PatternsOf(key) && Marked(p) == Some(u)
    ensures u in SearchUses(flat, defined)
  {
    var k :| 0 <= k < |defined| && defined[k].0 == key;
    SearchUsesMembers(flat, defined, u);
  }

  /** `split('.custom.')` of a component key is its component name and property name. */
  lemma SplitComponentKey(c: string, x: string)
    requires '.' !in c && '.' !in x
    ensures Split(c + ".custom." + x, ".custom.") == [c, x]
  {
    var s := c + ".custom." + x;
    assert s == c + "." + "custom" + "." + x;
    assert ".custom." == "." + "custom" + ".";
    DotFrame(c, "custom", x, "custom");
    FindSpec(s, ".custom.");
    var k := PyStr.Find(s, ".custom.");
    assert k == |c|;
    assert s[..k] == c;
    assert s[k + 8..] == x;
    AbsentChar(x, ".custom.", 0);
    FindSpec(x, ".custom.");
  }

  /** A dot-free component name other than `view` gives a key outside the `view.` namespace. */
  lemma ComponentKeyNotView(c: string, x: string)
    requires '.' !in c && c != "view"
    ensures !StartsWith(c + ".custom." + x, "view.")
    ensures !StartsWith(c + ".custom." + x, "view.custom.") && !StartsWith(c + ".custom." + x, "view.params.")
  {
    var s := c + ".custom." + x;
    NotPrefixed(c, ".custom." + x, "view");
    assert s == c + (".custom." + x);
    assert "view.custom."[..5] == "view" + ".";
    assert "view.params."[..5] == "view" + ".";
    if StartsWith(s, "view.custom.") {
      StartsWithPrefix(s, "view.custom.", "view.");
    }
    if StartsWith(s, "view.params.") {
      StartsWithPrefix(s, "view.params.", "view.");
    }
  }

  /** The patterns of a component key name the component and, generically, `this` and `self`. */
  lemma ComponentPatterns(c: string, x: string)
    requires '.' !in c && '.' !in x && c != "view"
    ensures PatternsOf(c + ".custom." + x) == [c + ".custom." + x, "this.custom." + x, "self.custom." + x]
  {
    var s := c + ".custom." + x;
    ComponentKeyNotView(c, x);
    SplitComponentKey(c, x);
    SplitPieces(s, ".custom.");
  }

  /** The patterns of a view custom property: the dotted path, its `self.` form and the short form. */
  lemma ViewCustomPatterns(x: string)
    ensures PatternsOf("view.custom." + x) == ["view.custom." + x, "self.view.custom." + x, "{" + x + "}"]
  {
    var key := "view.custom." + x;
    assert key[..12] == "view.custom.";
    assert key[12..] == x;
  }

  /** The patterns of a view parameter, likewise. */
  lemma ViewParamsPatterns(x: string)
    ensures PatternsOf("view.params." + x) == ["view.params." + x, "self.view.params." + x, "{" + x + "}"]
  {
    var key := "view.params." + x;
    assert key[..12] == "view.params.";
    assert key[5] == 'p';
    assert !StartsWith(key, "view.custom.");
    assert key[12..] == x;
  }

  lemma MarkedViewCustom(x: string)
    requires IsIdentifier(x)
    ensures Marked("view.custom." + x) == Some("view.custom." + x)
  {
    MarkedViewCustomAfter([], x);
    assert [] + "view.custom." + x == "view.custom." + x;
  }

  lemma MarkedViewParams(x: string)
    requires IsIdentifier(x)
    ensures Marked("view.params." + x) == Some("view.params." + x)
  {
    MarkedViewParamsAfter([], x);
    assert [] + "view.params." + x == "view.params." + x;
  }

  /** The generic forms are among the patterns of a component key. */
  lemma WildcardPattern(c: string, x: string, g: string)
    requires '.' !in c && c != "view" && IsIdentifier(x) && (g == "this" || g == "self")
    ensures g + ".custom." + x in PatternsOf(c + ".custom." + x)
  {
    ContainsChar(x, '.');
    ComponentPatterns(c, x);
    var ps := PatternsOf(c + ".custom." + x);
    if g == "this" {
      assert "this" + ".custom." == "this.custom.";
      assert ps[1] == g + ".custom." + x;
    } else {
      assert "self" + ".custom." == "self.custom.";
      assert ps[2] == g + ".custom." + x;
    }
  }

  /** A defined view custom property whose dotted path occurs in a string value of the view is marked. */
  lemma SearchFindsViewCustom(flat: seq<FlatMaps.Entry>, defined: Dict<string>, i: nat, x: string)
    requires HasKey(defined, "view.custom." + x) && IsIdentifier(x)
    requires i < |flat| && flat[i].1.JString? && Contains(flat[i].1.s, "view.custom." + x)
    ensures "view.custom." + x in SearchUses(flat, defined)
  {
    var key := "view.custom." + x;
    MarkedViewCustom(x);
    ViewCustomPatterns(x);
    SearchMarks(flat, defined, i, key, key, key);
  }

  /** A defined view parameter whose dotted path occurs in a string value of the view is marked. */
  lemma SearchFindsViewParams(flat: seq<FlatMaps.Entry>, defined: Dict<string>, i: nat, x: string)
    requires HasKey(defined, "view.params." + x) && IsIdentifier(x)
    requires i < |flat| && flat[i].1.JString? && Contains(flat[i].1.s, "view.params." + x)
    ensures "view.params." + x in SearchUses(flat, defined)
  {
    var key := "view.params." + x;
    MarkedViewParams(x);
    ViewParamsPatterns(x);
    SearchMarks(flat, defined, i, key, key, key);
  }

  /**
   * A defined component property whose `component.custom.name` occurs in
   * a string value of the view is marked, for component names the marker
   * reads back (see `ViewSuffixMisread` for the others).
   */
  lemma SearchFindsComponent(flat: seq<FlatMaps.Entry>, defined: Dict<string>, i: nat, c: string, x: string)
    requires c != [] && '.' !in c && IsIdentifier(x) && !EndsWith(c, "view") && c != "this" && c != "self"
    requires HasKey(defined, c + ".custom." + x)
    requires i < |flat| && flat[i].1.JString? && Contains(flat[i].1.s, c + ".custom." + x)
    ensures c + ".custom." + x in SearchUses(flat, defined)
  {
    var key := c + ".custom." + x;
    assert c != "view";
    ContainsChar(x, '.');
    ComponentPatterns(c, x);
    MarkedComponent(c, x);
    SearchMarks(flat, defined, i, key, key, key);
  }

  /** `this.custom.name` or `self.custom.name` in a string value marks the wildcard of a defined component property. */
  lemma SearchFindsWildcard(flat: seq<FlatMaps.Entry>, defined: Dict<string>, i: nat, c: string, x: string, g: string)
    requires '.' !in c && c != "view" && IsIdentifier(x) && (g == "this" || g == "self")
    requires HasKey(defined, c + ".custom." + x)
    requires i < |flat| && flat[i].1.JString? && Contains(flat[i].1.s, g + ".custom." + x)
    ensures "*.custom." + x in SearchUses(flat, defined)
  {
    var key := c + ".custom." + x;
    WildcardPattern(c, x, g);
    MarkedWildcardAfter(g, x);
    SearchMarks(flat, defined, i, key, g + ".custom." + x, "*.custom." + x);
  }

  // ---------------------------------------------------------------------
  // finalize

  /** The `is_used` test of `finalize`: the key itself, or for a component key the wildcard of its name. */
  predicate IsUsed(key: string, used: set<string>) {
    key in used
    || (Contains(key, ".custom.") && !StartsWith(key, "view.")
        && var parts := Split(key, ".custom."); "*.custom." + parts[|parts| - 1] in used)
  }

  /** A key in the `view.` namespace counts as used only when it was marked itself. */
  lemma ViewKeyUsed(w: string, y: string, used: set<string>)
    ensures IsUsed("view." + w + "." + y, used) <==> "view." + w + "." + y in used
  {
    var key := "view." + w + "." + y;
    assert key[..5] == "view.";
  }

  /** A component key counts as used when it, or the wildcard of its property name, was marked. */
  lemma ComponentKeyUsed(c: string, x: string, used: set<string>)
    requires '.' !in c && '.' !in x && c != "view"
    ensures IsUsed(c + ".custom." + x, used) <==> c + ".custom." + x in used || "*.custom." + x in used
  {
    var key := c + ".custom." + x;
    ComponentKeyNotView(c, x);
    SplitComponentKey(c, x);
    var parts := Split(key, ".custom.");
    assert parts[|parts| - 1] == x;
    assert key[|c|..|c| + 8] == ".custom.";
    assert OccursAt(key, ".custom.", |c|);
  }

  /** The definitions `finalize` collects as unused, in definition order. */
  function UnusedDefinitions(defined: Dict<string>, used: set<string>): Dict<string>
    decreases |defined|
  {
    if defined == [] then []
    else
      var e := defined[|defined| - 1];
      UnusedDefinitions(defined[..|defined| - 1], used) + (if IsUsed(e.0, used) then [] else [e])
  }

  /** Exactly the definitions that fail the `is_used` test are collected, and they keep their order. */
  lemma {:induction false} UnusedDefinitionsMembers(defined: Dict<string>, used: set<string>)
    ensures forall e :: e in UnusedDefinitions(defined, used) <==> e in defined && !IsUsed(e.0, used)
    ensures |UnusedDefinitions(defined, used)| <= |defined|
    decreases |defined|
  {
    if defined != [] {
      var init := defined[..|defined| - 1];
      UnusedDefinitionsMembers(init, used);
      assert defined == init + [defined[|defined| - 1]];
    }
  }

  /** The message for one unused definition: where it is defined, its kind and its last name segment. */
  function Report(e: (string, string)): string {
    e.1 + ": " + DefinitionKind(e.0) + " '" + AfterLast(e.0, ".") + "' is defined but never referenced"
  }

  function Reports(es: seq<(string, string)>): seq<string> {
    seq(|es|, i requires 0 <= i < |es| => Report(es[i]))
  }

  lemma ReportsSnoc(es: seq<(string, string)>, e: (string, string))
    ensures Reports(es + [e]) == Reports(es) + [Report(e)]
  {
    var r := Reports(es + [e]);
    forall i | 0 <= i < |es| ensures r[i] == Reports(es)[i] {
      assert (es + [e])[i] == es[i];
    }
  }

  /**
   * The message about a property node's definition starts with the node's
   * path, calls a `params.` parameter a view parameter and everything else
   * a custom property, and quotes the path's own last segment.
   */
  lemma ReportOfDefinition(path: string)
    requires DefinitionKey(path).Some?
    ensures Report((DefinitionKey(path).value, path)) ==
      path + ": " + (if StartsWith(path, "params.") && '.' !in path[7..] then "view parameter" else "custom property")
      + " '" + AfterLast(path, ".") + "' is defined but never referenced"
  {
    DefinitionKeyName(path);
    DefinitionKindOf(path);
  }

  // ---------------------------------------------------------------------
  // The visits

  /** What the rule has recorded: definitions by key, with their paths, and the names marked used. */
  datatype Tracking = Tracking(defined: Dict<string>, used: set<string>)

  /** The names one node marks used: bindings by their expression or tag path, scripts by their text. */
  function NodeUses(n: Node): set<string> {
    match n
    case ExpressionBinding(_, e) => ExpressionUses(e)
    case TagBinding(_, tagPath, _, _) => ExpressionUses(tagPath)
    case EventHandler(_, _, _, script, _) => ScriptUses(script)
    case MessageHandler(_, script, _, _) => ScriptUses(script)
    case CustomMethod(_, _, script, _) => ScriptUses(script)
    case Transform(_, script, _) => ScriptUses(script)
    case _ => {}
  }

  /**
   * One visit, for any way `key` of reading a definition off a property
   * path and any way `uses` of reading the references of a node: a
   * property node records its definition, the others their uses.
   */
  function Step(t: Tracking, n: Node, key: string -> Option<string>, uses: Node -> set<string>): Tracking {
    if n.Property? then
      var k := key(n.path);
      if k.Some? then t.(defined := Put(t.defined, k.value, n.path)) else t
    else t.(used := t.used + uses(n))
  }

  function Steps(t: Tracking, ns: seq<Node>, key: string -> Option<string>, uses: Node -> set<string>): Tracking
    decreases |ns|
  {
    if ns == [] then t else Step(Steps(t, ns[..|ns| - 1], key, uses), ns[|ns| - 1], key, uses)
  }

  /** What visiting one node records in this rule. */
  function Visit(t: Tracking, n: Node): Tracking {
    Step(t, n, DefinitionKey, NodeUses)
  }

  function VisitAll(t: Tracking, ns: seq<Node>): Tracking {
    Steps(t, ns, DefinitionKey, NodeUses)
  }

  /** One step keeps the definition keys distinct. */
  lemma StepDistinct(t: Tracking, n: Node, key: string -> Option<string>, uses: Node -> set<string>)
    requires Distinct(t.defined)
    ensures Distinct(Step(t, n, key, uses).defined)
  {
    if n.Property? && key(n.path).Some? {
      PutGet(t.defined, key(n.path).value, n.path);
    }
  }

  /** One step keeps every defined key. */
  lemma StepKeepsKey(t: Tracking, n: Node, key: string -> Option<string>, uses: Node -> set<string>, k: string)
    requires Distinct(t.defined) && HasKey(t.defined, k)
    ensures HasKey(Step(t, n, key, uses).defined, k)
  {
    if n.Property? && key(n.path).Some? {
      PutGet(t.defined, key(n.path).value, n.path);
    }
  }

  /** The definition one step makes maps its key to the node's path. */
  lemma StepRecords(t: Tracking, n: Node, key: string -> Option<string>, uses: Node -> set<string>)
    requires Distinct(t.defined) && n.Property? && key(n.path).Some?
    ensures Dicts.Get(Step(t, n, key, uses).defined, key(n.path).value) == Some(n.path)
  {
    PutGet(t.defined, key(n.path).value, n.path);
  }

  /** One step leaves the paths of the keys it does not define alone. */
  lemma StepKeepsPath(t: Tracking, n: Node, key: string -> Option<string>, uses: Node -> set<string>, k: string)
    requires Distinct(t.defined) && !(n.Property? && key(n.path) == Some(k))
    ensures Dicts.Get(Step(t, n, key, uses).defined, k) == Dicts.Get(t.defined, k)
  {
    if n.Property? && key(n.path).Some? {
      PutGet(t.defined, key(n.path).value, n.path);
    }
  }

  lemma {:induction false} StepsDistinct(t: Tracking, ns: seq<Node>, key: string -> Option<string>, uses: Node -> set<string>)
    requires Distinct(t.defined)
    ensures Distinct(Steps(t, ns, key, uses).defined)
    decreases |ns|
  {
    if ns != [] {
      StepsDistinct(t, ns[..|ns| - 1], key, uses);
      StepDistinct(Steps(t, ns[..|ns| - 1], key, uses), ns[|ns| - 1], key, uses);
    }
  }

  /** Visiting marks used exactly what was used before and what the visited nodes other than properties reference. */
  lemma {:induction false} StepsUses(t: Tracking, ns: seq<Node>, key: string -> Option<string>, uses: Node -> set<string>)
    ensures forall i :: 0 <= i < |ns| && !ns[i].Property? ==> uses(ns[i]) <= Steps(t, ns, key, uses).used
    ensures forall u :: u in Steps(t, ns, key, uses).used <==> u in t.used || exists i :: 0 <= i < |ns| && !ns[i].Property? && u in uses(ns[i])
    decreases |ns|
  {
    if ns != [] {
      var n := |ns| - 1;
      var init := ns[..n];
      StepsUses(t, init, key, uses);
      var before := Steps(t, init, key, uses);
      assert Steps(t, ns, key, uses) == Step(before, ns[n], key, uses);
      assert Step(before, ns[n], key, uses).used == before.used + (if ns[n].Property? then {} else uses(ns[n]));
      forall i | 0 <= i < n ensures init[i] == ns[i] {
      }
      forall u | u in Steps(t, ns, key, uses).used ensures u in t.used || exists i :: 0 <= i < |ns| && !ns[i].Property? && u in uses(ns[i]) {
        if u in before.used && u !in t.used {
          var i :| 0 <= i < |init| && !init[i].Property? && u in uses(init[i]);
          assert !ns[i].Property? && u in uses(ns[i]);
        }
      }
    }
  }

  /** A property node that defines a key leaves that key defined, whatever follows. */
  lemma {:induction false} StepsRecord(t: Tracking, ns: seq<Node>, key: string -> Option<string>, uses: Node -> set<string>, i: nat)
    requires Distinct(t.defined)
    requires i < |ns| && ns[i].Property? && key(ns[i].path).Some?
    ensures HasKey(Steps(t, ns, key, uses).defined, key(ns[i].path).value)
    decreases |ns|
  {
    var n := |ns| - 1;
    var init := ns[..n];
    var before := Steps(t, init, key, uses);
    assert Steps(t, ns, key, uses) == Step(before, ns[n], key, uses);
    StepsDistinct(t, init, key, uses);
    if i < n {
      StepsRecord(t, init, key, uses, i);
      assert init[i] == ns[i];
      StepKeepsKey(before, ns[n], key, uses, key(ns[i].path).value);
    } else {
      StepRecords(before, ns[n], key, uses);
    }
  }

  /** No property node after the `i`th defines the same key. */
  predicate LastDefinition(ns: seq<Node>, key: string -> Option<string>, i: nat)
    requires i < |ns|
  {
    forall j :: i < j < |ns| && ns[j].Property? ==> key(ns[j].path) != key(ns[i].path)
  }

  /** The path recorded for a key is that of the last property node defining it. */
  lemma {:induction false} StepsLocation(t: Tracking, ns: seq<Node>, key: string -> Option<string>, uses: Node -> set<string>, i: nat)
    requires Distinct(t.defined)
    requires i < |ns| && ns[i].Property? && key(ns[i].path).Some? && LastDefinition(ns, key, i)
    ensures Dicts.Get(Steps(t, ns, key, uses).defined, key(ns[i].path).value) == Some(ns[i].path)
    decreases |ns|
  {
    var n := |ns| - 1;
    var init := ns[..n];
    var before := Steps(t, init, key, uses);
    assert Steps(t, ns, key, uses) == Step(before, ns[n], key, uses);
    StepsDistinct(t, init, key, uses);
    if i < n {
      assert init[i] == ns[i];
      assert LastDefinition(init, key, i) by {
        forall j | i < j < |init| ensures init[j] == ns[j] {
        }
      }
      StepsLocation(t, init, key, uses, i);
      assert !(ns[n].Property? && key(ns[n].path) == key(ns[i].path));
      StepKeepsPath(before, ns[n], key, uses, key(ns[i].path).value);
    } else {
      StepRecords(before, ns[n], key, uses);
    }
  }


  /**
   * A view custom property that an expression binding references as
   * `{view.custom.name}` is defined and, whatever the flattened view
   * holds, not reported.
   */
  lemma ViewReferenceNotReported(t: Tracking, ns: seq<Node>, flat: seq<FlatMaps.Entry>, i: nat, j: nat, x: string)
    requires Distinct(t.defined) && '.' !in x && IsBraceCapture(x)
    requires i < |ns| && ns[i].Property? && ns[i].path == "custom." + x
    requires j < |ns| && ns[j].ExpressionBinding? && ns[j].expression == "{view.custom." + x + "}"
    ensures var r := VisitAll(t, ns);
      && HasKey(r.defined, "view.custom." + x)
      && forall e :: e in UnusedDefinitions(r.defined, r.used + SearchUses(flat, r.defined)) ==> e.0 != "view.custom." + x
  {
    var path := "custom." + x;
    assert path[..7] == "custom." && path[7..] == x;
    DefinitionKeyCases(path);
    StepsRecord(t, ns, DefinitionKey, NodeUses, i);
    StepsUses(t, ns, DefinitionKey, NodeUses);
    var r := VisitAll(t, ns);
    ExpressionReference(0, x);
    assert "view.custom." + x in NodeUses(ns[j]);
    UnusedDefinitionsMembers(r.defined, r.used + SearchUses(flat, r.defined));
  }

  /**
   * A component custom property that an expression binding references
   * generically as `{this.custom.name}` is defined under its component's
   * name and not reported.
   */
  lemma WildcardReferenceNotReported(t: Tracking, ns: seq<Node>, flat: seq<FlatMaps.Entry>, i: nat, j: nat,
                                     parent: string, comp: string, x: string)
    requires Distinct(t.defined)
    requires comp != [] && '.' !in comp && comp != "custom" && comp != "view"
    requires x != [] && '.' !in x && IsBraceCapture(x)
    requires !Contains(parent + "." + comp, ".custom.") && !StartsWith(parent, "propConfig")
    requires i < |ns| && ns[i].Property? && ns[i].path == parent + "." + comp + ".custom." + x
    requires j < |ns| && ns[j].ExpressionBinding? && ns[j].expression == "{this.custom." + x + "}"
    ensures var r := VisitAll(t, ns);
      && HasKey(r.defined, comp + ".custom." + x)
      && forall e :: e in UnusedDefinitions(r.defined, r.used + SearchUses(flat, r.defined)) ==> e.0 != comp + ".custom." + x
  {
    ComponentDefinition(parent, comp, x);
    StepsRecord(t, ns, DefinitionKey, NodeUses, i);
    StepsUses(t, ns, DefinitionKey, NodeUses);
    var r := VisitAll(t, ns);
    var used := r.used + SearchUses(flat, r.defined);
    ExpressionReference(2, x);
    assert "*.custom." + x in NodeUses(ns[j]);
    ComponentKeyUsed(comp, x, used);
    UnusedDefinitionsMembers(r.defined, used);
  }

  // ---------------------------------------------------------------------
  // The rule

  const ErrorMessage := "Unused custom properties and view parameters detection"

  /** Every node kind a view can define or reference a property in. */
  const TargetTypes: set<NodeType> := {
    PropertyType, ComponentType, ExpressionBindingType, PropertyBindingType, TagBindingType,
    EventHandlerType, MessageHandlerType, CustomMethodType, TransformType}

  /** `UnusedCustomPropertiesRule` */
  class UnusedCustomPropertiesRule {
    const targetNodeTypes: set<NodeType>
    /** Definition key to the path of the property node that defined it. */
    var definedProperties: Dict<string>
    var usedProperties: set<string>
    var flattenedJson: seq<FlatMaps.Entry>
    var errors: seq<string>

    function State(): Tracking
      reads this
    {
      Tracking(definedProperties, usedProperties)
    }

    constructor()
      ensures targetNodeTypes == TargetTypes
      ensures definedProperties == [] && usedProperties == {} && flattenedJson == [] && errors == []
    {
      targetNodeTypes := TargetTypes;
      definedProperties := [];
      usedProperties := {};
      flattenedJson := [];
      errors := [];
    }

    /** `reset`: forget everything recorded about the previous view. */
    method Reset()
      modifies this
      ensures definedProperties == [] && usedProperties == {} && flattenedJson == []
      ensures errors == old(errors)
    {
      definedProperties := [];
      usedProperties := {};
      flattenedJson := [];
    }

    method SetFlattenedJson(flat: seq<FlatMaps.Entry>)
      modifies this
      ensures flattenedJson == flat
      ensures State() == old(State()) && errors == old(errors)
    {
      flattenedJson := flat;
    }

    /** `visit_property` */
    method VisitProperty(path: string)
      modifies this
      ensures definedProperties == (if DefinitionKey(path).Some? then Put(old(definedProperties), DefinitionKey(path).value, path) else old(definedProperties))
      ensures usedProperties == old(usedProperties) && flattenedJson == old(flattenedJson) && errors == old(errors)
    {
      if StartsWith(path, "custom.") && '.' !in path[7..] {
        var name := path[7..];
        definedProperties := Put(definedProperties, "view.custom." + name, path);
      } else if StartsWith(path, "params.") && '.' !in path[7..] {
        var name := path[7..];
        definedProperties := Put(definedProperties, "view.params." + name, path);
      } else if Contains(path, ".custom.") && !StartsWith(path, "propConfig.") {
        var customMatch := CustomTail(path);
        if customMatch.Some? {
          var componentPath := Split(path, ".custom.")[0];
          var componentName := AfterLast(componentPath, ".");
          definedProperties := Put(definedProperties, componentName + ".custom." + customMatch.value, path);
        }
      }
    }

    /** The inner loop of `_check_expression_for_references`: each capture recorded under the handler's prefix. */
    method RecordCaptures(prefix: string, matches: seq<string>)
      modifies this
      ensures usedProperties == old(usedProperties) + WithPrefix(prefix, matches)
      ensures definedProperties == old(definedProperties) && flattenedJson == old(flattenedJson) && errors == old(errors)
    {
      var j := 0;
      while j < |matches|
        invariant 0 <= j <= |matches|
        invariant usedProperties == old(usedProperties) + WithPrefix(prefix, matches[..j])
        invariant definedProperties == old(definedProperties) && flattenedJson == old(flattenedJson) && errors == old(errors)
      {
        assert matches[..j + 1][..j] == matches[..j];
        usedProperties := usedProperties + {prefix + matches[j]};
        j := j + 1;
      }
      assert matches[..j] == matches;
    }

    /** `_check_expression_for_references`: each pattern's `{...}` captures, recorded under its prefix. */
    method CheckExpressionForReferences(e: string)
      modifies this
      ensures usedProperties == old(usedProperties) + ExpressionUses(e)
      ensures definedProperties == old(definedProperties) && flattenedJson == old(flattenedJson) && errors == old(errors)
    {
      if e == [] {
        return;
      }
      var handlers := ExpressionPatterns;
      var k := 0;
      while k < |handlers|
        invariant 0 <= k <= |handlers|
        invariant usedProperties == old(usedProperties) + PatternUses(e, handlers[..k])
        invariant definedProperties == old(definedProperties) && flattenedJson == old(flattenedJson) && errors == old(errors)
      {
        assert handlers[..k + 1][..k] == handlers[..k];
        RecordCaptures(handlers[k].1, BraceCaptures(e, handlers[k].0, 0));
        k := k + 1;
      }
      assert handlers[..k] == handlers;
    }

    /** The inner loop of `_check_script_for_references`: the branch chain on each match. */
    method RecordMatches(literal: string, matches: seq<string>)
      modifies this
      ensures usedProperties == old(usedProperties) + BranchUses(literal, matches)
      ensures definedProperties == old(definedProperties) && flattenedJson == old(flattenedJson) && errors == old(errors)
    {
      var j := 0;
      while j < |matches|
        invariant 0 <= j <= |matches|
        invariant usedProperties == old(usedProperties) + BranchUses(literal, matches[..j])
        invariant definedProperties == old(definedProperties) && flattenedJson == old(flattenedJson) && errors == old(errors)
      {
        assert matches[..j + 1][..j] == matches[..j];
        var m := matches[j];
        if Contains(literal, ".view.custom.") {
          usedProperties := usedProperties + {"view.custom." + m};
        } else if Contains(literal, ".view.params.") {
          usedProperties := usedProperties + {"view.params." + m};
        } else if Contains(literal, ".custom.") {
          usedProperties := usedProperties + {"*.custom." + m};
        }
        j := j + 1;
      }
      assert matches[..j] == matches;
    }

    /**
     * `_check_script_for_references`, with the branch chain testing the
     * text each pattern matches (see `ScriptUsesAsWritten` for the code as
     * written).
     */
    method CheckScriptForReferences(script: string)
      modifies this
      ensures usedProperties == old(usedProperties) + ScriptUses(script)
      ensures definedProperties == old(definedProperties) && flattenedJson == old(flattenedJson) && errors == old(errors)
    {
      if script == [] {
        return;
      }
      var patterns := ScriptPatterns;
      var k := 0;
      while k < |patterns|
        invariant 0 <= k <= |patterns|
        invariant usedProperties == old(usedProperties) + ScriptPatternUses(script, patterns[..k], false)
        invariant definedProperties == old(definedProperties) && flattenedJson == old(flattenedJson) && errors == old(errors)
      {
        assert patterns[..k + 1][..k] == patterns[..k];
        var literal := patterns[k].1;
        RecordMatches(literal, IdentCaptures(script, literal, 0));
        k := k + 1;
      }
      assert patterns[..k] == patterns;
    }

    /** `node.accept(self)` on this rule. */
    method Accept(n: Node)
      modifies this
      ensures State() == Visit(old(State()), n)
      ensures flattenedJson == old(flattenedJson) && errors == old(errors)
    {
      match n
      case Property(path, _, _, _, _) => VisitProperty(path);
      case ExpressionBinding(_, e) => CheckExpressionForReferences(e);
      case TagBinding(_, tagPath, _, _) =>
        if tagPath != [] {
          CheckExpressionForReferences(tagPath);
        }
      case EventHandler(_, _, _, script, _) =>
        if script != [] {
          CheckScriptForReferences(script);
        }
      case MessageHandler(_, script, _, _) =>
        if script != [] {
          CheckScriptForReferences(script);
        }
      case CustomMethod(_, _, script, _) =>
        if script != [] {
          CheckScriptForReferences(script);
        }
      case Transform(_, script, _) =>
        if script != [] {
          CheckScriptForReferences(script);
        }
      case _ =>
    }

    /** `_mark_property_used_from_pattern` */
    method MarkPropertyUsedFromPattern(pattern: string)
      modifies this
      ensures usedProperties == old(usedProperties) + MarkedUses(pattern)
      ensures definedProperties == old(definedProperties) && flattenedJson == old(flattenedJson) && errors == old(errors)
    {
      if Contains(pattern, "view.custom.") {
        var m := IdentSearch(pattern, "view.custom.");
        if m.Some? {
          usedProperties := usedProperties + {"view.custom." + m.value};
        }
      } else if Contains(pattern, "view.params.") {
        var m := IdentSearch(pattern, "view.params.");
        if m.Some? {
          usedProperties := usedProperties + {"view.params." + m.value};
        }
      } else if Contains(pattern, ".custom.") {
        if StartsWith(pattern, "this.custom.") || StartsWith(pattern, "self.custom.") {
          var m := IdentSearch(pattern, ".custom.");
          if m.Some? {
            usedProperties := usedProperties + {"*.custom." + m.value};
          }
        } else {
          var m := SegmentSearch(pattern, 0);
          if m.Some? {
            usedProperties := usedProperties + {m.value.0 + ".custom." + m.value.1};
          }
        }
      }
    }

    /** The loop of `_search_flattened_json_for_references` that builds the search patterns. */
    method CollectPatterns(keys: seq<string>) returns (patterns: seq<string>)
      ensures patterns == SearchPatterns(keys)
    {
      patterns := [];
      var k := 0;
      while k < |keys|
        invariant 0 <= k <= |keys|
        invariant patterns == ConcatMap(keys[..k], PatternsOf)
      {
        assert keys[..k + 1][..k] == keys[..k];
        patterns := patterns + PatternsOf(keys[k]);
        k := k + 1;
      }
      assert keys[..k] == keys;
    }

    /** The inner loop of the search: one string value tested against every pattern. */
    method MarkValue(v: string, patterns: seq<string>)
      modifies this
      ensures usedProperties == old(usedProperties) + ValueMarks(v, patterns)
      ensures definedProperties == old(definedProperties) && flattenedJson == old(flattenedJson) && errors == old(errors)
    {
      var j := 0;
      while j < |patterns|
        invariant 0 <= j <= |patterns|
        invariant usedProperties == old(usedProperties) + ValueMarks(v, patterns[..j])
        invariant definedProperties == old(definedProperties) && flattenedJson == old(flattenedJson) && errors == old(errors)
      {
        assert patterns[..j + 1][..j] == patterns[..j];
        if Contains(v, patterns[j]) {
          MarkPropertyUsedFromPattern(patterns[j]);
        }
        j := j + 1;
      }
      assert patterns[..j] == patterns;
    }

    /** `_search_flattened_json_for_references` */
    method SearchFlattenedJson()
      modifies this
      ensures usedProperties == old(usedProperties) + SearchUses(flattenedJson, definedProperties)
      ensures definedProperties == old(definedProperties) && flattenedJson == old(flattenedJson) && errors == old(errors)
    {
      if flattenedJson == [] || definedProperties == [] {
        return;
      }
      var patterns := CollectPatterns(DictKeys(definedProperties));
      var flat := flattenedJson;
      var i := 0;
      while i < |flat|
        invariant 0 <= i <= |flat|
        invariant usedProperties == old(usedProperties) + FlatMarks(flat[..i], patterns)
        invariant definedProperties == old(definedProperties) && flattenedJson == old(flattenedJson) && errors == old(errors)
      {
        assert flat[..i + 1][..i] == flat[..i];
        if flat[i].1.JString? {
          MarkValue(flat[i].1.s, patterns);
        }
        i := i + 1;
      }
      assert flat[..i] == flat;
    }

    /** The collecting loop of `finalize`. */
    method CollectUnused() returns (unused: Dict<string>)
      ensures unused == UnusedDefinitions(definedProperties, usedProperties)
    {
      var defined := definedProperties;
      unused := [];
      var k := 0;
      while k < |defined|
        invariant 0 <= k <= |defined|
        invariant unused == UnusedDefinitions(defined[..k], usedProperties)
      {
        assert defined[..k + 1][..k] == defined[..k];
        var propPath := defined[k].0;
        var isUsed := propPath in usedProperties;
        if !isUsed && Contains(propPath, ".custom.") && !StartsWith(propPath, "view.") {
          var parts := Split(propPath, ".custom.");
          isUsed := "*.custom." + parts[|parts| - 1] in usedProperties;
        }
        if !isUsed {
          unused := unused + [defined[k]];
        }
        k := k + 1;
      }
      assert defined[..k] == defined;
    }

    /** The reporting loop of `finalize`. */
    method ReportUnused(unused: Dict<string>)
      modifies this
      ensures errors == old(errors) + Reports(unused)
      ensures State() == old(State()) && flattenedJson == old(flattenedJson)
    {
      var j := 0;
      while j < |unused|
        invariant 0 <= j <= |unused|
        invariant errors == old(errors) + Reports(unused[..j])
        invariant State() == old(State()) && flattenedJson == old(flattenedJson)
      {
        var e := unused[j];
        var propType := if Contains(e.0, ".params.") then "view parameter" else "custom property";
        var message := e.1 + ": " + propType + " '" + AfterLast(e.0, ".") + "' is defined but never referenced";
        assert message == Report(e);
        assert unused[..j + 1] == unused[..j] + [e];
        ReportsSnoc(unused[..j], e);
        errors := errors + [message];
        j := j + 1;
      }
      assert unused[..j] == unused;
    }

    /** `finalize`: search the flattened view, then report every definition that is still unused. */
    method Finalize()
      modifies this
      ensures usedProperties == old(usedProperties) + SearchUses(flattenedJson, definedProperties)
      ensures errors == old(errors) + Reports(UnusedDefinitions(definedProperties, usedProperties))
      ensures definedProperties == old(definedProperties) && flattenedJson == old(flattenedJson)
    {
      SearchFlattenedJson();
      var unused := CollectUnused();
      ReportUnused(unused);
    }

    /**
     * `process_nodes`: the errors are cleared, the targeted nodes visited
     * in order, and the definitions still unused after the search of the
     * flattened view are reported.
     */
    method ProcessNodes(nodes: seq<Node>)
      modifies this
      ensures var t := VisitAll(old(State()), FilterByTypes(nodes, targetNodeTypes));
        && definedProperties == t.defined
        && usedProperties == t.used + SearchUses(flattenedJson, t.defined)
        && errors == Reports(UnusedDefinitions(definedProperties, usedProperties))
      ensures flattenedJson == old(flattenedJson)
    {
      errors := [];
      var applicable := FilterByTypes(nodes, targetNodeTypes);
      ghost var start := State();
      var k := 0;
      while k < |applicable|
        invariant 0 <= k <= |applicable|
        invariant State() == VisitAll(start, applicable[..k])
        invariant errors == [] && flattenedJson == old(flattenedJson)
      {
        assert applicable[..k + 1][..k] == applicable[..k];
        Accept(applicable[k]);
        k := k + 1;
      }
      assert applicable[..k] == applicable;
      Finalize();
    }
  }
}
