/**
 * The `now(n)` polling test and the rule of rules/polling_interval.py.
 * The regular expressions `now\s*\(\s*(\d*)\s*\)` and `now\s*\(` are
 * written as scanners; the strict form `now\((\d*)\)` used by
 * rules/expression_polling.py is the same scanner with spacing turned off.
 */
module Polling {
  import opened Wrappers
  import opened PyStr
  import opened Nodes

  const DefaultMinInterval: int := 10000

  // ---------------------------------------------------------------------
  // Scanners.

  predicate BlankSpan(s: string, j: nat, k: nat)
    requires j <= k <= |s|
  {
    forall m :: j <= m < k ==> IsSpace(s[m])
  }

  /** Past the greedy `\s*` that starts at `j` (nothing is skipped when spacing is off). */
  function SkipSpaces(s: string, j: nat, spaced: bool): (k: nat)
    requires j <= |s|
    ensures j <= k <= |s| && BlankSpan(s, j, k)
    ensures spaced && k < |s| ==> !IsSpace(s[k])
    ensures !spaced ==> k == j
    decreases |s| - j
  {
    if spaced && j < |s| && IsSpace(s[j]) then SkipSpaces(s, j + 1, spaced) else j
  }

  /** `)` at `e` closes a call whose group is `g`. */
  function CloseAt(s: string, e: nat, g: string): (r: Option<string>)
    ensures r.Some? ==> r.value == g
  {
    if e < |s| && s[e] == ')' then Some(g) else None
  }

  /** `(\d*)\s*\)` scanned from `b`. */
  function GroupAt(s: string, b: nat, spaced: bool): (r: Option<string>)
    requires b <= |s|
    ensures r.Some? ==> AllDigits(r.value)
  {
    var c := DigitsEnd(s, b);
    assert forall m :: 0 <= m < c - b ==> s[b..c][m] == s[b + m];
    CloseAt(s, SkipSpaces(s, c, spaced), s[b..c])
  }

  /** `\(\s*(\d*)\s*\)` scanned from `a`. */
  function ParenAt(s: string, a: nat, spaced: bool): (r: Option<string>)
    requires a <= |s|
    ensures r.Some? ==> AllDigits(r.value)
  {
    if a < |s| && s[a] == '(' then GroupAt(s, SkipSpaces(s, a + 1, spaced), spaced) else None
  }

  /**
   * The group captured when the call pattern matches at `i`, or None.
   * Every `\s*` is greedy, and so is `\d*`: the scanner takes the
   * longest runs, which is the match Python's engine reports.
   */
  function CallAt(s: string, i: nat, spaced: bool): (r: Option<string>)
    ensures r.Some? ==> AllDigits(r.value) && OccursAt(s, "now", i)
  {
    if !OccursAt(s, "now", i) then None
    else ParenAt(s, SkipSpaces(s, i + 3, spaced), spaced)
  }

  /** `now\s*\(` matches at `i`. */
  predicate OpenAt(s: string, i: nat) {
    OccursAt(s, "now", i) && SkipSpaces(s, i + 3, true) < |s| && s[SkipSpaces(s, i + 3, true)] == '('
  }

  /**
   * The call pattern matches at `i` with its pieces at the given indices:
   * `now` at `i`, blanks, `(` at `a`, blanks, digits `s[b..c]`, blanks and
   * `)` at `e`.
   */
  predicate CallShape(s: string, i: nat, a: nat, b: nat, c: nat, e: nat) {
    OccursAt(s, "now", i) && i + 3 <= a < b <= c <= e < |s|
    && BlankSpan(s, i + 3, a) && s[a] == '(' && BlankSpan(s, a + 1, b)
    && DigitSpan(s, b, c) && BlankSpan(s, c, e) && s[e] == ')'
  }

  /** The strict pattern `now\((\d*)\)`: no blanks anywhere. */
  predicate StrictShape(s: string, i: nat, c: nat) {
    CallShape(s, i, i + 3, i + 4, c, c)
  }

  lemma {:induction false} SkipSpacesTo(s: string, j: nat, k: nat)
    requires j <= k < |s| && BlankSpan(s, j, k) && !IsSpace(s[k])
    ensures SkipSpaces(s, j, true) == k
    decreases k - j
  {
    if j < k {
      SkipSpacesTo(s, j + 1, k);
    }
  }

  lemma {:induction false} DigitsEndTo(s: string, b: nat, c: nat)
    requires b <= c <= |s| && DigitSpan(s, b, c) && (c < |s| ==> !IsDigit(s[c]))
    ensures DigitsEnd(s, b) == c
    decreases c - b
  {
    if b < c {
      DigitsEndTo(s, b + 1, c);
    }
  }

  lemma BlankJoin(s: string, j: nat, k: nat, l: nat)
    requires j <= k <= l <= |s| && BlankSpan(s, j, k) && BlankSpan(s, k, l)
    ensures BlankSpan(s, j, l)
  {
  }

  lemma GroupAtComplete(s: string, b: nat, c: nat, e: nat)
    requires b <= c <= e < |s| && DigitSpan(s, b, c) && BlankSpan(s, c, e) && s[e] == ')'
    ensures GroupAt(s, b, true) == Some(s[b..c])
  {
    assert !IsDigit(s[c]);
    DigitsEndTo(s, b, c);
    SkipSpacesTo(s, c, e);
  }

  lemma ParenAtComplete(s: string, a: nat, b: nat, c: nat, e: nat)
    requires a < b <= c <= e < |s| && s[a] == '(' && BlankSpan(s, a + 1, b)
    requires DigitSpan(s, b, c) && BlankSpan(s, c, e) && s[e] == ')'
    ensures ParenAt(s, a, true) == Some(s[b..c])
  {
    if b == c {
      BlankJoin(s, a + 1, b, e);
      SkipSpacesTo(s, a + 1, e);
      GroupAtComplete(s, e, e, e);
      assert s[e..e] == [] == s[b..c];
    } else {
      assert !IsSpace(s[b]);
      SkipSpacesTo(s, a + 1, b);
      GroupAtComplete(s, b, c, e);
    }
  }

  /** Wherever the pattern matches, the scanner finds it, with `s[b..c]` as the group. */
  lemma CallAtComplete(s: string, i: nat, a: nat, b: nat, c: nat, e: nat)
    requires CallShape(s, i, a, b, c, e)
    ensures CallAt(s, i, true) == Some(s[b..c])
  {
    SkipSpacesTo(s, i + 3, a);
    ParenAtComplete(s, a, b, c, e);
  }

  /** Wherever the strict pattern matches, the strict scanner finds it. */
  lemma CallAtCompleteStrict(s: string, i: nat, c: nat)
    requires StrictShape(s, i, c)
    ensures CallAt(s, i, false) == Some(s[i + 4..c])
  {
    assert !IsDigit(s[c]);
    DigitsEndTo(s, i + 4, c);
  }

  /** Whatever the scanner finds is a match of the pattern; without spacing, of the strict one. */
  lemma CallAtSound(s: string, i: nat, spaced: bool)
    requires CallAt(s, i, spaced).Some?
    ensures exists a: nat, b: nat, c: nat, e: nat ::
      (CallShape(s, i, a, b, c, e) && CallAt(s, i, spaced).value == s[b..c]
       && (!spaced ==> a == i + 3 && b == i + 4 && c == e))
  {
    var a := SkipSpaces(s, i + 3, spaced);
    var b := SkipSpaces(s, a + 1, spaced);
    var c := DigitsEnd(s, b);
    var e := SkipSpaces(s, c, spaced);
    assert CallShape(s, i, a, b, c, e);
  }

  /**
   * A match leaves no room for another one to start inside it, so the
   * left-to-right scan of `findall` reports a group at every index where
   * the pattern matches.
   */
  lemma MatchesDoNotOverlap(s: string, i: nat, a: nat, b: nat, c: nat, e: nat, j: nat)
    requires CallShape(s, i, a, b, c, e) && i < j <= e
    ensures !OccursAt(s, "now", j)
  {
    assert s[i..i + 3] == "now";
    if j == i + 1 || j == i + 2 {
      assert s[j] == s[i..i + 3][j - i] != 'n';
    } else {
      assert s[j] != 'n';
    }
    assert j + 3 <= |s| ==> s[j..j + 3][0] == s[j];
  }

  // ---------------------------------------------------------------------
  // `re.findall` and the validity test.
  //
  // A match holds no `n` after its first three characters, so two matches
  // never overlap and `findall` reports a group for every index where the
  // pattern matches, left to right.

  function Matches(s: string, n: nat, spaced: bool): (r: seq<string>)
    requires n <= |s|
    ensures forall k :: 0 <= k < |r| ==> AllDigits(r[k])
  {
    if n == 0 then []
    else
      var r := CallAt(s, n - 1, spaced);
      Matches(s, n - 1, spaced) + (if r.Some? then [r.value] else [])
  }

  predicate HasCall(s: string, spaced: bool) {
    exists i :: 0 <= i < |s| && CallAt(s, i, spaced).Some?
  }

  predicate HasOpen(s: string) {
    exists i :: 0 <= i < |s| && OpenAt(s, i)
  }

  /** The groups of the first `n` indices are exactly the groups found at those indices. */
  lemma {:induction false} MatchesSpec(s: string, n: nat, spaced: bool)
    requires n <= |s|
    ensures forall g :: g in Matches(s, n, spaced) <==> exists i :: 0 <= i < n && CallAt(s, i, spaced) == Some(g)
  {
    if n > 0 {
      MatchesSpec(s, n - 1, spaced);
      var m, r := Matches(s, n - 1, spaced), CallAt(s, n - 1, spaced);
      assert Matches(s, n, spaced) == m + (if r.Some? then [r.value] else []);
      forall g | g in Matches(s, n, spaced)
        ensures exists i :: 0 <= i < n && CallAt(s, i, spaced) == Some(g)
      {
        if g in m {
          var i :| 0 <= i < n - 1 && CallAt(s, i, spaced) == Some(g);
        } else {
          assert r == Some(g);
        }
      }
      forall g, i | 0 <= i < n && CallAt(s, i, spaced) == Some(g)
        ensures g in Matches(s, n, spaced)
      {
        if i < n - 1 {
          assert g in m;
        }
      }
    }
  }

  lemma MatchesEmpty(s: string, spaced: bool)
    ensures Matches(s, |s|, spaced) == [] <==> !HasCall(s, spaced)
  {
    MatchesSpec(s, |s|, spaced);
    if HasCall(s, spaced) {
      var i :| 0 <= i < |s| && CallAt(s, i, spaced).Some?;
      assert CallAt(s, i, spaced).value in Matches(s, |s|, spaced);
    }
    if Matches(s, |s|, spaced) != [] {
      assert Matches(s, |s|, spaced)[0] in Matches(s, |s|, spaced);
    }
  }

  /** A captured interval the rule rejects: `now()`, or `0 < n < min`. */
  predicate BadInterval(g: string, min: int)
    requires AllDigits(g)
  {
    g == "" || (0 < DigitsValue(g) && DigitsValue(g) < min)
  }

  /**
   * `_is_valid_polling`: no `now` is valid; otherwise, when some call
   * matches, every captured interval must be acceptable; when none does,
   * a `now(` alone makes the text invalid.
   */
  predicate ValidPolling(s: string, min: int) {
    !Contains(s, "now")
    || (if HasCall(s, true)
        then forall i :: 0 <= i < |s| && CallAt(s, i, true).Some? ==> !BadInterval(CallAt(s, i, true).value, min)
        else !HasOpen(s))
  }

  method FindAll(s: string, spaced: bool) returns (ms: seq<string>)
    ensures ms == Matches(s, |s|, spaced)
  {
    ms := [];
    var i := 0;
    while i < |s|
      invariant 0 <= i <= |s|
      invariant ms == Matches(s, i, spaced)
    {
      var r := CallAt(s, i, spaced);
      if r.Some? {
        ms := ms + [r.value];
      }
      i := i + 1;
    }
  }

  method SearchOpen(s: string) returns (found: bool)
    ensures found == HasOpen(s)
  {
    var i := 0;
    while i < |s|
      invariant 0 <= i <= |s|
      invariant forall j :: 0 <= j < i ==> !OpenAt(s, j)
    {
      if OpenAt(s, i) {
        return true;
      }
      i := i + 1;
    }
    return false;
  }

  /** Over the `findall` list, validity is a test of each captured group in turn. */
  lemma ValidByMatches(s: string, min: int)
    requires Contains(s, "now")
    ensures var ms := Matches(s, |s|, true);
      ValidPolling(s, min) <==> if ms == [] then !HasOpen(s) else forall j :: 0 <= j < |ms| ==> !BadInterval(ms[j], min)
  {
    var ms := Matches(s, |s|, true);
    MatchesSpec(s, |s|, true);
    MatchesEmpty(s, true);
    if ms != [] {
      if ValidPolling(s, min) {
        forall j | 0 <= j < |ms| ensures !BadInterval(ms[j], min) {
          assert ms[j] in ms;
        }
      }
      if forall j :: 0 <= j < |ms| ==> !BadInterval(ms[j], min) {
        forall i | 0 <= i < |s| && CallAt(s, i, true).Some?
          ensures !BadInterval(CallAt(s, i, true).value, min)
        {
          assert CallAt(s, i, true).value in ms;
        }
      }
    }
  }

  /** `_is_valid_polling`, with its early returns. */
  method IsValidPolling(expression: string, minInterval: int) returns (valid: bool)
    ensures valid == ValidPolling(expression, minInterval)
  {
    if !Contains(expression, "now") {
      return true;
    }
    var matches := FindAll(expression, true);
    ValidByMatches(expression, minInterval);
    if |matches| == 0 {
      var open := SearchOpen(expression);
      return !open;
    }
    var k := 0;
    while k < |matches|
      invariant 0 <= k <= |matches|
      invariant forall j :: 0 <= j < k ==> !BadInterval(matches[j], minInterval)
    {
      if matches[k] == "" || (0 < DigitsValue(matches[k]) && DigitsValue(matches[k]) < minInterval) {
        return false;
      }
      k := k + 1;
    }
    return true;
  }

  /**
   * The strict `_is_valid_polling` of rules/expression_polling.py: no `now`
   * is valid; otherwise at least one `now(digits)` must occur and every
   * captured interval must be acceptable.
   */
  predicate StrictValidPolling(s: string, min: int) {
    !Contains(s, "now")
    || (HasCall(s, false)
        && forall i :: 0 <= i < |s| && CallAt(s, i, false).Some? ==> !BadInterval(CallAt(s, i, false).value, min))
  }

  lemma StrictByMatches(s: string, min: int)
    requires Contains(s, "now")
    ensures var ms := Matches(s, |s|, false);
      StrictValidPolling(s, min) <==> ms != [] && forall j :: 0 <= j < |ms| ==> !BadInterval(ms[j], min)
  {
    var ms := Matches(s, |s|, false);
    MatchesSpec(s, |s|, false);
    MatchesEmpty(s, false);
    if ms != [] {
      if StrictValidPolling(s, min) {
        forall j | 0 <= j < |ms| ensures !BadInterval(ms[j], min) {
          assert ms[j] in ms;
        }
      }
      if forall j :: 0 <= j < |ms| ==> !BadInterval(ms[j], min) {
        forall i | 0 <= i < |s| && CallAt(s, i, false).Some?
          ensures !BadInterval(CallAt(s, i, false).value, min)
        {
          assert CallAt(s, i, false).value in ms;
        }
      }
    }
  }

  /** The strict `_is_valid_polling`, with its early returns. */
  method IsStrictValidPolling(expression: string, minInterval: int) returns (valid: bool)
    ensures valid == StrictValidPolling(expression, minInterval)
  {
    if !Contains(expression, "now") {
      return true;
    }
    var matches := FindAll(expression, false);
    StrictByMatches(expression, minInterval);
    if |matches| == 0 {
      return false;
    }
    var k := 0;
    while k < |matches|
      invariant 0 <= k <= |matches|
      invariant forall j :: 0 <= j < k ==> !BadInterval(matches[j], minInterval)
    {
      if matches[k] == "" || (0 < DigitsValue(matches[k]) && DigitsValue(matches[k]) < minInterval) {
        return false;
      }
      k := k + 1;
    }
    return true;
  }

  /** A strict call is also a spaced call, with the same group. */
  lemma StrictCallIsCall(s: string, i: nat)
    requires CallAt(s, i, false).Some?
    ensures CallAt(s, i, true) == CallAt(s, i, false)
  {
    CallAtSound(s, i, false);
    var a: nat, b: nat, c: nat, e: nat :| CallShape(s, i, a, b, c, e)
      && CallAt(s, i, false).value == s[b..c] && a == i + 3 && b == i + 4 && c == e;
    CallAtComplete(s, i, a, b, c, e);
  }

  /** One rejected call fails the whole text, whatever else it holds. */
  lemma OneBadCallFails(s: string, i: nat, min: int)
    requires CallAt(s, i, true).Some? && BadInterval(CallAt(s, i, true).value, min)
    ensures !ValidPolling(s, min)
  {
    assert OccursAt(s, "now", i);
  }

  /** An interval below the minimum fails. */
  lemma ShortIntervalFails()
    ensures !ValidPolling("now(5)", DefaultMinInterval)
  {
    var s := "now(5)";
    CallAtComplete(s, 0, 3, 4, 5, 5);
    assert s[4..5] == "5";
    assert DigitsValue("5") == 5 by {
      assert "5"[..0] == "";
    }
    OneBadCallFails(s, 0, DefaultMinInterval);
  }

  /** `now()` fails. */
  lemma EmptyIntervalFails()
    ensures !ValidPolling("now()", DefaultMinInterval)
  {
    var s := "now()";
    CallAtComplete(s, 0, 3, 4, 4, 4);
    assert s[4..4] == "";
    OneBadCallFails(s, 0, DefaultMinInterval);
  }

  // ---------------------------------------------------------------------
  // The rule of rules/polling_interval.py.

  /** The error text of a failing expression binding. */
  function Report(n: Node): string
    requires n.ExpressionBinding?
  {
    n.path + ": '" + n.expression + "'"
  }

  /** The visits' test: the text mentions `now` and its polling is not valid. */
  predicate Fails(min: int, e: string) {
    Contains(e, "now") && !ValidPolling(e, min)
  }

  /** `if 'now' in e: if not self._is_valid_polling(e): ...` */
  method CheckExpression(e: string, min: int) returns (fails: bool)
    ensures fails == Fails(min, e)
  {
    fails := false;
    if Contains(e, "now") {
      var valid := IsValidPolling(e, min);
      fails := !valid;
    }
  }

  /** `visit_expression_binding` records `n`. */
  predicate Flags(min: int, n: Node) {
    n.ExpressionBinding? && Fails(min, n.expression)
  }

  /** The errors of a run over `nodes`, in node order. */
  function Violations(min: int, nodes: seq<Node>): (r: seq<string>)
    ensures |r| <= |nodes|
  {
    if nodes == [] then []
    else (if Flags(min, nodes[0]) then [Report(nodes[0])] else []) + Violations(min, nodes[1..])
  }

  lemma {:induction false} ViolationsAppend(min: int, a: seq<Node>, b: seq<Node>)
    ensures Violations(min, a + b) == Violations(min, a) + Violations(min, b)
  {
    if a == [] {
      assert a + b == b;
    } else {
      assert (a + b)[0] == a[0];
      assert (a + b)[1..] == a[1..] + b;
      ViolationsAppend(min, a[1..], b);
    }
  }

  lemma ViolationsSnoc(min: int, nodes: seq<Node>, k: nat)
    requires k < |nodes|
    ensures Violations(min, nodes[..k + 1])
      == Violations(min, nodes[..k]) + (if Flags(min, nodes[k]) then [Report(nodes[k])] else [])
  {
    assert nodes[..k + 1] == nodes[..k] + [nodes[k]];
    ViolationsAppend(min, nodes[..k], [nodes[k]]);
  }

  /** Each error names a flagged node, and each flagged node gives an error. */
  lemma {:induction false} ViolationsSpec(min: int, nodes: seq<Node>)
    ensures forall m :: m in Violations(min, nodes) <==>
      exists n :: n in nodes && Flags(min, n) && m == Report(n)
  {
    if nodes != [] {
      ViolationsSpec(min, nodes[1..]);
      assert forall n :: n in nodes <==> n == nodes[0] || n in nodes[1..];
    }
  }

  /** Filtering by a target set that holds expression bindings drops no error. */
  lemma {:induction false} ViolationsFilter(min: int, nodes: seq<Node>, targets: set<NodeType>)
    requires ExpressionBindingType in targets
    ensures Violations(min, FilterByTypes(nodes, targets)) == Violations(min, nodes)
  {
    if nodes != [] {
      ViolationsFilter(min, nodes[1..], targets);
      if !AppliesToRule(nodes[0], targets) {
        assert !Flags(min, nodes[0]);
      }
    }
  }

  /** A view whose expressions never mention `now` gives no errors. */
  lemma {:induction false} NoPollingNoErrors(min: int, nodes: seq<Node>)
    requires forall k :: 0 <= k < |nodes| && nodes[k].ExpressionBinding? ==> !Contains(nodes[k].expression, "now")
    ensures Violations(min, nodes) == []
  {
    if nodes != [] {
      NoPollingNoErrors(min, nodes[1..]);
    }
  }

  /** `PollingIntervalRule` of rules/polling_interval.py. */
  class PollingIntervalRule {
    const minInterval: int
    const targets: set<NodeType> := {ExpressionBindingType, PropertyBindingType, TagBindingType}
    var errors: seq<string>

    constructor(minInterval: int)
      ensures this.minInterval == minInterval && errors == []
    {
      this.minInterval := minInterval;
      errors := [];
    }

    method VisitExpressionBinding(n: Node)
      requires n.ExpressionBinding?
      modifies this
      ensures errors == old(errors) + (if Flags(minInterval, n) then [Report(n)] else [])
    {
      if Contains(n.expression, "now") {
        var valid := IsValidPolling(n.expression, minInterval);
        if !valid {
          errors := errors + [n.path + ": '" + n.expression + "'"];
        }
      }
    }

    /** `node.accept(self)`: only the expression-binding visit does anything. */
    method Accept(n: Node)
      modifies this
      ensures errors == old(errors) + (if Flags(minInterval, n) then [Report(n)] else [])
    {
      match n
      case ExpressionBinding(_, _) => VisitExpressionBinding(n);
      case _ =>
    }

    /** `process_nodes`: reset, visit the applicable nodes in order. */
    method ProcessNodes(nodes: seq<Node>)
      modifies this
      ensures errors == Violations(minInterval, nodes)
    {
      errors := [];
      var applicable := FilterByTypes(nodes, targets);
      var k := 0;
      while k < |applicable|
        invariant 0 <= k <= |applicable|
        invariant errors == Violations(minInterval, applicable[..k])
      {
        Accept(applicable[k]);
        ViolationsSnoc(minInterval, applicable, k);
        k := k + 1;
      }
      assert applicable[..k] == applicable;
      ViolationsFilter(minInterval, nodes, targets);
    }
  }
}
