/**
 * rules/parameter_name.py: every key of a dict (and, when asked, of the
 * dicts below it) whose last dotted segment fails the configured naming
 * style is recorded, by its dotted path, under the caller's
 * `errors["parameters"]`, once, and never below a `props.params` parent.
 *
 * As for component names, the style checker is handed to the rule as a
 * function from the style and the acronym flag to its test. A non-dict
 * where Python calls `.items()` raises `AttributeError`; here that is an
 * `Err`.
 */
module ParameterName {
  import opened Wrappers
  import opened PyStr
  import opened JsonValue
  import Dicts
  import opened ComponentName

  const NoItems := "AttributeError: object has no attribute 'items'"

  /** `error_key` */
  const ParametersKey := "parameters"

  const NoParameterStyleMessage := "Parameter naming style not specified. Use either (parameter_style) or (parameter_style_rgx)."
  const TitleCaseMessage := "Title Case is not a valid parameter naming style. Use a different style."

  function BothParameterStylesMessage(style: string, styleRgx: string): string {
    "Cannot specify both (parameter_style: " + style + ", parameter_style_rgx: " + styleRgx + "). Choose one."
  }

  /** The constructor's three checks, then `self._style = style_rgx or style`. */
  function ChooseParameterStyle(style: Option<string>, styleRgx: Option<string>): Result<Option<string>> {
    if Given(styleRgx) && Given(style) then Err(BothParameterStylesMessage(style.value, styleRgx.value))
    else if styleRgx.None? && style.None? then Err(NoParameterStyleMessage)
    else if style == Some("Title Case") then Err(TitleCaseMessage)
    else Ok(if Given(styleRgx) then styleRgx else style)
  }

  /**
   * The constructor fails for both styles, for neither, and for a named
   * style `Title Case` unless a regex is given as well, in which case both
   * are reported; otherwise it picks its style as the component-name rule
   * does.
   */
  lemma ChooseParameterStyleSpec(style: Option<string>, styleRgx: Option<string>)
    ensures ChooseParameterStyle(style, styleRgx).Err? <==>
      (Given(style) && Given(styleRgx)) || (style.None? && styleRgx.None?) || style == Some("Title Case")
    ensures style == Some("Title Case") && !Given(styleRgx) ==> ChooseParameterStyle(style, styleRgx) == Err(TitleCaseMessage)
    ensures style == Some("Title Case") && Given(styleRgx) ==>
      ChooseParameterStyle(style, styleRgx) == Err(BothParameterStylesMessage("Title Case", styleRgx.value))
    ensures style != Some("Title Case") ==> ChooseParameterStyle(style, styleRgx).Ok? == ChooseStyle(style, styleRgx).Ok?
    ensures ChooseParameterStyle(style, styleRgx).Ok? ==> ChooseParameterStyle(style, styleRgx) == ChooseStyle(style, styleRgx)
  {
  }

  /** `_should_skip_key` */
  predicate ShouldSkip(key: string) {
    key in SkippedKeys || StartsWith(key, "$")
  }

  /** `_build_key_path` */
  function BuildKeyPath(parentKey: string, key: string): (r: string)
    ensures StartsWith(r, parentKey) && EndsWith(r, key)
  {
    if parentKey != "" then parentKey + "." + key else key
  }

  /** `_clean_key`: the text after the last `.`, or all of it. */
  function CleanKey(key: string): (r: string)
    ensures EndsWith(key, r) && !Contains(r, ".")
  {
    AfterLastFree(key, ".");
    AfterLast(key, ".")
  }

  /** Cleaning a key path gives what cleaning its last key gives. */
  lemma CleanKeyOfPath(parentKey: string, key: string)
    ensures CleanKey(BuildKeyPath(parentKey, key)) == CleanKey(key)
  {
    if parentKey != "" {
      AfterLastConcat(parentKey, ".", key);
    }
  }

  /** `_add_error_if_valid` */
  function AddError(found: seq<string>, keyPath: string, parentKey: string): (r: seq<string>)
    ensures r == found || (r == found + [keyPath] && keyPath !in found && !Contains(parentKey, "props.params"))
  {
    if !Contains(parentKey, "props.params") && keyPath !in found then found + [keyPath] else found
  }

  // ---------------------------------------------------------------------
  // `check`, as functions with the error list as accumulator.

  /** `check(data, errors, parent_key, recursive)`, `errors["parameters"]` given as `found`. */
  function CheckParams(correct: string -> bool, data: Json, parentKey: string, recursive: bool, found: seq<string>): Result<seq<string>>
    decreases data, 2
  {
    if !data.JObject? then Err(NoItems)
    else CheckKeys(correct, data.members, 0, parentKey, recursive, found)
  }

  function CheckKeys(correct: string -> bool, ms: seq<(string, Json)>, i: nat, parentKey: string, recursive: bool,
                     found: seq<string>): Result<seq<string>>
    requires i <= |ms|
    decreases JObject(ms), 1, |ms| - i
  {
    if i == |ms| then Ok(found)
    else
      var r := CheckKey(correct, ms, i, parentKey, recursive, found);
      if r.Err? then r else CheckKeys(correct, ms, i + 1, parentKey, recursive, r.value)
  }

  /** One turn of the loop: the member at `i`. */
  function CheckKey(correct: string -> bool, ms: seq<(string, Json)>, i: nat, parentKey: string, recursive: bool,
                    found: seq<string>): Result<seq<string>>
    requires i < |ms|
    decreases JObject(ms), 0
  {
    if ShouldSkip(ms[i].0) then Ok(found)
    else
      var keyPath := BuildKeyPath(parentKey, ms[i].0);
      var f := if !correct(CleanKey(keyPath)) then AddError(found, keyPath, parentKey) else found;
      MemberSmaller(ms, i);
      if recursive && ms[i].1.JObject? then CheckParams(correct, ms[i].1, keyPath, recursive, f) else Ok(f)
  }

  // ---------------------------------------------------------------------
  // A reference description: the keys visited, as (key path, parent path)
  // pairs in visiting order, and the recording of the failing ones.

  function Visited(data: Json, parentKey: string, recursive: bool): Result<seq<(string, string)>>
    decreases data, 2
  {
    if !data.JObject? then Err(NoItems)
    else VisitedKeys(data.members, 0, parentKey, recursive)
  }

  function VisitedKeys(ms: seq<(string, Json)>, i: nat, parentKey: string, recursive: bool): Result<seq<(string, string)>>
    requires i <= |ms|
    decreases JObject(ms), 1, |ms| - i
  {
    if i == |ms| then Ok([])
    else if ShouldSkip(ms[i].0) then VisitedKeys(ms, i + 1, parentKey, recursive)
    else
      var keyPath := BuildKeyPath(parentKey, ms[i].0);
      MemberSmaller(ms, i);
      var below := if recursive && ms[i].1.JObject? then Visited(ms[i].1, keyPath, recursive) else Ok([]);
      Then(Ok([(keyPath, parentKey)]), Then(below, VisitedKeys(ms, i + 1, parentKey, recursive)))
  }

  /** The visited keys, failing ones added in turn. */
  function Record(correct: string -> bool, found: seq<string>, ks: seq<(string, string)>): seq<string>
    decreases |ks|
  {
    if ks == [] then found
    else
      var f := if !correct(CleanKey(ks[0].0)) then AddError(found, ks[0].0, ks[0].1) else found;
      Record(correct, f, ks[1..])
  }

  function RecordedKeys(correct: string -> bool, ks: Result<seq<(string, string)>>, found: seq<string>): Result<seq<string>> {
    if ks.Err? then Err(ks.error) else Ok(Record(correct, found, ks.value))
  }

  lemma {:induction false} RecordAppend(correct: string -> bool, found: seq<string>, a: seq<(string, string)>, b: seq<(string, string)>)
    decreases |a|
    ensures Record(correct, found, a + b) == Record(correct, Record(correct, found, a), b)
  {
    if a == [] {
      assert a + b == b;
    } else {
      assert (a + b)[1..] == a[1..] + b;
      var f := if !correct(CleanKey(a[0].0)) then AddError(found, a[0].0, a[0].1) else found;
      RecordAppend(correct, f, a[1..], b);
    }
  }

  /** Recording only ever appends. */
  lemma {:induction false} RecordExtends(correct: string -> bool, found: seq<string>, ks: seq<(string, string)>)
    decreases |ks|
    ensures |found| <= |Record(correct, found, ks)| && Record(correct, found, ks)[..|found|] == found
  {
    if ks != [] {
      var f := if !correct(CleanKey(ks[0].0)) then AddError(found, ks[0].0, ks[0].1) else found;
      RecordExtends(correct, f, ks[1..]);
      assert f[..|found|] == found;
      assert Record(correct, found, ks)[..|found|] == Record(correct, found, ks)[..|f|][..|found|];
    }
  }

  /** No path is recorded twice. */
  predicate NoDuplicates(s: seq<string>) {
    forall p, q :: 0 <= p < q < |s| ==> s[p] != s[q]
  }

  lemma {:induction false} RecordNoDuplicates(correct: string -> bool, found: seq<string>, ks: seq<(string, string)>)
    requires NoDuplicates(found)
    decreases |ks|
    ensures NoDuplicates(Record(correct, found, ks))
  {
    if ks != [] {
      var f := if !correct(CleanKey(ks[0].0)) then AddError(found, ks[0].0, ks[0].1) else found;
      assert NoDuplicates(f) by {
        if f != found {
          forall p, q | 0 <= p < q < |f|
            ensures f[p] != f[q]
          {
            if q == |found| {
              assert f[p] == found[p];
            }
          }
        }
      }
      RecordNoDuplicates(correct, f, ks[1..]);
    }
  }

  /**
   * A path ends up recorded exactly when it was already there or it is a
   * visited key path whose cleaned form fails the style, seen under a
   * parent that does not contain `props.params`.
   */
  lemma {:induction false} RecordMembers(correct: string -> bool, found: seq<string>, ks: seq<(string, string)>)
    decreases |ks|
    ensures forall m :: m in Record(correct, found, ks) <==>
      m in found || exists k :: 0 <= k < |ks| && ks[k].0 == m && !correct(CleanKey(m)) && !Contains(ks[k].1, "props.params")
  {
    if ks != [] {
      var f := if !correct(CleanKey(ks[0].0)) then AddError(found, ks[0].0, ks[0].1) else found;
      RecordMembers(correct, f, ks[1..]);
      forall m
        ensures m in Record(correct, found, ks) <==>
          m in found || exists k :: 0 <= k < |ks| && ks[k].0 == m && !correct(CleanKey(m)) && !Contains(ks[k].1, "props.params")
      {
        if exists k :: 0 <= k < |ks[1..]| && ks[1..][k].0 == m && !correct(CleanKey(m)) && !Contains(ks[1..][k].1, "props.params") {
          var k :| 0 <= k < |ks[1..]| && ks[1..][k].0 == m && !correct(CleanKey(m)) && !Contains(ks[1..][k].1, "props.params");
          assert ks[k + 1] == ks[1..][k];
        }
        if exists k :: 0 <= k < |ks| && ks[k].0 == m && !correct(CleanKey(m)) && !Contains(ks[k].1, "props.params") {
          var k :| 0 <= k < |ks| && ks[k].0 == m && !correct(CleanKey(m)) && !Contains(ks[k].1, "props.params");
          if k > 0 {
            assert ks[1..][k - 1] == ks[k];
          }
        }
      }
    }
  }

  /** Under parents that all contain `props.params`, nothing is recorded. */
  lemma {:induction false} RecordSuppressed(correct: string -> bool, found: seq<string>, ks: seq<(string, string)>)
    requires forall k :: 0 <= k < |ks| ==> Contains(ks[k].1, "props.params")
    decreases |ks|
    ensures Record(correct, found, ks) == found
  {
    if ks != [] {
      assert Contains(ks[0].1, "props.params");
      RecordSuppressed(correct, found, ks[1..]);
    }
  }

  // ---------------------------------------------------------------------
  // The traversal against the reference.

  lemma RecordedKeysThen(correct: string -> bool, first: Result<seq<(string, string)>>, rest: Result<seq<(string, string)>>,
                         found: seq<string>, after: Result<seq<string>>)
    requires first.Ok? ==> after == RecordedKeys(correct, rest, Record(correct, found, first.value))
    ensures (if first.Err? then RecordedKeys(correct, first, found) else after) == RecordedKeys(correct, Then(first, rest), found)
  {
    if first.Ok? && rest.Ok? {
      RecordAppend(correct, found, first.value, rest.value);
    }
  }

  /**
   * The traversal fails exactly where the reference list does, and
   * otherwise records the visited keys in turn.
   */
  lemma {:induction false} CheckParamsSpec(correct: string -> bool, data: Json, parentKey: string, recursive: bool, found: seq<string>)
    decreases data, 2
    ensures CheckParams(correct, data, parentKey, recursive, found) == RecordedKeys(correct, Visited(data, parentKey, recursive), found)
  {
    if data.JObject? {
      CheckKeysSpec(correct, data.members, 0, parentKey, recursive, found);
    }
  }

  lemma {:induction false} CheckKeysSpec(correct: string -> bool, ms: seq<(string, Json)>, i: nat, parentKey: string, recursive: bool,
                                         found: seq<string>)
    requires i <= |ms|
    decreases JObject(ms), 1, |ms| - i
    ensures CheckKeys(correct, ms, i, parentKey, recursive, found) == RecordedKeys(correct, VisitedKeys(ms, i, parentKey, recursive), found)
  {
    if i == |ms| {
    } else if ShouldSkip(ms[i].0) {
      CheckKeysSpec(correct, ms, i + 1, parentKey, recursive, found);
    } else {
      var keyPath := BuildKeyPath(parentKey, ms[i].0);
      var f := if !correct(CleanKey(keyPath)) then AddError(found, keyPath, parentKey) else found;
      assert f == Record(correct, found, [(keyPath, parentKey)]);
      MemberSmaller(ms, i);
      var below := if recursive && ms[i].1.JObject? then Visited(ms[i].1, keyPath, recursive) else Ok([]);
      var checked := CheckKey(correct, ms, i, parentKey, recursive, found);
      if recursive && ms[i].1.JObject? {
        CheckParamsSpec(correct, ms[i].1, keyPath, recursive, f);
      }
      assert checked == RecordedKeys(correct, below, f);
      var rest := VisitedKeys(ms, i + 1, parentKey, recursive);
      var after := if below.Ok? then CheckKeys(correct, ms, i + 1, parentKey, recursive, checked.value) else checked;
      if below.Ok? {
        CheckKeysSpec(correct, ms, i + 1, parentKey, recursive, checked.value);
      }
      RecordedKeysThen(correct, below, rest, f, after);
      RecordedKeysThen(correct, Ok([(keyPath, parentKey)]), Then(below, rest), found,
        CheckKeys(correct, ms, i, parentKey, recursive, found));
    }
  }

  // ---------------------------------------------------------------------
  // The shape of the visited keys.

  /**
   * Every visited key lies below the starting parent, and without
   * recursion every one is a key of the dict itself.
   */
  predicate Under(ks: seq<(string, string)>, parentKey: string, recursive: bool) {
    forall k :: 0 <= k < |ks| ==> StartsWith(ks[k].1, parentKey) && (!recursive ==> ks[k].1 == parentKey)
  }

  lemma UnderAppend(a: seq<(string, string)>, b: seq<(string, string)>, parentKey: string, recursive: bool)
    requires Under(a, parentKey, recursive) && Under(b, parentKey, recursive)
    ensures Under(a + b, parentKey, recursive)
  {
    forall k | 0 <= k < |a + b|
      ensures StartsWith((a + b)[k].1, parentKey) && (!recursive ==> (a + b)[k].1 == parentKey)
    {
      if k < |a| {
        assert (a + b)[k] == a[k];
      } else {
        assert (a + b)[k] == b[k - |a|];
      }
    }
  }

  lemma StartsWithTrans(s: string, t: string, p: string)
    requires StartsWith(s, t) && StartsWith(t, p)
    ensures StartsWith(s, p)
  {
    assert s[..|p|] == s[..|t|][..|p|];
  }

  lemma UnderChild(ks: seq<(string, string)>, parentKey: string, key: string)
    requires Under(ks, BuildKeyPath(parentKey, key), true)
    ensures Under(ks, parentKey, true)
  {
    forall k | 0 <= k < |ks|
      ensures StartsWith(ks[k].1, parentKey)
    {
      StartsWithTrans(ks[k].1, BuildKeyPath(parentKey, key), parentKey);
    }
  }

  lemma {:induction false} VisitedUnder(data: Json, parentKey: string, recursive: bool)
    decreases data, 2
    ensures Visited(data, parentKey, recursive).Ok? ==> Under(Visited(data, parentKey, recursive).value, parentKey, recursive)
  {
    if data.JObject? {
      VisitedKeysUnder(data.members, 0, parentKey, recursive);
    }
  }

  lemma {:induction false} VisitedKeysUnder(ms: seq<(string, Json)>, i: nat, parentKey: string, recursive: bool)
    requires i <= |ms|
    decreases JObject(ms), 1, |ms| - i
    ensures VisitedKeys(ms, i, parentKey, recursive).Ok? ==> Under(VisitedKeys(ms, i, parentKey, recursive).value, parentKey, recursive)
  {
    if i < |ms| {
      VisitedKeysUnder(ms, i + 1, parentKey, recursive);
      if !ShouldSkip(ms[i].0) {
        var keyPath := BuildKeyPath(parentKey, ms[i].0);
        MemberSmaller(ms, i);
        var below := if recursive && ms[i].1.JObject? then Visited(ms[i].1, keyPath, recursive) else Ok([]);
        if recursive && ms[i].1.JObject? {
          VisitedUnder(ms[i].1, keyPath, recursive);
          if below.Ok? {
            UnderChild(below.value, parentKey, ms[i].0);
          }
        }
        var rest := VisitedKeys(ms, i + 1, parentKey, recursive);
        if below.Ok? && rest.Ok? {
          UnderAppend(below.value, rest.value, parentKey, recursive);
          UnderAppend([(keyPath, parentKey)], below.value + rest.value, parentKey, recursive);
        }
      }
    }
  }

  /** Only dicts are descended, so a dict is always traversed to the end. */
  lemma {:induction false} DictNeverFails(data: Json, parentKey: string, recursive: bool)
    requires data.JObject?
    decreases data, 2
    ensures Visited(data, parentKey, recursive).Ok?
  {
    DictKeysNeverFail(data.members, 0, parentKey, recursive);
  }

  lemma {:induction false} DictKeysNeverFail(ms: seq<(string, Json)>, i: nat, parentKey: string, recursive: bool)
    requires i <= |ms|
    decreases JObject(ms), 1, |ms| - i
    ensures VisitedKeys(ms, i, parentKey, recursive).Ok?
  {
    if i < |ms| {
      DictKeysNeverFail(ms, i + 1, parentKey, recursive);
      if !ShouldSkip(ms[i].0) && recursive && ms[i].1.JObject? {
        MemberSmaller(ms, i);
        DictNeverFails(ms[i].1, BuildKeyPath(parentKey, ms[i].0), recursive);
      }
    }
  }

  // ---------------------------------------------------------------------
  // What the source promises of `check`.

  /**
   * On a dict `check` always succeeds; it keeps the paths already
   * recorded, first, and records none twice; a path is added exactly when it
   * is a visited key whose cleaned form fails the style, seen under a
   * parent that does not contain `props.params`; and without recursion
   * every such parent is the starting one.
   */
  lemma CheckParamsRecords(correct: string -> bool, data: Json, parentKey: string, recursive: bool, found: seq<string>)
    requires data.JObject?
    ensures Visited(data, parentKey, recursive).Ok? && CheckParams(correct, data, parentKey, recursive, found).Ok?
    ensures var r := CheckParams(correct, data, parentKey, recursive, found).value;
      var ks := Visited(data, parentKey, recursive).value;
      && |found| <= |r| && r[..|found|] == found
      && (NoDuplicates(found) ==> NoDuplicates(r))
      && (forall m :: m in r <==> (m in found ||
            exists k :: 0 <= k < |ks| && ks[k].0 == m && !correct(CleanKey(m)) && !Contains(ks[k].1, "props.params")))
      && Under(ks, parentKey, recursive)
  {
    DictNeverFails(data, parentKey, recursive);
    CheckParamsSpec(correct, data, parentKey, recursive, found);
    var ks := Visited(data, parentKey, recursive).value;
    if NoDuplicates(found) {
      RecordNoDuplicates(correct, found, ks);
    }
    RecordMembers(correct, found, ks);
    RecordExtends(correct, found, ks);
    VisitedUnder(data, parentKey, recursive);
  }

  /** Below a parent containing `props.params` nothing is ever recorded, at any depth. */
  lemma PropsParamsSuppressed(correct: string -> bool, data: Json, parentKey: string, recursive: bool, found: seq<string>)
    requires Contains(parentKey, "props.params")
    ensures CheckParams(correct, data, parentKey, recursive, found).Ok? ==> CheckParams(correct, data, parentKey, recursive, found).value == found
  {
    CheckParamsSpec(correct, data, parentKey, recursive, found);
    VisitedUnder(data, parentKey, recursive);
    var ks := Visited(data, parentKey, recursive);
    if ks.Ok? {
      var i :| 0 <= i <= |parentKey| && OccursAt(parentKey, "props.params", i);
      forall k | 0 <= k < |ks.value|
        ensures Contains(ks.value[k].1, "props.params")
      {
        var t := ks.value[k].1;
        assert t == parentKey + t[|parentKey|..];
        OccursAtPrefix(parentKey, t[|parentKey|..], "props.params", i);
      }
      RecordSuppressed(correct, found, ks.value);
    }
  }

  // ---------------------------------------------------------------------
  // The rule.

  /** `ParameterNameRule` */
  class ParameterNameRule {
    const style: Option<string>
    const allowAcronyms: bool
    /** `self.style_checker.is_correct_style` */
    const isCorrectStyle: string -> bool
    /** Kept, never read. */
    const areas: seq<string>
    const keysToSkip: seq<string> := SkippedKeys

    /** The part of `__init__` past its checks, handed the chosen style. */
    constructor(style: Option<string>, allowAcronyms: bool, areas: seq<string>, styleChecker: (Option<string>, bool) -> string -> bool)
      ensures this.style == style && this.allowAcronyms == allowAcronyms && this.areas == areas
      ensures isCorrectStyle == styleChecker(style, allowAcronyms)
    {
      this.style := style;
      this.allowAcronyms := allowAcronyms;
      this.areas := areas;
      isCorrectStyle := styleChecker(style, allowAcronyms);
    }

    /** `ParameterNameRule(style, style_rgx, allow_acronyms, areas)`: the `ValueError`s, or the rule. */
    static method Create(style: Option<string>, styleRgx: Option<string>, allowAcronyms: bool, areas: seq<string>,
                         styleChecker: (Option<string>, bool) -> string -> bool)
      returns (r: Result<ParameterNameRule>)
      ensures ChooseParameterStyle(style, styleRgx).Err? ==> r == Err(ChooseParameterStyle(style, styleRgx).error)
      ensures ChooseParameterStyle(style, styleRgx).Ok? ==>
        && r.Ok? && fresh(r.value)
        && r.value.style == ChooseParameterStyle(style, styleRgx).value && r.value.allowAcronyms == allowAcronyms
        && r.value.areas == areas && r.value.isCorrectStyle == styleChecker(r.value.style, allowAcronyms)
    {
      if styleRgx.Some? && styleRgx.value != "" && style.Some? && style.value != "" {
        return Err(BothParameterStylesMessage(style.value, styleRgx.value));
      }
      if styleRgx.None? && style.None? {
        return Err(NoParameterStyleMessage);
      }
      if style == Some("Title Case") {
        return Err(TitleCaseMessage);
      }
      var chosen := if styleRgx.Some? && styleRgx.value != "" then styleRgx else style;
      var rule := new ParameterNameRule(chosen, allowAcronyms, areas, styleChecker);
      return Ok(rule);
    }

    /** `error_message` */
    function ErrorMessage(): (m: string)
      ensures StartsWith(m, "Parameter names should follow '")
    {
      "Parameter names should follow '" + OptionText(style) + "'"
    }

    /** `check` on one value, `errors["parameters"]` given as `found`. */
    method CheckInto(data: Json, found: seq<string>, parentKey: string, recursive: bool) returns (r: Result<seq<string>>)
      decreases data, 2
      ensures r == CheckParams(isCorrectStyle, data, parentKey, recursive, found)
    {
      if !data.JObject? {
        return Err(NoItems);
      }
      var ms := data.members;
      var acc := found;
      var i := 0;
      while i < |ms|
        invariant 0 <= i <= |ms|
        invariant CheckParams(isCorrectStyle, data, parentKey, recursive, found) == CheckKeys(isCorrectStyle, ms, i, parentKey, recursive, acc)
      {
        var sub := CheckMember(ms, i, acc, parentKey, recursive);
        if sub.Err? {
          return sub;
        }
        acc := sub.value;
        i := i + 1;
      }
      return Ok(acc);
    }

    /** The body of the loop over `data.items()`. */
    method CheckMember(ms: seq<(string, Json)>, i: nat, found: seq<string>, parentKey: string, recursive: bool)
      returns (r: Result<seq<string>>)
      requires i < |ms|
      decreases JObject(ms), 0
      ensures r == CheckKey(isCorrectStyle, ms, i, parentKey, recursive, found)
    {
      var key := ms[i].0;
      var value := ms[i].1;
      if key in keysToSkip || StartsWith(key, "$") {
        return Ok(found);
      }
      var keyPath := if parentKey != "" then parentKey + "." + key else key;
      var cleanKey := CleanKey(keyPath);
      var acc := found;
      if !isCorrectStyle(cleanKey) {
        if !Contains(parentKey, "props.params") && keyPath !in acc {
          acc := acc + [keyPath];
        }
      }
      MemberSmaller(ms, i);
      if recursive && value.JObject? {
        r := CheckInto(value, acc, keyPath, recursive);
      } else {
        r := Ok(acc);
      }
    }

    /** `check(data, errors, parent_key, recursive)`: `errors["parameters"]` is created when absent. */
    method Check(data: Json, errors: Dicts.Dict<seq<string>>, parentKey: string, recursive: bool)
      returns (r: Result<Dicts.Dict<seq<string>>>)
      ensures var start := if Dicts.HasKey(errors, ParametersKey) then Dicts.Get(errors, ParametersKey).value else [];
        var spec := CheckParams(isCorrectStyle, data, parentKey, recursive, start);
        r == if spec.Err? then Err(spec.error) else Ok(Dicts.Put(errors, ParametersKey, spec.value))
    {
      var start: seq<string> := [];
      var existing := Dicts.Get(errors, ParametersKey);
      if existing.Some? {
        start := existing.value;
      }
      var res := CheckInto(data, start, parentKey, recursive);
      if res.Err? {
        return Err(res.error);
      }
      return Ok(Dicts.Put(errors, ParametersKey, res.value));
    }
  }
}
