/**
 * rules/component_name.py: every component of the decoded view whose
 * `meta.name` fails the configured naming style is recorded, by its
 * slash-separated path, under the caller's `errors["components"]`.
 *
 * The style checker is not part of this model: the rule is handed a
 * function from the configured style and the acronym flag to the
 * checker's `is_correct_style` test, and applies it to the text of each
 * name. A non-dict where Python calls `.get()` raises `AttributeError`;
 * here that is an `Err`, and the caller's dict is then not returned.
 */
module ComponentName {
  import opened Wrappers
  import opened PyStr
  import opened JsonValue
  import Dicts

  const NoGet := "AttributeError: object has no attribute 'get'"

  /** `error_key` */
  const ErrorKey := "components"

  /** The members whose values are never searched for components. */
  const SkippedKeys: seq<string> := ["props", "position", "type", "meta", "propConfig", "scripts"]

  /** `x not in [None, ""]` */
  predicate Given(s: Option<string>) {
    s.Some? && s.value != ""
  }

  /** `f"{x}"` of an optional string. */
  function OptionText(s: Option<string>): string {
    if s.Some? then s.value else "None"
  }

  const NoStyleMessage := "Component naming style not specified. Use either (component_style) or (component_style_rgx)."

  function BothStylesMessage(style: string, styleRgx: string): string {
    "Cannot specify both (component_style: " + style + ", component_style_rgx: " + styleRgx + "). Choose one."
  }

  /** The constructor's checks, then `self._style = style_rgx or style`. */
  function ChooseStyle(style: Option<string>, styleRgx: Option<string>): Result<Option<string>> {
    if Given(styleRgx) && Given(style) then Err(BothStylesMessage(style.value, styleRgx.value))
    else if styleRgx.None? && style.None? then Err(NoStyleMessage)
    else Ok(if Given(styleRgx) then styleRgx else style)
  }

  /**
   * The constructor fails exactly when both styles are given or neither is
   * passed, a given regex wins over the named style, and the rule ends up
   * with no style at all exactly when the only argument passed is an empty
   * regex.
   */
  lemma ChooseStyleSpec(style: Option<string>, styleRgx: Option<string>)
    ensures ChooseStyle(style, styleRgx).Err? <==> (Given(style) && Given(styleRgx)) || (style.None? && styleRgx.None?)
    ensures Given(style) && Given(styleRgx) ==> ChooseStyle(style, styleRgx) == Err(BothStylesMessage(style.value, styleRgx.value))
    ensures Given(styleRgx) && !Given(style) ==> ChooseStyle(style, styleRgx) == Ok(styleRgx)
    ensures style.Some? && !Given(styleRgx) ==> ChooseStyle(style, styleRgx) == Ok(style)
    ensures ChooseStyle(style, styleRgx) == Ok(None) <==> style.None? && styleRgx == Some("")
  {
  }

  // ---------------------------------------------------------------------
  // `check`, as functions with the error list as accumulator.

  /** `data.get("meta", {}).get("name")` of a dict; a JSON null name reads as no name. */
  function MetaName(ms: seq<(string, Json)>): Result<Option<Json>> {
    match Get(ms, "meta")
    case None => Ok(None)
    case Some(m) =>
      if !m.JObject? then Err(NoGet)
      else match Get(m.members, "name")
        case None => Ok(None)
        case Some(n) => if n.JNull? then Ok(None) else Ok(Some(n))
  }

  predicate IsRoot(name: Option<Json>) {
    name == Some(JString("root"))
  }

  /** The path below a component: `root` resets it, another name extends it with `/name`. */
  function ComponentPath(parentKey: string, name: Option<Json>): string {
    if IsRoot(name) then "root"
    else if name.Some? then parentKey + "/" + Text(name.value)
    else parentKey
  }

  /** `check(data, errors, parent_key)`, `errors["components"]` given as `found`. */
  function CheckValue(correct: string -> bool, data: Json, parentKey: string, found: seq<string>): Result<seq<string>>
    decreases data, 2
  {
    if !data.JObject? then Err(NoGet)
    else match MetaName(data.members)
      case Err(e) => Err(e)
      case Ok(name) =>
        var path := ComponentPath(parentKey, name);
        var f := if name.Some? && !IsRoot(name) && !correct(Text(name.value)) then found + [path] else found;
        CheckMembers(correct, data.members, 0, path, f)
  }

  function CheckMembers(correct: string -> bool, ms: seq<(string, Json)>, i: nat, parentKey: string, found: seq<string>): Result<seq<string>>
    requires i <= |ms|
    decreases JObject(ms), 1, |ms| - i
  {
    if i == |ms| then Ok(found)
    else
      var value := ms[i].1;
      MemberSmaller(ms, i);
      var r :=
        if ms[i].0 in SkippedKeys then Ok(found)
        else if value.JObject? then CheckValue(correct, value, parentKey, found)
        else if value.JArray? then CheckItems(correct, value.items, 0, parentKey, found)
        else Ok(found);
      if r.Err? then r else CheckMembers(correct, ms, i + 1, parentKey, r.value)
  }

  function CheckItems(correct: string -> bool, items: seq<Json>, j: nat, parentKey: string, found: seq<string>): Result<seq<string>>
    requires j <= |items|
    decreases JArray(items), 1, |items| - j
  {
    if j == |items| then Ok(found)
    else
      var r := CheckValue(correct, items[j], parentKey, found);
      if r.Err? then r else CheckItems(correct, items, j + 1, parentKey, r.value)
  }

  // ---------------------------------------------------------------------
  // A reference description: the named components of the subtree in
  // visiting order, each with its path and the text of its name, found
  // without looking at the style.

  function Own(path: string, name: Option<Json>): seq<(string, string)> {
    if name.Some? && !IsRoot(name) then [(path, Text(name.value))] else []
  }

  function Named(data: Json, parentKey: string): Result<seq<(string, string)>>
    decreases data, 2
  {
    if !data.JObject? then Err(NoGet)
    else match MetaName(data.members)
      case Err(e) => Err(e)
      case Ok(name) =>
        var path := ComponentPath(parentKey, name);
        Then(Ok(Own(path, name)), NamedMembers(data.members, 0, path))
  }

  function NamedMembers(ms: seq<(string, Json)>, i: nat, parentKey: string): Result<seq<(string, string)>>
    requires i <= |ms|
    decreases JObject(ms), 1, |ms| - i
  {
    if i == |ms| then Ok([])
    else
      var value := ms[i].1;
      MemberSmaller(ms, i);
      var r :=
        if ms[i].0 in SkippedKeys then Ok([])
        else if value.JObject? then Named(value, parentKey)
        else if value.JArray? then NamedItems(value.items, 0, parentKey)
        else Ok([]);
      Then(r, NamedMembers(ms, i + 1, parentKey))
  }

  function NamedItems(items: seq<Json>, j: nat, parentKey: string): Result<seq<(string, string)>>
    requires j <= |items|
    decreases JArray(items), 1, |items| - j
  {
    if j == |items| then Ok([])
    else Then(Named(items[j], parentKey), NamedItems(items, j + 1, parentKey))
  }

  /** The first failure, or both lists in order. */
  function Then<T>(first: Result<seq<T>>, rest: Result<seq<T>>): Result<seq<T>> {
    if first.Err? then first else if rest.Err? then rest else Ok(first.value + rest.value)
  }

  /** The paths of the components whose names fail the style. */
  function Failing(correct: string -> bool, ns: seq<(string, string)>): (r: seq<string>)
    ensures |r| <= |ns|
  {
    if ns == [] then []
    else (if !correct(ns[0].1) then [ns[0].0] else []) + Failing(correct, ns[1..])
  }

  lemma {:induction false} FailingAppend(correct: string -> bool, a: seq<(string, string)>, b: seq<(string, string)>)
    ensures Failing(correct, a + b) == Failing(correct, a) + Failing(correct, b)
  {
    if a == [] {
      assert a + b == b;
    } else {
      assert (a + b)[1..] == a[1..] + b;
      FailingAppend(correct, a[1..], b);
    }
  }

  /** A path is recorded exactly for each visited component whose name fails. */
  lemma {:induction false} FailingMembers(correct: string -> bool, ns: seq<(string, string)>)
    ensures forall m :: m in Failing(correct, ns) <==> exists k :: 0 <= k < |ns| && ns[k].0 == m && !correct(ns[k].1)
  {
    if ns != [] {
      FailingMembers(correct, ns[1..]);
      forall m | m in Failing(correct, ns)
        ensures exists k :: 0 <= k < |ns| && ns[k].0 == m && !correct(ns[k].1)
      {
        if m !in Failing(correct, ns[1..]) {
          assert ns[0].0 == m && !correct(ns[0].1);
        } else {
          var k :| 0 <= k < |ns[1..]| && ns[1..][k].0 == m && !correct(ns[1..][k].1);
          assert ns[k + 1] == ns[1..][k];
        }
      }
      forall m | exists k :: 0 <= k < |ns| && ns[k].0 == m && !correct(ns[k].1)
        ensures m in Failing(correct, ns)
      {
        var k :| 0 <= k < |ns| && ns[k].0 == m && !correct(ns[k].1);
        if k > 0 {
          assert ns[1..][k - 1] == ns[k];
        }
      }
    }
  }

  /** What the traversal adds to `found`, given the reference list. */
  function Recorded(correct: string -> bool, ns: Result<seq<(string, string)>>, found: seq<string>): Result<seq<string>> {
    if ns.Err? then Err(ns.error) else Ok(found + Failing(correct, ns.value))
  }

  /**
   * The style only filters: the traversal fails exactly where the
   * reference list does, and otherwise appends to `found` the paths of the
   * visited components whose names fail, in visiting order.
   */
  lemma {:induction false} CheckValueSpec(correct: string -> bool, data: Json, parentKey: string, found: seq<string>)
    decreases data, 2
    ensures CheckValue(correct, data, parentKey, found) == Recorded(correct, Named(data, parentKey), found)
  {
    if data.JObject? && MetaName(data.members).Ok? {
      var name := MetaName(data.members).value;
      var path := ComponentPath(parentKey, name);
      var f := if name.Some? && !IsRoot(name) && !correct(Text(name.value)) then found + [path] else found;
      assert f == found + Failing(correct, Own(path, name));
      CheckMembersSpec(correct, data.members, 0, path, f);
      RecordedThen(correct, Ok(Own(path, name)), NamedMembers(data.members, 0, path), found,
        CheckMembers(correct, data.members, 0, path, f));
    }
  }

  /** Recording a failure-or-list and then the rest is recording the two combined. */
  lemma RecordedThen(correct: string -> bool, first: Result<seq<(string, string)>>, rest: Result<seq<(string, string)>>,
                     found: seq<string>, after: Result<seq<string>>)
    requires first.Ok? ==> after == Recorded(correct, rest, found + Failing(correct, first.value))
    ensures (if first.Err? then Recorded(correct, first, found) else after) == Recorded(correct, Then(first, rest), found)
  {
    if first.Ok? && rest.Ok? {
      FailingAppend(correct, first.value, rest.value);
      assert found + Failing(correct, first.value) + Failing(correct, rest.value)
        == found + Failing(correct, first.value + rest.value);
    }
  }

  lemma {:induction false} CheckMembersSpec(correct: string -> bool, ms: seq<(string, Json)>, i: nat, parentKey: string, found: seq<string>)
    requires i <= |ms|
    decreases JObject(ms), 1, |ms| - i
    ensures CheckMembers(correct, ms, i, parentKey, found) == Recorded(correct, NamedMembers(ms, i, parentKey), found)
  {
    if i < |ms| {
      var value := ms[i].1;
      MemberSmaller(ms, i);
      var sub :=
        if ms[i].0 in SkippedKeys then Ok([])
        else if value.JObject? then Named(value, parentKey)
        else if value.JArray? then NamedItems(value.items, 0, parentKey)
        else Ok([]);
      var checked :=
        if ms[i].0 in SkippedKeys then Ok(found)
        else if value.JObject? then CheckValue(correct, value, parentKey, found)
        else if value.JArray? then CheckItems(correct, value.items, 0, parentKey, found)
        else Ok(found);
      if ms[i].0 !in SkippedKeys {
        if value.JObject? {
          CheckValueSpec(correct, value, parentKey, found);
        } else if value.JArray? {
          CheckItemsSpec(correct, value.items, 0, parentKey, found);
        }
      }
      assert found + [] == found;
      assert checked == Recorded(correct, sub, found);
      var rest := NamedMembers(ms, i + 1, parentKey);
      var after := if sub.Ok? then CheckMembers(correct, ms, i + 1, parentKey, checked.value) else checked;
      if sub.Ok? {
        CheckMembersSpec(correct, ms, i + 1, parentKey, checked.value);
      }
      RecordedThen(correct, sub, rest, found, after);
      assert CheckMembers(correct, ms, i, parentKey, found) == if checked.Err? then checked else after;
    } else {
      assert found + [] == found;
    }
  }

  lemma {:induction false} CheckItemsSpec(correct: string -> bool, items: seq<Json>, j: nat, parentKey: string, found: seq<string>)
    requires j <= |items|
    decreases JArray(items), 1, |items| - j
    ensures CheckItems(correct, items, j, parentKey, found) == Recorded(correct, NamedItems(items, j, parentKey), found)
  {
    if j < |items| {
      CheckValueSpec(correct, items[j], parentKey, found);
      var sub := Named(items[j], parentKey);
      var checked := CheckValue(correct, items[j], parentKey, found);
      var rest := NamedItems(items, j + 1, parentKey);
      var after := if sub.Ok? then CheckItems(correct, items, j + 1, parentKey, checked.value) else checked;
      if sub.Ok? {
        CheckItemsSpec(correct, items, j + 1, parentKey, checked.value);
      }
      RecordedThen(correct, sub, rest, found, after);
    } else {
      assert found + [] == found;
    }
  }

  // ---------------------------------------------------------------------
  // The shape of the paths.

  /**
   * Every visited component's path lies below the parent path or below a
   * component named `root`, and ends with `/` and its own name.
   */
  predicate Below(ns: seq<(string, string)>, parentKey: string) {
    forall k :: 0 <= k < |ns| ==>
      (StartsWith(ns[k].0, parentKey + "/") || StartsWith(ns[k].0, "root/")) && EndsWith(ns[k].0, "/" + ns[k].1)
  }

  lemma BelowAppend(a: seq<(string, string)>, b: seq<(string, string)>, parentKey: string)
    requires Below(a, parentKey) && Below(b, parentKey)
    ensures Below(a + b, parentKey)
  {
    forall k | 0 <= k < |a + b|
      ensures (StartsWith((a + b)[k].0, parentKey + "/") || StartsWith((a + b)[k].0, "root/"))
        && EndsWith((a + b)[k].0, "/" + (a + b)[k].1)
    {
      if k < |a| {
        assert (a + b)[k] == a[k];
      } else {
        assert (a + b)[k] == b[k - |a|];
      }
    }
  }

  /** A prefix of a prefix is a prefix. */
  lemma StartsWithLonger(s: string, p: string, q: string)
    requires StartsWith(s, p + q)
    ensures StartsWith(s, p)
  {
    assert s[..|p|] == (p + q)[..|p|];
  }

  /** Below a child's path is below its parent's. */
  lemma BelowChild(ns: seq<(string, string)>, parentKey: string, name: Option<Json>)
    requires Below(ns, ComponentPath(parentKey, name))
    ensures Below(ns, parentKey)
  {
    var path := ComponentPath(parentKey, name);
    forall k | 0 <= k < |ns|
      ensures StartsWith(ns[k].0, parentKey + "/") || StartsWith(ns[k].0, "root/")
    {
      if name.Some? && !IsRoot(name) && StartsWith(ns[k].0, path + "/") {
        assert path + "/" == parentKey + "/" + (Text(name.value) + "/");
        StartsWithLonger(ns[k].0, parentKey + "/", Text(name.value) + "/");
      } else if IsRoot(name) && StartsWith(ns[k].0, path + "/") {
        assert path + "/" == "root/";
      }
    }
  }

  lemma OwnBelow(parentKey: string, name: Option<Json>)
    ensures Below(Own(ComponentPath(parentKey, name), name), parentKey)
  {
    if name.Some? && !IsRoot(name) {
      var path := parentKey + "/" + Text(name.value);
      assert StartsWith(path, parentKey + "/") by {
        assert path == (parentKey + "/") + Text(name.value);
      }
      assert EndsWith(path, "/" + Text(name.value)) by {
        assert path == parentKey + ("/" + Text(name.value));
      }
    }
  }

  lemma {:induction false} NamedBelow(data: Json, parentKey: string)
    decreases data, 2
    ensures Named(data, parentKey).Ok? ==> Below(Named(data, parentKey).value, parentKey)
  {
    if data.JObject? && MetaName(data.members).Ok? {
      var name := MetaName(data.members).value;
      var path := ComponentPath(parentKey, name);
      NamedMembersBelow(data.members, 0, path);
      var rest := NamedMembers(data.members, 0, path);
      if rest.Ok? {
        BelowChild(rest.value, parentKey, name);
        OwnBelow(parentKey, name);
        BelowAppend(Own(path, name), rest.value, parentKey);
      }
    }
  }

  lemma {:induction false} NamedMembersBelow(ms: seq<(string, Json)>, i: nat, parentKey: string)
    requires i <= |ms|
    decreases JObject(ms), 1, |ms| - i
    ensures NamedMembers(ms, i, parentKey).Ok? ==> Below(NamedMembers(ms, i, parentKey).value, parentKey)
  {
    if i < |ms| {
      var value := ms[i].1;
      MemberSmaller(ms, i);
      if ms[i].0 !in SkippedKeys {
        if value.JObject? {
          NamedBelow(value, parentKey);
        } else if value.JArray? {
          NamedItemsBelow(value.items, 0, parentKey);
        }
      }
      var sub :=
        if ms[i].0 in SkippedKeys then Ok([])
        else if value.JObject? then Named(value, parentKey)
        else if value.JArray? then NamedItems(value.items, 0, parentKey)
        else Ok([]);
      NamedMembersBelow(ms, i + 1, parentKey);
      var rest := NamedMembers(ms, i + 1, parentKey);
      if sub.Ok? && rest.Ok? {
        BelowAppend(sub.value, rest.value, parentKey);
      }
    }
  }

  lemma {:induction false} NamedItemsBelow(items: seq<Json>, j: nat, parentKey: string)
    requires j <= |items|
    decreases JArray(items), 1, |items| - j
    ensures NamedItems(items, j, parentKey).Ok? ==> Below(NamedItems(items, j, parentKey).value, parentKey)
  {
    if j < |items| {
      NamedBelow(items[j], parentKey);
      NamedItemsBelow(items, j + 1, parentKey);
      var sub := Named(items[j], parentKey);
      var rest := NamedItems(items, j + 1, parentKey);
      if sub.Ok? && rest.Ok? {
        BelowAppend(sub.value, rest.value, parentKey);
      }
    }
  }

  /**
   * Every recorded path lies below the parent path or below a component
   * named `root`, and ends with `/` and a name the style rejects; and each
   * visited component whose name fails is recorded.
   */
  lemma RecordedPaths(correct: string -> bool, data: Json, parentKey: string, found: seq<string>)
    requires CheckValue(correct, data, parentKey, found).Ok?
    ensures var r := CheckValue(correct, data, parentKey, found).value;
      |found| <= |r| && r[..|found|] == found &&
      forall m :: m in r[|found|..] ==>
        (StartsWith(m, parentKey + "/") || StartsWith(m, "root/")) && exists n :: !correct(n) && EndsWith(m, "/" + n)
  {
    CheckValueSpec(correct, data, parentKey, found);
    var ns := Named(data, parentKey).value;
    NamedBelow(data, parentKey);
    FailingMembers(correct, ns);
    var r := CheckValue(correct, data, parentKey, found).value;
    assert r[|found|..] == Failing(correct, ns);
    forall m | m in r[|found|..]
      ensures (StartsWith(m, parentKey + "/") || StartsWith(m, "root/")) && exists n :: !correct(n) && EndsWith(m, "/" + n)
    {
      var k :| 0 <= k < |ns| && ns[k].0 == m && !correct(ns[k].1);
      assert EndsWith(m, "/" + ns[k].1);
    }
  }

  /** A component named `root` starts a new path: what is above it does not matter. */
  lemma RootResetsPath(correct: string -> bool, data: Json, parentKey: string, otherKey: string, found: seq<string>)
    requires data.JObject? && MetaName(data.members) == Ok(Some(JString("root")))
    ensures CheckValue(correct, data, parentKey, found) == CheckValue(correct, data, otherKey, found)
    ensures CheckValue(correct, data, parentKey, found) == CheckMembers(correct, data.members, 0, "root", found)
  {
  }

  /** A named component other than `root` comes first, at `<parent>/<name>`. */
  lemma NamedComponentFirst(data: Json, parentKey: string, n: string)
    requires data.JObject? && MetaName(data.members) == Ok(Some(JString(n))) && n != "root"
    requires Named(data, parentKey).Ok?
    ensures |Named(data, parentKey).value| >= 1 && Named(data, parentKey).value[0] == (parentKey + "/" + n, n)
  {
  }

  // ---------------------------------------------------------------------
  // The rule.

  /** `ComponentNameRule` */
  class ComponentNameRule {
    const style: Option<string>
    const allowAcronyms: bool
    /** `self.style_checker.is_correct_style` */
    const isCorrectStyle: string -> bool

    /** The part of `__init__` past its checks, handed the chosen style. */
    constructor(style: Option<string>, allowAcronyms: bool, styleChecker: (Option<string>, bool) -> string -> bool)
      ensures this.style == style && this.allowAcronyms == allowAcronyms
      ensures isCorrectStyle == styleChecker(style, allowAcronyms)
    {
      this.style := style;
      this.allowAcronyms := allowAcronyms;
      isCorrectStyle := styleChecker(style, allowAcronyms);
    }

    /** `ComponentNameRule(style, style_rgx, allow_acronyms)`: the `ValueError`s, or the rule. */
    static method Create(style: Option<string>, styleRgx: Option<string>, allowAcronyms: bool,
                         styleChecker: (Option<string>, bool) -> string -> bool)
      returns (r: Result<ComponentNameRule>)
      ensures ChooseStyle(style, styleRgx).Err? ==> r == Err(ChooseStyle(style, styleRgx).error)
      ensures ChooseStyle(style, styleRgx).Ok? ==>
        && r.Ok? && fresh(r.value)
        && r.value.style == ChooseStyle(style, styleRgx).value && r.value.allowAcronyms == allowAcronyms
        && r.value.isCorrectStyle == styleChecker(r.value.style, allowAcronyms)
    {
      if styleRgx.Some? && styleRgx.value != "" && style.Some? && style.value != "" {
        return Err(BothStylesMessage(style.value, styleRgx.value));
      }
      if styleRgx.None? && style.None? {
        return Err(NoStyleMessage);
      }
      var chosen := if styleRgx.Some? && styleRgx.value != "" then styleRgx else style;
      var rule := new ComponentNameRule(chosen, allowAcronyms, styleChecker);
      return Ok(rule);
    }

    /** `error_message` */
    function ErrorMessage(): (m: string)
      ensures StartsWith(m, "Component names should follow '")
    {
      "Component names should follow '" + OptionText(style) + "'"
    }

    /** `check` on one value, `errors["components"]` given as `found`. */
    method CheckInto(data: Json, found: seq<string>, parentKey: string) returns (r: Result<seq<string>>)
      decreases data, 2
      ensures r == CheckValue(isCorrectStyle, data, parentKey, found)
    {
      if !data.JObject? {
        return Err(NoGet);
      }
      var ms := data.members;
      var componentName := MetaName(ms);
      if componentName.Err? {
        return Err(componentName.error);
      }
      var name := componentName.value;
      var path := parentKey;
      var acc := found;
      if IsRoot(name) {
        path := name.value.s;
      } else if name.Some? {
        path := parentKey + "/" + Text(name.value);
        if !isCorrectStyle(Text(name.value)) {
          acc := acc + [path];
        }
      }
      assert path == ComponentPath(parentKey, name);
      var i := 0;
      while i < |ms|
        invariant 0 <= i <= |ms|
        invariant CheckValue(isCorrectStyle, data, parentKey, found) == CheckMembers(isCorrectStyle, ms, i, path, acc)
      {
        var key := ms[i].0;
        var value := ms[i].1;
        MemberSmaller(ms, i);
        if key !in SkippedKeys {
          if value.JObject? {
            var sub := CheckInto(value, acc, path);
            if sub.Err? {
              return sub;
            }
            acc := sub.value;
          } else if value.JArray? {
            var items := value.items;
            var parentOfList := path;
            ghost var before := acc;
            var j := 0;
            while j < |items|
              invariant 0 <= j <= |items| && path == parentOfList
              invariant CheckItems(isCorrectStyle, items, 0, path, before) == CheckItems(isCorrectStyle, items, j, path, acc)
            {
              assert items[j] < value;
              var sub := CheckInto(items[j], acc, path);
              if sub.Err? {
                return sub;
              }
              acc := sub.value;
              path := parentOfList;
              j := j + 1;
            }
          }
        }
        i := i + 1;
      }
      return Ok(acc);
    }

    /** `check(data, errors, parent_key)`: `errors["components"]` is created when absent. */
    method Check(data: Json, errors: Dicts.Dict<seq<string>>, parentKey: string) returns (r: Result<Dicts.Dict<seq<string>>>)
      ensures var start := if Dicts.HasKey(errors, ErrorKey) then Dicts.Get(errors, ErrorKey).value else [];
        var spec := CheckValue(isCorrectStyle, data, parentKey, start);
        r == if spec.Err? then Err(spec.error) else Ok(Dicts.Put(errors, ErrorKey, spec.value))
    {
      var start: seq<string> := [];
      var existing := Dicts.Get(errors, ErrorKey);
      if existing.Some? {
        start := existing.value;
      }
      var res := CheckInto(data, start, parentKey);
      if res.Err? {
        return Err(res.error);
      }
      return Ok(Dicts.Put(errors, ErrorKey, res.value));
    }
  }
}
