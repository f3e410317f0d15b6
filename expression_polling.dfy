/**
 * rules/expression_polling.py: a traversal of the decoded view that scans
 * every `binding` subtree for strings failing the strict `now(digits)`
 * test, recording them under the caller's `errors["polling"]`.
 *
 * The rule keeps the current key path in its `key_path` field: every
 * member that is a list or a dict overwrites it, and the path of a list
 * item is built from the field as the previous item's traversal left it.
 * A non-dict where Python calls `.items()` or `.get()` raises
 * `AttributeError`; here that is an `Err`, and the caller's dict is then
 * not returned.
 */
module ExpressionPolling {
  import opened Wrappers
  import opened PyStr
  import opened JsonValue
  import Dicts
  import opened Polling

  const NoItems := "AttributeError: object has no attribute 'items'"
  const NoGet := "AttributeError: object has no attribute 'get'"

  /** `error_key` */
  const ErrorKey := "polling"

  /** `_should_skip_key` */
  predicate ShouldSkip(keysToSkip: seq<string>, key: string) {
    key in keysToSkip || StartsWith(key, "$")
  }

  /** `_build_key_path`: `children` and `propConfig` do not add a segment. */
  function BuildKeyPath(parentKey: string, key: string): (r: string)
    ensures key == "children" || key == "propConfig" ==> r == parentKey
    ensures key != "children" && key != "propConfig" ==>
      EndsWith(r, key) && (parentKey == "" ==> r == key) && (parentKey != "" ==> StartsWith(r, parentKey + "."))
  {
    if key == "children" || key == "propConfig" then parentKey
    else if parentKey != "" then parentKey + "." + key
    else key
  }

  /** `_add_error_if_valid`: the test compares the bare key path, not the message. */
  function AddError(found: seq<string>, keyPath: string, detail: string): (r: seq<string>)
    ensures |found| <= |r| <= |found| + 1 && r[..|found|] == found
    ensures keyPath in found <==> r == found
  {
    if keyPath in found then found
    else found + [if detail != "" then keyPath + ": " + detail else keyPath]
  }

  /** A message with a detail never suppresses a second one for the same path. */
  lemma DetailNotDeduplicated(found: seq<string>, keyPath: string, detail: string)
    requires keyPath !in found && detail != ""
    ensures AddError(AddError(found, keyPath, detail), keyPath, detail)
      == found + [keyPath + ": " + detail, keyPath + ": " + detail]
  {
    var m := keyPath + ": " + detail;
    assert |m| > |keyPath|;
    assert keyPath !in found + [m];
  }

  /** A bare key path is recorded once. */
  lemma BareKeyDeduplicated(found: seq<string>, keyPath: string)
    requires keyPath !in found
    ensures AddError(AddError(found, keyPath, ""), keyPath, "") == found + [keyPath]
  {
    assert keyPath in found + [keyPath];
  }

  // ---------------------------------------------------------------------
  // `_parse_binding`, as functions with the error list as accumulator.

  /** `_parse_binding(errors, config)` */
  function ParseConfig(min: int, keyPath: string, config: Json, found: seq<string>): Result<seq<string>>
    decreases config, 2
  {
    if !config.JObject? then Err(NoItems)
    else ParseMembers(min, keyPath, config.members, 0, found)
  }

  /** One string value is checked and, when it fails, recorded. */
  function CheckString(min: int, keyPath: string, found: seq<string>, s: string): seq<string> {
    if !StrictValidPolling(s, min) then AddError(found, keyPath, s) else found
  }

  function ParseMembers(min: int, keyPath: string, ms: seq<(string, Json)>, i: nat, found: seq<string>): Result<seq<string>>
    requires i <= |ms|
    decreases JObject(ms), 1, |ms| - i
  {
    if i == |ms| then Ok(found)
    else
      var value := ms[i].1;
      MemberSmaller(ms, i);
      var f := if value.JString? then CheckString(min, keyPath, found, value.s) else found;
      var r :=
        if value.JObject? then ParseConfig(min, keyPath, value, f)
        else if value.JArray? then ParseElements(min, keyPath, value.items, 0, f)
        else Ok(f);
      if r.Err? then r else ParseMembers(min, keyPath, ms, i + 1, r.value)
  }

  function ParseElements(min: int, keyPath: string, items: seq<Json>, j: nat, found: seq<string>): Result<seq<string>>
    requires j <= |items|
    decreases JArray(items), 1, |items| - j
  {
    if j == |items| then Ok(found)
    else
      var r := ParseConfig(min, keyPath, items[j], found);
      if r.Err? then r else ParseElements(min, keyPath, items, j + 1, r.value)
  }

  // A reference description of `_parse_binding`: the strings of the
  // subtree in visiting order, each checked in turn.

  function Strings(v: Json): seq<string>
    decreases v, 2
  {
    if v.JObject? then MemberStrings(v.members, 0) else []
  }

  function MemberStrings(ms: seq<(string, Json)>, i: nat): seq<string>
    requires i <= |ms|
    decreases JObject(ms), 1, |ms| - i
  {
    if i == |ms| then []
    else
      var value := ms[i].1;
      MemberSmaller(ms, i);
      (if value.JString? then [value.s] else [])
      + (if value.JObject? then Strings(value) else if value.JArray? then ElementStrings(value.items, 0) else [])
      + MemberStrings(ms, i + 1)
  }

  function ElementStrings(items: seq<Json>, j: nat): seq<string>
    requires j <= |items|
    decreases JArray(items), 1, |items| - j
  {
    if j == |items| then [] else Strings(items[j]) + ElementStrings(items, j + 1)
  }

  /** Where `_parse_binding` does not raise: dicts all the way down, lists holding only dicts. */
  predicate Shaped(v: Json)
    decreases v, 2
  {
    v.JObject? && MembersShaped(v.members, 0)
  }

  predicate MembersShaped(ms: seq<(string, Json)>, i: nat)
    requires i <= |ms|
    decreases JObject(ms), 1, |ms| - i
  {
    i == |ms| || (
      var value := ms[i].1;
      MemberSmaller(ms, i);
      (value.JObject? ==> Shaped(value))
      && (value.JArray? ==> ElementsShaped(value.items, 0))
      && MembersShaped(ms, i + 1))
  }

  predicate ElementsShaped(items: seq<Json>, j: nat)
    requires j <= |items|
    decreases JArray(items), 1, |items| - j
  {
    j == |items| || (Shaped(items[j]) && ElementsShaped(items, j + 1))
  }

  /** Each string checked in turn. */
  function CheckAll(min: int, keyPath: string, found: seq<string>, ss: seq<string>): seq<string>
    decreases |ss|
  {
    if ss == [] then found else CheckAll(min, keyPath, CheckString(min, keyPath, found, ss[0]), ss[1..])
  }

  lemma {:induction false} CheckAllAppend(min: int, keyPath: string, found: seq<string>, a: seq<string>, b: seq<string>)
    ensures CheckAll(min, keyPath, found, a + b) == CheckAll(min, keyPath, CheckAll(min, keyPath, found, a), b)
    decreases |a|
  {
    if a == [] {
      assert a + b == b;
    } else {
      assert (a + b)[0] == a[0] && (a + b)[1..] == a[1..] + b;
      CheckAllAppend(min, keyPath, CheckString(min, keyPath, found, a[0]), a[1..], b);
    }
  }

  /**
   * `_parse_binding` succeeds exactly on shaped subtrees, and then checks
   * every string nested anywhere in it, in visiting order.
   */
  lemma {:induction false} ParseConfigSpec(min: int, keyPath: string, config: Json, found: seq<string>)
    ensures ParseConfig(min, keyPath, config, found).Ok? <==> Shaped(config)
    ensures Shaped(config) ==> ParseConfig(min, keyPath, config, found).value == CheckAll(min, keyPath, found, Strings(config))
    decreases config, 2
  {
    if config.JObject? {
      ParseMembersSpec(min, keyPath, config.members, 0, found);
    }
  }

  lemma {:induction false} ParseMembersSpec(min: int, keyPath: string, ms: seq<(string, Json)>, i: nat, found: seq<string>)
    requires i <= |ms|
    ensures ParseMembers(min, keyPath, ms, i, found).Ok? <==> MembersShaped(ms, i)
    ensures MembersShaped(ms, i) ==>
      ParseMembers(min, keyPath, ms, i, found).value == CheckAll(min, keyPath, found, MemberStrings(ms, i))
    decreases JObject(ms), 1, |ms| - i
  {
    if i < |ms| {
      var value := ms[i].1;
      MemberSmaller(ms, i);
      var own := if value.JString? then [value.s] else [];
      var f := if value.JString? then CheckString(min, keyPath, found, value.s) else found;
      assert f == CheckAll(min, keyPath, found, own) by {
        if value.JString? {
          assert own[1..] == [];
        }
      }
      var sub := if value.JObject? then Strings(value) else if value.JArray? then ElementStrings(value.items, 0) else [];
      var r :=
        if value.JObject? then ParseConfig(min, keyPath, value, f)
        else if value.JArray? then ParseElements(min, keyPath, value.items, 0, f)
        else Ok(f);
      if value.JObject? {
        ParseConfigSpec(min, keyPath, value, f);
      } else if value.JArray? {
        ParseElementsSpec(min, keyPath, value.items, 0, f);
      }
      assert r.Ok? <==> (value.JObject? ==> Shaped(value)) && (value.JArray? ==> ElementsShaped(value.items, 0));
      if r.Ok? {
        assert r.value == CheckAll(min, keyPath, f, sub);
        ParseMembersSpec(min, keyPath, ms, i + 1, r.value);
        CheckAllAppend(min, keyPath, found, own, sub);
        CheckAllAppend(min, keyPath, found, own + sub, MemberStrings(ms, i + 1));
        assert MemberStrings(ms, i) == own + sub + MemberStrings(ms, i + 1);
      }
    }
  }

  lemma {:induction false} ParseElementsSpec(min: int, keyPath: string, items: seq<Json>, j: nat, found: seq<string>)
    requires j <= |items|
    ensures ParseElements(min, keyPath, items, j, found).Ok? <==> ElementsShaped(items, j)
    ensures ElementsShaped(items, j) ==>
      ParseElements(min, keyPath, items, j, found).value == CheckAll(min, keyPath, found, ElementStrings(items, j))
    decreases JArray(items), 1, |items| - j
  {
    if j < |items| {
      ParseConfigSpec(min, keyPath, items[j], found);
      var r := ParseConfig(min, keyPath, items[j], found);
      if r.Ok? {
        ParseElementsSpec(min, keyPath, items, j + 1, r.value);
        CheckAllAppend(min, keyPath, found, Strings(items[j]), ElementStrings(items, j + 1));
      }
    }
  }

  // ---------------------------------------------------------------------
  // `check`, as functions over the rule's `key_path` and the error list.

  datatype State = State(keyPath: string, found: seq<string>)

  /** `item.get('meta', {}).get('name')` on a list item. */
  function ItemName(item: Json): (r: Result<Option<Json>>)
    ensures r.Err? <==> !item.JObject? || (Get(item.members, "meta").Some? && !Get(item.members, "meta").value.JObject?)
  {
    if !item.JObject? then Err(NoGet)
    else
      match Get(item.members, "meta")
      case None => Ok(None)
      case Some(m) => if m.JObject? then Ok(Get(m.members, "name")) else Err(NoGet)
  }

  /** `f'{self.key_path}.{key_name}' if key_name else self.key_path` */
  function ItemPath(keyPath: string, name: Option<Json>): string {
    if name.Some? && Truthy(name.value) then keyPath + "." + Text(name.value) else keyPath
  }

  /** `check(data, errors, parent_key)` */
  function CheckFrom(min: int, skip: seq<string>, data: Json, parentKey: string, st: State): Result<State>
    decreases data, 2
  {
    if !data.JObject? then Err(NoItems)
    else CheckMembers(min, skip, data.members, parentKey, 0, st)
  }

  function CheckMembers(min: int, skip: seq<string>, ms: seq<(string, Json)>, parentKey: string, i: nat, st: State): Result<State>
    requires i <= |ms|
    decreases JObject(ms), 1, |ms| - i
  {
    if i == |ms| then Ok(st)
    else
      var key := ms[i].0;
      var value := ms[i].1;
      MemberSmaller(ms, i);
      if ShouldSkip(skip, key) || !(value.JArray? || value.JObject?) then
        CheckMembers(min, skip, ms, parentKey, i + 1, st)
      else
        var r := CheckValue(min, skip, value, State(BuildKeyPath(parentKey, key), st.found));
        if r.Err? then r else CheckMembers(min, skip, ms, parentKey, i + 1, r.value)
  }

  /** A list or dict member, once `key_path` is set to its path. */
  function CheckValue(min: int, skip: seq<string>, value: Json, st: State): Result<State>
    requires value.JArray? || value.JObject?
    decreases value, 3
  {
    if value.JArray? then CheckItems(min, skip, value.items, 0, st)
    else if Dicts.HasKey(value.members, "binding") then ScanBinding(min, value, st)
    else CheckFrom(min, skip, value, st.keyPath, st)
  }

  /** `self._parse_binding(errors, value['binding'])` */
  function ScanBinding(min: int, value: Json, st: State): (r: Result<State>)
    requires value.JObject? && Dicts.HasKey(value.members, "binding")
    ensures r.Ok? ==> r.value.keyPath == st.keyPath
  {
    var f := ParseConfig(min, st.keyPath, Dicts.Get(value.members, "binding").value, st.found);
    if f.Err? then Err(f.error) else Ok(State(st.keyPath, f.value))
  }

  function CheckItems(min: int, skip: seq<string>, items: seq<Json>, j: nat, st: State): Result<State>
    requires j <= |items|
    decreases JArray(items), 1, |items| - j
  {
    if j == |items| then Ok(st)
    else
      var name := ItemName(items[j]);
      if name.Err? then Err(name.error)
      else
        var r := CheckFrom(min, skip, items[j], ItemPath(st.keyPath, name.value), st);
        if r.Err? then r else CheckItems(min, skip, items, j + 1, r.value)
  }

  /** Nothing outside a `binding` subtree is ever recorded: the list only grows through `_parse_binding`. */
  lemma {:induction false} CheckKeepsEarlier(min: int, skip: seq<string>, data: Json, parentKey: string, st: State)
    requires CheckFrom(min, skip, data, parentKey, st).Ok?
    ensures var f := CheckFrom(min, skip, data, parentKey, st).value.found;
      |st.found| <= |f| && f[..|st.found|] == st.found
    decreases data, 2
  {
    CheckMembersKeepsEarlier(min, skip, data.members, parentKey, 0, st);
  }

  lemma {:induction false} CheckMembersKeepsEarlier(min: int, skip: seq<string>, ms: seq<(string, Json)>, parentKey: string, i: nat, st: State)
    requires i <= |ms| && CheckMembers(min, skip, ms, parentKey, i, st).Ok?
    ensures var f := CheckMembers(min, skip, ms, parentKey, i, st).value.found;
      |st.found| <= |f| && f[..|st.found|] == st.found
    decreases JObject(ms), 1, |ms| - i
  {
    if i < |ms| {
      var key := ms[i].0;
      var value := ms[i].1;
      MemberSmaller(ms, i);
      if ShouldSkip(skip, key) || !(value.JArray? || value.JObject?) {
        CheckMembersKeepsEarlier(min, skip, ms, parentKey, i + 1, st);
      } else {
        var st1 := State(BuildKeyPath(parentKey, key), st.found);
        CheckValueKeepsEarlier(min, skip, value, st1);
        CheckMembersKeepsEarlier(min, skip, ms, parentKey, i + 1, CheckValue(min, skip, value, st1).value);
      }
    }
  }

  lemma {:induction false} CheckValueKeepsEarlier(min: int, skip: seq<string>, value: Json, st: State)
    requires (value.JArray? || value.JObject?) && CheckValue(min, skip, value, st).Ok?
    ensures var f := CheckValue(min, skip, value, st).value.found;
      |st.found| <= |f| && f[..|st.found|] == st.found
    decreases value, 3
  {
    if value.JArray? {
      CheckItemsKeepsEarlier(min, skip, value.items, 0, st);
    } else if Dicts.HasKey(value.members, "binding") {
      var b := Dicts.Get(value.members, "binding").value;
      ParseConfigSpec(min, st.keyPath, b, st.found);
      CheckAllExtends(min, st.keyPath, st.found, Strings(b));
    } else {
      CheckKeepsEarlier(min, skip, value, st.keyPath, st);
    }
  }

  lemma {:induction false} CheckItemsKeepsEarlier(min: int, skip: seq<string>, items: seq<Json>, j: nat, st: State)
    requires j <= |items| && CheckItems(min, skip, items, j, st).Ok?
    ensures var f := CheckItems(min, skip, items, j, st).value.found;
      |st.found| <= |f| && f[..|st.found|] == st.found
    decreases JArray(items), 1, |items| - j
  {
    if j < |items| {
      var name := ItemName(items[j]);
      var r := CheckFrom(min, skip, items[j], ItemPath(st.keyPath, name.value), st);
      CheckKeepsEarlier(min, skip, items[j], ItemPath(st.keyPath, name.value), st);
      CheckItemsKeepsEarlier(min, skip, items, j + 1, r.value);
    }
  }

  lemma {:induction false} CheckAllExtends(min: int, keyPath: string, found: seq<string>, ss: seq<string>)
    ensures var f := CheckAll(min, keyPath, found, ss); |found| <= |f| && f[..|found|] == found
    decreases |ss|
  {
    if ss != [] {
      var g := CheckString(min, keyPath, found, ss[0]);
      CheckAllExtends(min, keyPath, g, ss[1..]);
      var f := CheckAll(min, keyPath, found, ss);
      assert f[..|g|] == g;
      assert f[..|found|] == f[..|g|][..|found|];
    }
  }

  /** A dict holding `binding` is scanned there and not entered: its other members do not matter. */
  lemma BindingNotDescended(min: int, skip: seq<string>, key: string, ms: seq<(string, Json)>, parentKey: string, st: State)
    requires !ShouldSkip(skip, key) && Dicts.HasKey(ms, "binding")
    ensures var kp := BuildKeyPath(parentKey, key);
      var f := ParseConfig(min, kp, Dicts.Get(ms, "binding").value, st.found);
      CheckFrom(min, skip, JObject([(key, JObject(ms))]), parentKey, st)
        == if f.Err? then Err(f.error) else Ok(State(kp, f.value))
  {
    var data := JObject([(key, JObject(ms))]);
    var kp := BuildKeyPath(parentKey, key);
    var r := ScanBinding(min, JObject(ms), State(kp, st.found));
    assert data.members[0] == (key, JObject(ms));
    assert CheckValue(min, skip, JObject(ms), State(kp, st.found)) == r;
    assert CheckFrom(min, skip, data, parentKey, st) == CheckMembers(min, skip, data.members, parentKey, 0, st);
  }

  /** `ExpressionPollingRule` of rules/expression_polling.py. */
  class ExpressionPollingRule {
    const minInterval: int
    const keysToSkip: seq<string> := []
    var keyPath: string

    constructor(minInterval: int)
      ensures this.minInterval == minInterval && keyPath == ""
    {
      this.minInterval := minInterval;
      keyPath := "";
    }

    /** `_parse_binding(errors, config)`, the list given as `found`. */
    method ParseBinding(found: seq<string>, config: Json) returns (r: Result<seq<string>>)
      decreases config, 2
      ensures r == ParseConfig(minInterval, keyPath, config, found)
    {
      if !config.JObject? {
        return Err(NoItems);
      }
      var ms := config.members;
      var acc := found;
      var i := 0;
      while i < |ms|
        invariant 0 <= i <= |ms|
        invariant ParseConfig(minInterval, keyPath, config, found) == ParseMembers(minInterval, keyPath, ms, i, acc)
      {
        var value := ms[i].1;
        MemberSmaller(ms, i);
        if value.JString? {
          var valid := IsStrictValidPolling(value.s, minInterval);
          if !valid && keyPath !in acc {
            acc := acc + [if value.s != "" then keyPath + ": " + value.s else keyPath];
          }
        }
        if value.JObject? {
          var sub := ParseBinding(acc, value);
          if sub.Err? {
            return sub;
          }
          acc := sub.value;
        } else if value.JArray? {
          var items := value.items;
          ghost var before := acc;
          var j := 0;
          while j < |items|
            invariant 0 <= j <= |items|
            invariant ParseElements(minInterval, keyPath, items, 0, before) == ParseElements(minInterval, keyPath, items, j, acc)
          {
            assert items[j] < value;
            var sub := ParseBinding(acc, items[j]);
            if sub.Err? {
              return sub;
            }
            acc := sub.value;
            j := j + 1;
          }
        }
        i := i + 1;
      }
      return Ok(acc);
    }

    /** `check(data, errors, parent_key)`, `errors["polling"]` given as `found`. */
    method CheckInto(data: Json, found: seq<string>, parentKey: string) returns (r: Result<seq<string>>)
      modifies this
      decreases data, 2
      ensures var spec := CheckFrom(minInterval, keysToSkip, data, parentKey, State(old(keyPath), found));
        r.Ok? == spec.Ok? && (r.Ok? ==> r.value == spec.value.found && keyPath == spec.value.keyPath)
    {
      ghost var spec := CheckFrom(minInterval, keysToSkip, data, parentKey, State(keyPath, found));
      if !data.JObject? {
        return Err(NoItems);
      }
      var ms := data.members;
      var acc := found;
      var i := 0;
      while i < |ms|
        invariant 0 <= i <= |ms|
        invariant spec == CheckMembers(minInterval, keysToSkip, ms, parentKey, i, State(keyPath, acc))
      {
        var key := ms[i].0;
        var value := ms[i].1;
        MemberSmaller(ms, i);
        if !(key in keysToSkip || StartsWith(key, "$")) && (value.JArray? || value.JObject?) {
          keyPath := BuildKeyPath(parentKey, key);
          if value.JArray? {
            var items := value.items;
            ghost var st1 := State(keyPath, acc);
            var j := 0;
            while j < |items|
              invariant 0 <= j <= |items|
              invariant CheckItems(minInterval, keysToSkip, items, 0, st1) == CheckItems(minInterval, keysToSkip, items, j, State(keyPath, acc))
            {
              assert items[j] < value;
              var name := ItemName(items[j]);
              if name.Err? {
                return Err(name.error);
              }
              var sub := CheckInto(items[j], acc, ItemPath(keyPath, name.value));
              if sub.Err? {
                return sub;
              }
              acc := sub.value;
              j := j + 1;
            }
          } else if Dicts.HasKey(value.members, "binding") {
            var sub := ParseBinding(acc, Dicts.Get(value.members, "binding").value);
            if sub.Err? {
              return Err(sub.error);
            }
            acc := sub.value;
          } else {
            var sub := CheckInto(value, acc, keyPath);
            if sub.Err? {
              return sub;
            }
            acc := sub.value;
          }
        }
        i := i + 1;
      }
      return Ok(acc);
    }

    /** `check(data, errors)`: `errors.setdefault("polling", [])`, then the traversal. */
    method Check(data: Json, errors: Dicts.Dict<seq<string>>, parentKey: string) returns (r: Result<Dicts.Dict<seq<string>>>)
      modifies this
      ensures var start := if Dicts.HasKey(errors, ErrorKey) then Dicts.Get(errors, ErrorKey).value else [];
        var spec := CheckFrom(minInterval, keysToSkip, data, parentKey, State(old(keyPath), start));
        r.Ok? == spec.Ok? && (r.Ok? ==> r.value == Dicts.Put(errors, ErrorKey, spec.value.found) && keyPath == spec.value.keyPath)
    {
      var start: seq<string> := [];
      var existing := Dicts.Get(errors, ErrorKey);
      if existing.Some? {
        start := existing.value;
      }
      var res := CheckInto(data, start, parentKey);
      if res.Err? {
        return Err(res.error);
      }
      return Ok(Dicts.Put(errors, ErrorKey, res.value));
    }
  }
}
