/**
 * main.py: the standalone `JsonLinter`, which checks component names and
 * parameter names of one decoded view in a single traversal, keeping both
 * lists of offending paths in one `errors` dict with the keys
 * `components` and `parameters` (here the two fields of an `Errors`
 * value).
 *
 * Its parameter check is the parameter-name rule's traversal, written
 * with the key rather than the key path cleaned; the two agree. Its
 * component check differs from the component-name rule: a dict under
 * `custom` or `params` is checked as parameters instead of being searched
 * for components, and an empty parent path becomes `view` there, for the
 * rest of that dict's keys.
 */
module LinterMain {
  import opened Wrappers
  import opened PyStr
  import opened JsonValue
  import opened ComponentName
  import opened ParameterName

  function BothComponentStyles(style: string, styleRgx: string): string {
    "Cannot specify both (component_style: " + style + ", component_style_rgx: " + styleRgx + "). Please choose one or the other."
  }

  function BothParameterStyles(style: string, styleRgx: string): string {
    "Cannot specify both (parameter_style: " + style + ", parameter_style_rgx: " + styleRgx + "). Please choose one or the other."
  }

  const TitleCaseRejected := "Title Case is not a valid parameter naming style. Please use a different style."

  /** The five checks of `JsonLinter.__init__`, in order: the first that fails names the `ValueError`. */
  function Validate(componentStyle: Option<string>, parameterStyle: Option<string>,
                    componentStyleRgx: Option<string>, parameterStyleRgx: Option<string>): Option<string>
  {
    if Given(componentStyleRgx) && Given(componentStyle) then Some(BothComponentStyles(componentStyle.value, componentStyleRgx.value))
    else if Given(parameterStyleRgx) && Given(parameterStyle) then Some(BothParameterStyles(parameterStyle.value, parameterStyleRgx.value))
    else if componentStyleRgx.None? && componentStyle.None? then Some(NoStyleMessage)
    else if parameterStyleRgx.None? && parameterStyle.None? then Some(NoParameterStyleMessage)
    else if parameterStyle == Some("Title Case") then Some(TitleCaseRejected)
    else None
  }

  /** The style a checker is built from: `rgx if rgx else style`. */
  function CheckerStyle(style: Option<string>, styleRgx: Option<string>): Option<string> {
    if Given(styleRgx) then styleRgx else style
  }

  /**
   * The linter accepts exactly the settings both rules accept, then builds
   * each checker from the style the rule would choose; the component
   * settings are judged before the parameter ones, a conflict before a
   * missing style.
   */
  lemma ValidateSpec(componentStyle: Option<string>, parameterStyle: Option<string>,
                     componentStyleRgx: Option<string>, parameterStyleRgx: Option<string>)
    ensures Validate(componentStyle, parameterStyle, componentStyleRgx, parameterStyleRgx).None? <==>
      ChooseStyle(componentStyle, componentStyleRgx).Ok? && ChooseParameterStyle(parameterStyle, parameterStyleRgx).Ok?
    ensures Validate(componentStyle, parameterStyle, componentStyleRgx, parameterStyleRgx).None? ==>
      ChooseStyle(componentStyle, componentStyleRgx) == Ok(CheckerStyle(componentStyle, componentStyleRgx)) &&
      ChooseParameterStyle(parameterStyle, parameterStyleRgx) == Ok(CheckerStyle(parameterStyle, parameterStyleRgx))
    ensures Given(componentStyle) && Given(componentStyleRgx) ==>
      Validate(componentStyle, parameterStyle, componentStyleRgx, parameterStyleRgx) == Some(BothComponentStyles(componentStyle.value, componentStyleRgx.value))
    ensures ChooseStyle(componentStyle, componentStyleRgx).Ok? && Given(parameterStyle) && Given(parameterStyleRgx) ==>
      Validate(componentStyle, parameterStyle, componentStyleRgx, parameterStyleRgx) == Some(BothParameterStyles(parameterStyle.value, parameterStyleRgx.value))
  {
  }

  /** `self.errors` */
  datatype Errors = Errors(components: seq<string>, parameters: seq<string>)

  /** `self.parameter_areas` */
  const ParameterAreas: seq<string> := ["custom", "params"]

  // ---------------------------------------------------------------------
  // `check_component_names`, as functions with the errors as accumulator.

  /** `check_component_names(value, errors, parent_key)` */
  function LintValue(cc: string -> bool, pc: string -> bool, value: Json, parentKey: string, errs: Errors): Result<Errors>
    decreases value, 2
  {
    if !value.JObject? then Err(NoGet)
    else match MetaName(value.members)
      case Err(e) => Err(e)
      case Ok(name) =>
        var path := ComponentPath(parentKey, name);
        var e := if name.Some? && !IsRoot(name) && !cc(Text(name.value))
          then errs.(components := errs.components + [path]) else errs;
        LintMembers(cc, pc, value.members, 0, path, e)
  }

  /** The loop over `value.items()`; `parent_key` is carried from one key to the next. */
  function LintMembers(cc: string -> bool, pc: string -> bool, ms: seq<(string, Json)>, i: nat, parentKey: string, errs: Errors): Result<Errors>
    requires i <= |ms|
    decreases JObject(ms), 1, |ms| - i
  {
    if i == |ms| then Ok(errs)
    else
      var st := LintMember(cc, pc, ms, i, parentKey, errs);
      if st.Err? then Err(st.error) else LintMembers(cc, pc, ms, i + 1, st.value.0, st.value.1)
  }

  /** One turn of that loop: the parent path for the next key, and the errors. */
  function LintMember(cc: string -> bool, pc: string -> bool, ms: seq<(string, Json)>, i: nat, parentKey: string, errs: Errors)
    : Result<(string, Errors)>
    requires i < |ms|
    decreases JObject(ms), 0
  {
    var key := ms[i].0;
    var element := ms[i].1;
    MemberSmaller(ms, i);
    if key in SkippedKeys then Ok((parentKey, errs))
    else if element.JObject? then
      if key in ParameterAreas then
        var pk := if parentKey == "" then "view" else parentKey;
        var r := CheckParams(pc, element, pk + "." + key, true, errs.parameters);
        if r.Err? then Err(r.error) else Ok((pk, errs.(parameters := r.value)))
      else
        var r := LintValue(cc, pc, element, parentKey, errs);
        if r.Err? then Err(r.error) else Ok((parentKey, r.value))
    else if element.JArray? then
      var r := LintItems(cc, pc, element.items, 0, parentKey, errs);
      if r.Err? then Err(r.error) else Ok((parentKey, r.value))
    else Ok((parentKey, errs))
  }

  function LintItems(cc: string -> bool, pc: string -> bool, items: seq<Json>, j: nat, parentKey: string, errs: Errors): Result<Errors>
    requires j <= |items|
    decreases JArray(items), 1, |items| - j
  {
    if j == |items| then Ok(errs)
    else
      var r := LintValue(cc, pc, items[j], parentKey, errs);
      if r.Err? then r else LintItems(cc, pc, items, j + 1, parentKey, r.value)
  }

  // ---------------------------------------------------------------------
  // What the traversal keeps.

  /** `b` extends `a`: both lists keep what they held, first, and no parameter path is repeated. */
  predicate Extends(a: Errors, b: Errors) {
    |a.components| <= |b.components| && b.components[..|a.components|] == a.components &&
    |a.parameters| <= |b.parameters| && b.parameters[..|a.parameters|] == a.parameters &&
    (NoDuplicates(a.parameters) ==> NoDuplicates(b.parameters))
  }

  lemma ExtendsTrans(a: Errors, b: Errors, c: Errors)
    requires Extends(a, b) && Extends(b, c)
    ensures Extends(a, c)
  {
    assert c.components[..|a.components|] == c.components[..|b.components|][..|a.components|];
    assert c.parameters[..|a.parameters|] == c.parameters[..|b.parameters|][..|a.parameters|];
  }

  /**
   * The traversal only appends, never records a parameter path twice, and
   * can only fail on a component value that is not a dict: the parameter
   * checks it starts are always on dicts.
   */
  lemma {:induction false} LintValueExtends(cc: string -> bool, pc: string -> bool, value: Json, parentKey: string, errs: Errors)
    decreases value, 2
    ensures var r := LintValue(cc, pc, value, parentKey, errs);
      (r.Ok? ==> Extends(errs, r.value)) && (r.Err? ==> r.error == NoGet)
  {
    if value.JObject? && MetaName(value.members).Ok? {
      var name := MetaName(value.members).value;
      var path := ComponentPath(parentKey, name);
      var e := if name.Some? && !IsRoot(name) && !cc(Text(name.value))
        then errs.(components := errs.components + [path]) else errs;
      assert Extends(errs, e);
      LintMembersExtends(cc, pc, value.members, 0, path, e);
      if LintMembers(cc, pc, value.members, 0, path, e).Ok? {
        ExtendsTrans(errs, e, LintMembers(cc, pc, value.members, 0, path, e).value);
      }
    } else if value.JObject? {
      assert MetaName(value.members).error == NoGet;
    }
  }

  lemma {:induction false} LintMembersExtends(cc: string -> bool, pc: string -> bool, ms: seq<(string, Json)>, i: nat, parentKey: string, errs: Errors)
    requires i <= |ms|
    decreases JObject(ms), 1, |ms| - i
    ensures var r := LintMembers(cc, pc, ms, i, parentKey, errs);
      (r.Ok? ==> Extends(errs, r.value)) && (r.Err? ==> r.error == NoGet)
  {
    if i < |ms| {
      LintMemberExtends(cc, pc, ms, i, parentKey, errs);
      var st := LintMember(cc, pc, ms, i, parentKey, errs);
      if st.Ok? {
        LintMembersExtends(cc, pc, ms, i + 1, st.value.0, st.value.1);
        var r := LintMembers(cc, pc, ms, i + 1, st.value.0, st.value.1);
        if r.Ok? {
          ExtendsTrans(errs, st.value.1, r.value);
        }
      }
    }
  }

  lemma {:induction false} LintMemberExtends(cc: string -> bool, pc: string -> bool, ms: seq<(string, Json)>, i: nat, parentKey: string, errs: Errors)
    requires i < |ms|
    decreases JObject(ms), 0
    ensures var st := LintMember(cc, pc, ms, i, parentKey, errs);
      (st.Ok? ==> Extends(errs, st.value.1)) && (st.Err? ==> st.error == NoGet)
  {
    var key := ms[i].0;
    var element := ms[i].1;
    MemberSmaller(ms, i);
    if key !in SkippedKeys {
      if element.JObject? {
        if key in ParameterAreas {
          var pk := if parentKey == "" then "view" else parentKey;
          CheckParamsRecords(pc, element, pk + "." + key, true, errs.parameters);
        } else {
          LintValueExtends(cc, pc, element, parentKey, errs);
        }
      } else if element.JArray? {
        LintItemsExtends(cc, pc, element.items, 0, parentKey, errs);
      }
    }
  }

  lemma {:induction false} LintItemsExtends(cc: string -> bool, pc: string -> bool, items: seq<Json>, j: nat, parentKey: string, errs: Errors)
    requires j <= |items|
    decreases JArray(items), 1, |items| - j
    ensures var r := LintItems(cc, pc, items, j, parentKey, errs);
      (r.Ok? ==> Extends(errs, r.value)) && (r.Err? ==> r.error == NoGet)
  {
    if j < |items| {
      LintValueExtends(cc, pc, items[j], parentKey, errs);
      var r := LintValue(cc, pc, items[j], parentKey, errs);
      if r.Ok? {
        LintItemsExtends(cc, pc, items, j + 1, parentKey, r.value);
        var r2 := LintItems(cc, pc, items, j + 1, parentKey, r.value);
        if r2.Ok? {
          ExtendsTrans(errs, r.value, r2.value);
        }
      }
    }
  }

  /** A component named `root` starts a new path here too. */
  lemma RootResetsLinterPath(cc: string -> bool, pc: string -> bool, value: Json, parentKey: string, otherKey: string, errs: Errors)
    requires value.JObject? && MetaName(value.members) == Ok(Some(JString("root")))
    ensures LintValue(cc, pc, value, parentKey, errs) == LintValue(cc, pc, value, otherKey, errs)
  {
  }

  /** Parameters under `custom` or `params` of an unnamed top-level dict are reported below `view`. */
  lemma ViewAreaPath(cc: string -> bool, pc: string -> bool, ms: seq<(string, Json)>, i: nat, errs: Errors)
    requires i < |ms| && ms[i].0 in ParameterAreas && ms[i].1.JObject?
    ensures CheckParams(pc, ms[i].1, "view." + ms[i].0, true, errs.parameters).Ok?
    ensures LintMember(cc, pc, ms, i, "", errs)
      == Ok(("view", errs.(parameters := CheckParams(pc, ms[i].1, "view." + ms[i].0, true, errs.parameters).value)))
  {
    MemberSmaller(ms, i);
    assert ms[i].0 == "custom" || ms[i].0 == "params";
    assert ms[i].0 !in SkippedKeys;
    assert "view" + "." + ms[i].0 == "view." + ms[i].0;
    CheckParamsRecords(pc, ms[i].1, "view." + ms[i].0, true, errs.parameters);
  }

  /** Once `view` has been put in place of an empty parent, the later keys of that dict see it. */
  lemma ViewPersists(cc: string -> bool, pc: string -> bool, ms: seq<(string, Json)>, i: nat, errs: Errors)
    requires i < |ms| && ms[i].0 in ParameterAreas && ms[i].1.JObject?
    ensures CheckParams(pc, ms[i].1, "view." + ms[i].0, true, errs.parameters).Ok?
    ensures LintMembers(cc, pc, ms, i, "", errs)
      == LintMembers(cc, pc, ms, i + 1, "view", errs.(parameters := CheckParams(pc, ms[i].1, "view." + ms[i].0, true, errs.parameters).value))
  {
    ViewAreaPath(cc, pc, ms, i, errs);
  }

  /** `lint_single_file` once the file is decoded: the count of the errors found. */
  function LintData(cc: string -> bool, pc: string -> bool, data: Json): Result<Errors> {
    if !data.JObject? then Err(NoGet)
    else
      var start := Errors([], []);
      var afterConfig :=
        match Get(data.members, "propConfig")
        case None => Ok(start)
        case Some(pcv) =>
          var r := CheckParams(pc, pcv, "view", false, []);
          if r.Err? then Err(r.error) else Ok(start.(parameters := r.value));
      if afterConfig.Err? then afterConfig else LintValue(cc, pc, data, "", afterConfig.value)
  }

  /**
   * The view's own `propConfig` is checked one level deep, each of its
   * keys below `view`; nothing is ever reported twice among the parameters.
   */
  lemma LintDataSpec(cc: string -> bool, pc: string -> bool, data: Json)
    ensures LintData(cc, pc, data).Ok? ==> NoDuplicates(LintData(cc, pc, data).value.parameters)
    ensures data.JObject? && Get(data.members, "propConfig").Some? && Get(data.members, "propConfig").value.JObject? ==>
      var pcv := Get(data.members, "propConfig").value;
      Visited(pcv, "view", false).Ok? && Under(Visited(pcv, "view", false).value, "view", false)
  {
    if data.JObject? {
      var config := Get(data.members, "propConfig");
      if config.Some? && config.value.JObject? {
        CheckParamsRecords(pc, config.value, "view", false, []);
      }
      if config.Some? {
        var r := CheckParams(pc, config.value, "view", false, []);
        if r.Ok? {
          CheckParamsSpec(pc, config.value, "view", false, []);
          RecordNoDuplicates(pc, [], Visited(config.value, "view", false).value);
          LintValueExtends(cc, pc, data, "", Errors([], r.value));
        }
      } else {
        LintValueExtends(cc, pc, data, "", Errors([], []));
      }
    }
  }

  // ---------------------------------------------------------------------
  // The order of the keys matters.

  const ChildA := JObject([("meta", JObject([("name", JString("A"))]))])

  /** A component named `A` with nothing below it, whose name fails. */
  lemma ChildAReported(cc: string -> bool, pc: string -> bool, parentKey: string, errs: Errors)
    requires !cc("A")
    ensures LintValue(cc, pc, ChildA, parentKey, errs) == Ok(errs.(components := errs.components + [parentKey + "/A"]))
  {
    var ms := ChildA.members;
    assert Get(ms, "meta") == Some(JObject([("name", JString("A"))]));
    assert MetaName(ms) == Ok(Some(JString("A")));
    var path := parentKey + "/A";
    assert ComponentPath(parentKey, Some(JString("A"))) == path;
    var e := errs.(components := errs.components + [path]);
    assert LintMember(cc, pc, ms, 0, path, e) == Ok((path, e));
    assert LintMembers(cc, pc, ms, 1, path, e) == Ok(e);
  }

  /** A `custom` dict with nothing in it. */
  lemma EmptyCustom(cc: string -> bool, pc: string -> bool, ms: seq<(string, Json)>, i: nat, parentKey: string, errs: Errors)
    requires i < |ms| && ms[i] == ("custom", JObject([]))
    ensures LintMember(cc, pc, ms, i, parentKey, errs) == Ok((if parentKey == "" then "view" else parentKey, errs))
  {
    var pk := if parentKey == "" then "view" else parentKey;
    assert "custom" !in SkippedKeys;
    assert CheckParams(pc, JObject([]), pk + ".custom", true, errs.parameters) == Ok(errs.parameters);
  }

  /** A `children` list holding `A` alone. */
  lemma ChildrenA(cc: string -> bool, pc: string -> bool, ms: seq<(string, Json)>, i: nat, parentKey: string, errs: Errors)
    requires i < |ms| && ms[i] == ("children", JArray([ChildA])) && !cc("A")
    ensures LintMember(cc, pc, ms, i, parentKey, errs) == Ok((parentKey, errs.(components := errs.components + [parentKey + "/A"])))
  {
    var e := errs.(components := errs.components + [parentKey + "/A"]);
    ChildAReported(cc, pc, parentKey, errs);
    assert "children" !in SkippedKeys;
    assert LintItems(cc, pc, [ChildA], 1, parentKey, e) == Ok(e);
    assert LintItems(cc, pc, [ChildA], 0, parentKey, errs) == Ok(e);
  }

  /** A failing child listed after the `custom` dict is reported below `view`... */
  lemma ChildAfterCustom(cc: string -> bool, pc: string -> bool)
    requires !cc("A")
    ensures LintValue(cc, pc, JObject([("custom", JObject([])), ("children", JArray([ChildA]))]), "", Errors([], []))
      == Ok(Errors(["view/A"], []))
  {
    var ms := [("custom", JObject([])), ("children", JArray([ChildA]))];
    assert Get(ms, "meta") == None;
    assert MetaName(ms) == Ok(None);
    EmptyCustom(cc, pc, ms, 0, "", Errors([], []));
    ChildrenA(cc, pc, ms, 1, "view", Errors([], []));
    assert "view" + "/A" == "view/A";
    assert Errors([], []).(components := [] + ["view" + "/A"]) == Errors(["view/A"], []);
    assert LintMembers(cc, pc, ms, 2, "view", Errors(["view/A"], [])) == Ok(Errors(["view/A"], []));
    assert LintMembers(cc, pc, ms, 1, "view", Errors([], [])) == Ok(Errors(["view/A"], []));
    assert LintMembers(cc, pc, ms, 0, "", Errors([], [])) == Ok(Errors(["view/A"], []));
  }

  /** ...but at the top, below an empty parent, when it comes first. */
  lemma ChildBeforeCustom(cc: string -> bool, pc: string -> bool)
    requires !cc("A")
    ensures LintValue(cc, pc, JObject([("children", JArray([ChildA])), ("custom", JObject([]))]), "", Errors([], []))
      == Ok(Errors(["/A"], []))
  {
    var ms := [("children", JArray([ChildA])), ("custom", JObject([]))];
    assert Get(ms, "meta") == None;
    assert MetaName(ms) == Ok(None);
    ChildrenA(cc, pc, ms, 0, "", Errors([], []));
    assert "" + "/A" == "/A";
    assert Errors([], []).(components := [] + ["" + "/A"]) == Errors(["/A"], []);
    EmptyCustom(cc, pc, ms, 1, "", Errors(["/A"], []));
    assert LintMembers(cc, pc, ms, 2, "view", Errors(["/A"], [])) == Ok(Errors(["/A"], []));
    assert LintMembers(cc, pc, ms, 1, "", Errors(["/A"], [])) == Ok(Errors(["/A"], []));
    assert LintMembers(cc, pc, ms, 0, "", Errors([], [])) == Ok(Errors(["/A"], []));
  }

  /** The component-name rule reports the same child below an empty parent in either order. */
  lemma RuleIgnoresCustom(cc: string -> bool)
    requires !cc("A")
    ensures CheckValue(cc, JObject([("custom", JObject([])), ("children", JArray([ChildA]))]), "", []) == Ok(["/A"])
  {
    var ms := [("custom", JObject([])), ("children", JArray([ChildA]))];
    assert Get(ms, "meta") == None;
    assert MetaName(ms) == Ok(None);
    assert "custom" !in SkippedKeys && "children" !in SkippedKeys;
    var kid := ChildA.members;
    assert MetaName(kid) == Ok(Some(JString("A")));
    assert "A" != "root" by { assert "A"[0] != "root"[0]; }
    assert !IsRoot(Some(JString("A")));
    assert ComponentPath("", Some(JString("A"))) == "/A";
    assert Text(JString("A")) == "A";
    assert [] + ["/A"] == ["/A"];
    assert "meta" in SkippedKeys;
    assert CheckMembers(cc, kid, 1, "/A", ["/A"]) == Ok(["/A"]);
    assert CheckMembers(cc, kid, 0, "/A", ["/A"]) == Ok(["/A"]);
    assert CheckValue(cc, ChildA, "", []) == Ok(["/A"]);
    assert CheckItems(cc, [ChildA], 0, "", []) == Ok(["/A"]);
    assert CheckMembers(cc, ms, 2, "", ["/A"]) == Ok(["/A"]);
    assert CheckMembers(cc, ms, 1, "", []) == Ok(["/A"]);
    assert MetaName([]) == Ok(None);
    assert CheckMembers(cc, [], 0, "", []) == Ok([]);
    assert CheckValue(cc, JObject([]), "", []) == Ok([]);
    assert CheckMembers(cc, ms, 0, "", []) == Ok(["/A"]);
    assert ComponentPath("", None) == "";
  }

  // ---------------------------------------------------------------------
  // The linter.

  /** `JsonLinter` */
  class JsonLinter {
    const componentStyle: Option<string>
    const parameterStyle: Option<string>
    const componentStyleRgx: Option<string>
    const parameterStyleRgx: Option<string>
    const allowAcronyms: bool
    const parameterAreas: seq<string> := ParameterAreas
    /** Kept, never read. */
    const componentAreas: seq<string> := ["root", "children"]
    const keysToSkip: seq<string> := SkippedKeys
    /** The two checkers' `is_correct_style`. */
    const componentChecker: string -> bool
    const parameterChecker: string -> bool
    var errors: Errors
    var filesLinted: nat

    /** The part of `__init__` past its checks. */
    constructor(componentStyle: Option<string>, parameterStyle: Option<string>, componentStyleRgx: Option<string>,
                parameterStyleRgx: Option<string>, allowAcronyms: bool, styleChecker: (Option<string>, bool) -> string -> bool)
      ensures this.componentStyle == componentStyle && this.parameterStyle == parameterStyle
      ensures this.componentStyleRgx == componentStyleRgx && this.parameterStyleRgx == parameterStyleRgx
      ensures this.allowAcronyms == allowAcronyms
      ensures componentChecker == styleChecker(CheckerStyle(componentStyle, componentStyleRgx), allowAcronyms)
      ensures parameterChecker == styleChecker(CheckerStyle(parameterStyle, parameterStyleRgx), allowAcronyms)
      ensures errors == Errors([], []) && filesLinted == 0
    {
      this.componentStyle := componentStyle;
      this.parameterStyle := parameterStyle;
      this.componentStyleRgx := componentStyleRgx;
      this.parameterStyleRgx := parameterStyleRgx;
      this.allowAcronyms := allowAcronyms;
      errors := Errors([], []);
      filesLinted := 0;
      componentChecker := styleChecker(if Given(componentStyleRgx) then componentStyleRgx else componentStyle, allowAcronyms);
      parameterChecker := styleChecker(if Given(parameterStyleRgx) then parameterStyleRgx else parameterStyle, allowAcronyms);
    }

    /** `JsonLinter(...)`: the first `ValueError`, or the linter. */
    static method Create(componentStyle: Option<string>, parameterStyle: Option<string>, componentStyleRgx: Option<string>,
                         parameterStyleRgx: Option<string>, allowAcronyms: bool, styleChecker: (Option<string>, bool) -> string -> bool)
      returns (r: Result<JsonLinter>)
      ensures var v := Validate(componentStyle, parameterStyle, componentStyleRgx, parameterStyleRgx);
        && (v.Some? ==> r == Err(v.value))
        && (v.None? ==>
              && r.Ok? && fresh(r.value) && r.value.errors == Errors([], []) && r.value.filesLinted == 0
              && r.value.componentChecker == styleChecker(CheckerStyle(componentStyle, componentStyleRgx), allowAcronyms)
              && r.value.parameterChecker == styleChecker(CheckerStyle(parameterStyle, parameterStyleRgx), allowAcronyms))
    {
      if componentStyleRgx.Some? && componentStyleRgx.value != "" && componentStyle.Some? && componentStyle.value != "" {
        return Err(BothComponentStyles(componentStyle.value, componentStyleRgx.value));
      }
      if parameterStyleRgx.Some? && parameterStyleRgx.value != "" && parameterStyle.Some? && parameterStyle.value != "" {
        return Err(BothParameterStyles(parameterStyle.value, parameterStyleRgx.value));
      }
      if componentStyleRgx.None? && componentStyle.None? {
        return Err(NoStyleMessage);
      }
      if parameterStyleRgx.None? && parameterStyle.None? {
        return Err(NoParameterStyleMessage);
      }
      if parameterStyle == Some("Title Case") {
        return Err(TitleCaseRejected);
      }
      var linter := new JsonLinter(componentStyle, parameterStyle, componentStyleRgx, parameterStyleRgx, allowAcronyms, styleChecker);
      return Ok(linter);
    }

    /** `check_parameter_names(data, errors, parent_key, recursive)`: the parameter-name rule's traversal. */
    method CheckParameterNames(data: Json, errs: Errors, parentKey: string, recursive: bool) returns (r: Result<Errors>)
      decreases data, 2
      ensures var spec := CheckParams(parameterChecker, data, parentKey, recursive, errs.parameters);
        r == if spec.Err? then Err(spec.error) else Ok(errs.(parameters := spec.value))
    {
      if !data.JObject? {
        return Err(NoItems);
      }
      var ms := data.members;
      var acc := errs;
      var i := 0;
      while i < |ms|
        invariant 0 <= i <= |ms| && acc.components == errs.components
        invariant CheckParams(parameterChecker, data, parentKey, recursive, errs.parameters)
          == CheckKeys(parameterChecker, ms, i, parentKey, recursive, acc.parameters)
      {
        var sub := CheckParameter(ms, i, acc, parentKey, recursive);
        if sub.Err? {
          return sub;
        }
        acc := sub.value;
        i := i + 1;
      }
      return Ok(acc);
    }

    /** The body of its loop: the key, not the key path, is cleaned. */
    method CheckParameter(ms: seq<(string, Json)>, i: nat, errs: Errors, parentKey: string, recursive: bool)
      returns (r: Result<Errors>)
      requires i < |ms|
      decreases JObject(ms), 0
      ensures var spec := CheckKey(parameterChecker, ms, i, parentKey, recursive, errs.parameters);
        r == if spec.Err? then Err(spec.error) else Ok(errs.(parameters := spec.value))
    {
      var key := ms[i].0;
      var value := ms[i].1;
      if key in keysToSkip || StartsWith(key, "$") {
        return Ok(errs);
      }
      var keyPath := if parentKey != "" then parentKey + "." + key else key;
      var cleanKey := CleanKey(key);
      CleanKeyOfPath(parentKey, key);
      var acc := errs;
      if !parameterChecker(cleanKey) {
        if !Contains(parentKey, "props.params") && keyPath !in acc.parameters {
          acc := acc.(parameters := acc.parameters + [keyPath]);
        }
      }
      MemberSmaller(ms, i);
      if recursive && value.JObject? {
        r := CheckParameterNames(value, acc, keyPath, true);
      } else {
        r := Ok(acc);
      }
    }

    /** `check_component_names(value, errors, parent_key)` */
    method CheckComponentNames(value: Json, errs: Errors, parentKey: string) returns (r: Result<Errors>)
      decreases value, 2
      ensures r == LintValue(componentChecker, parameterChecker, value, parentKey, errs)
    {
      if !value.JObject? {
        return Err(NoGet);
      }
      var ms := value.members;
      var componentName := MetaName(ms);
      if componentName.Err? {
        return Err(componentName.error);
      }
      var name := componentName.value;
      var path := parentKey;
      var acc := errs;
      if IsRoot(name) {
        path := name.value.s;
      } else if name.Some? {
        path := parentKey + "/" + Text(name.value);
        if !componentChecker(Text(name.value)) {
          acc := acc.(components := acc.components + [path]);
        }
      }
      assert path == ComponentPath(parentKey, name);
      var i := 0;
      while i < |ms|
        invariant 0 <= i <= |ms|
        invariant LintValue(componentChecker, parameterChecker, value, parentKey, errs)
          == LintMembers(componentChecker, parameterChecker, ms, i, path, acc)
      {
        var st := CheckComponentMember(ms, i, path, acc);
        if st.Err? {
          return Err(st.error);
        }
        path := st.value.0;
        acc := st.value.1;
        i := i + 1;
      }
      return Ok(acc);
    }

    /** The body of its loop, which may replace an empty `parent_key` by `view`. */
    method CheckComponentMember(ms: seq<(string, Json)>, i: nat, parentKey: string, errs: Errors)
      returns (r: Result<(string, Errors)>)
      requires i < |ms|
      decreases JObject(ms), 0
      ensures r == LintMember(componentChecker, parameterChecker, ms, i, parentKey, errs)
    {
      var key := ms[i].0;
      var element := ms[i].1;
      MemberSmaller(ms, i);
      if key in keysToSkip {
        return Ok((parentKey, errs));
      }
      var path := parentKey;
      if element.JObject? {
        if key in parameterAreas {
          if path == "" {
            path := "view";
          }
          var sub := CheckParameterNames(element, errs, path + "." + key, true);
          if sub.Err? {
            return Err(sub.error);
          }
          return Ok((path, sub.value));
        }
        var sub := CheckComponentNames(element, errs, path);
        if sub.Err? {
          return Err(sub.error);
        }
        return Ok((path, sub.value));
      } else if element.JArray? {
        var items := element.items;
        var parentOfList := path;
        var acc := errs;
        var j := 0;
        while j < |items|
          invariant 0 <= j <= |items| && path == parentOfList == parentKey
          invariant LintItems(componentChecker, parameterChecker, items, 0, path, errs)
            == LintItems(componentChecker, parameterChecker, items, j, path, acc)
        {
          assert items[j] < element;
          var sub := CheckComponentNames(items[j], acc, path);
          if sub.Err? {
            return Err(sub.error);
          }
          acc := sub.value;
          path := parentOfList;
          j := j + 1;
        }
        return Ok((path, acc));
      }
      return Ok((path, errs));
    }

    /**
     * `lint_single_file` once the file is decoded: the errors start afresh,
     * the view's `propConfig` is checked one level deep below `view`, then
     * the components; the file is counted and the number of errors returned.
     */
    method LintDecoded(data: Json) returns (r: Result<nat>)
      modifies this
      ensures var spec := LintData(componentChecker, parameterChecker, data);
        && (spec.Err? ==> r == Err(spec.error) && filesLinted == old(filesLinted))
        && (spec.Ok? ==>
              && errors == spec.value && filesLinted == old(filesLinted) + 1
              && r == Ok(|spec.value.components| + |spec.value.parameters|))
    {
      errors := Errors([], []);
      if !data.JObject? {
        return Err(NoGet);
      }
      var start := errors;
      var afterConfig := start;
      var config := Get(data.members, "propConfig");
      if config.Some? {
        var sub := CheckParameterNames(config.value, start, "view", false);
        if sub.Err? {
          return Err(sub.error);
        }
        afterConfig := sub.value;
      }
      var res := CheckComponentNames(data, afterConfig, "");
      if res.Err? {
        return Err(res.error);
      }
      errors := res.value;
      var numErrors := |errors.components| + |errors.parameters|;
      filesLinted := filesLinted + 1;
      return Ok(numErrors);
    }
  }
}
