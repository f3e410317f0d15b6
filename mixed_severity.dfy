/**
 * The mixed-severity example rule of `rules/example_mixed_severity.py`:
 * style problems in a component's name become warnings, names that point
 * at unsafe or contradictory components become errors. The messages, the
 * word lists and the warnings are shared with the variant under
 * `rules/examples/` (module MixedSeverityExample).
 */
module MixedSeverity {
  import opened Wrappers
  import opened PyStr
  import opened Nodes
  import opened RuleCommon

  const MixedMessage := "Component validation with mixed severity levels"

  /** The pairs of words that contradict each other in one name, in the order they are tried. */
  const ConflictingPairs: seq<(string, string)> :=
    [("debug", "prod"), ("test", "live"), ("dev", "production"), ("mock", "real"), ("sample", "actual")]

  /** The short names that are not too short. */
  const ShortNamesAllowed: seq<string> := ["ok", "no", "go", "id"]

  /** The lower-cased names this variant treats as unsafe. */
  const UnsafeNames: seq<string> := ["unsafecomponent", "debugcomponent", "adminpanel"]

  // ---------------------------------------------------------------------
  // The tests on a name.

  /** `name_lower.startswith(('temp', 'test', 'tmp'))` */
  predicate IsTemporary(lower: string) {
    StartsWith(lower, "temp") || StartsWith(lower, "test") || StartsWith(lower, "tmp")
  }

  /** Shorter than three characters and not one of the accepted short words. */
  predicate IsVeryShort(name: string) {
    |name| < 3 && Lower(name) !in ShortNamesAllowed
  }

  /** `any(comp_type in name_lower for comp_type in common_types)` */
  predicate NamesCommonType(lower: string) {
    Contains(lower, "button") || Contains(lower, "label") || Contains(lower, "input") || Contains(lower, "panel")
    || Contains(lower, "container") || Contains(lower, "table") || Contains(lower, "chart")
  }

  /** `name_lower.endswith(('btn', 'lbl', 'txt', 'img', 'icon'))` */
  predicate HasTypeSuffix(lower: string) {
    EndsWith(lower, "btn") || EndsWith(lower, "lbl") || EndsWith(lower, "txt") || EndsWith(lower, "img")
    || EndsWith(lower, "icon")
  }

  /** Longer than five characters, naming no component type and ending in no type abbreviation. */
  predicate LacksTypeSuffix(name: string) {
    |name| > 5 && !NamesCommonType(Lower(name)) && !HasTypeSuffix(Lower(name))
  }

  predicate Conflicts(lower: string, pair: (string, string)) {
    Contains(lower, pair.0) && Contains(lower, pair.1)
  }

  /** The first pair from index `i` on whose two words both occur in `lower`. */
  function FirstConflictFrom(lower: string, i: nat): Option<(string, string)>
    requires i <= |ConflictingPairs|
    decreases |ConflictingPairs| - i
  {
    if i == |ConflictingPairs| then None
    else if Conflicts(lower, ConflictingPairs[i]) then Some(ConflictingPairs[i])
    else FirstConflictFrom(lower, i + 1)
  }

  /** The pair the loop over `conflicting_patterns` stops at, if any. */
  function FirstConflict(lower: string): Option<(string, string)> {
    FirstConflictFrom(lower, 0)
  }

  lemma {:induction false} FirstConflictFromSpec(lower: string, i: nat)
    requires i <= |ConflictingPairs|
    ensures FirstConflictFrom(lower, i).Some? ==>
      (exists k :: i <= k < |ConflictingPairs| && ConflictingPairs[k] == FirstConflictFrom(lower, i).value
         && Conflicts(lower, ConflictingPairs[k])
         && forall j :: i <= j < k ==> !Conflicts(lower, ConflictingPairs[j]))
    ensures FirstConflictFrom(lower, i).None? <==>
      forall k :: i <= k < |ConflictingPairs| ==> !Conflicts(lower, ConflictingPairs[k])
    decreases |ConflictingPairs| - i
  {
    if i < |ConflictingPairs| && !Conflicts(lower, ConflictingPairs[i]) {
      FirstConflictFromSpec(lower, i + 1);
    }
  }

  /**
   * The loop stops at the first conflicting pair: that pair's two words
   * both occur and no earlier pair's do; it finds none exactly when no
   * pair conflicts.
   */
  lemma FirstConflictSpec(lower: string)
    ensures FirstConflict(lower).Some? ==>
      (exists k :: 0 <= k < |ConflictingPairs| && ConflictingPairs[k] == FirstConflict(lower).value
         && Conflicts(lower, ConflictingPairs[k])
         && forall j :: 0 <= j < k ==> !Conflicts(lower, ConflictingPairs[j]))
    ensures FirstConflict(lower).None? <==>
      forall k :: 0 <= k < |ConflictingPairs| ==> !Conflicts(lower, ConflictingPairs[k])
  {
    FirstConflictFromSpec(lower, 0);
  }

  // ---------------------------------------------------------------------
  // The messages.

  const NameLead := ": Component name '"
  const TemporaryText := "uses temporary naming pattern (consider renaming for production)"
  const UnsafeText := "indicates potentially unsafe or debug functionality"
  const ShortText := "is very short (consider more descriptive naming)"
  const SuffixText := "might benefit from a descriptive suffix (e.g., Button, Label, Panel)"

  /** Every message starts with the component's path and name. */
  function Lead(path: string, name: string): string {
    path + NameLead + name + "' "
  }

  function TemporaryWarning(path: string, name: string): string {
    Lead(path, name) + TemporaryText
  }

  function UnsafeError(path: string, name: string): string {
    Lead(path, name) + UnsafeText
  }

  function ShortWarning(path: string, name: string): string {
    Lead(path, name) + ShortText
  }

  function ConflictError(path: string, name: string, pair: (string, string)): string {
    Lead(path, name) + "contains conflicting indicators '" + pair.0 + "' and '" + pair.1 + "'"
  }

  function SuffixWarning(path: string, name: string): string {
    Lead(path, name) + SuffixText
  }

  // ---------------------------------------------------------------------
  // What one component gets.

  function TemporaryPart(path: string, name: string): seq<string> {
    if IsTemporary(Lower(name)) then [TemporaryWarning(path, name)] else []
  }

  function ShortPart(path: string, name: string): seq<string> {
    if IsVeryShort(name) then [ShortWarning(path, name)] else []
  }

  function SuffixPart(path: string, name: string): seq<string> {
    if LacksTypeSuffix(name) then [SuffixWarning(path, name)] else []
  }

  function UnsafePart(path: string, name: string): seq<string> {
    if Lower(name) in UnsafeNames then [UnsafeError(path, name)] else []
  }

  function ConflictPart(path: string, name: string): seq<string> {
    match FirstConflict(Lower(name))
    case Some(p) => [ConflictError(path, name, p)]
    case None => []
  }

  /** The warnings `visit_component` appends for a component, in order (the same in both variants). */
  function ComponentWarnings(path: string, name: string): seq<string> {
    TemporaryPart(path, name) + ShortPart(path, name) + SuffixPart(path, name)
  }

  /** The errors this variant's `visit_component` appends, in order. */
  function ComponentErrors(path: string, name: string): seq<string> {
    UnsafePart(path, name) + ConflictPart(path, name)
  }

  /**
   * A name is never both very short and in want of a suffix, so a
   * component gets at most two warnings; a name of three to five
   * characters can at most be temporary.
   */
  lemma WarningsSpec(path: string, name: string)
    ensures |ComponentWarnings(path, name)| <= 2
    ensures 3 <= |name| <= 5 ==>
      ComponentWarnings(path, name) == (if IsTemporary(Lower(name)) then [TemporaryWarning(path, name)] else [])
    ensures ComponentWarnings(path, name) == [] <==>
      !IsTemporary(Lower(name)) && !IsVeryShort(name) && !LacksTypeSuffix(name)
  {
  }

  lemma UnsafeComponentDoesNotConflict()
    ensures FirstConflict("unsafecomponent") == None
  {
    var lower := "unsafecomponent";
    AbsentChar(lower, "debug", 0);
    AbsentChar(lower, "live", 0);
    AbsentChar(lower, "dev", 0);
    AbsentChar(lower, "real", 0);
    AbsentChar(lower, "sample", 4);
  }

  lemma DebugComponentDoesNotConflict()
    ensures FirstConflict("debugcomponent") == None
  {
    var lower := "debugcomponent";
    AbsentChar(lower, "prod", 1);
    AbsentChar(lower, "test", 2);
    AbsentChar(lower, "dev", 2);
    AbsentChar(lower, "mock", 3);
    AbsentChar(lower, "sample", 0);
  }

  lemma AdminPanelDoesNotConflict()
    ensures FirstConflict("adminpanel") == None
  {
    var lower := "adminpanel";
    AbsentChar(lower, "debug", 2);
    AbsentChar(lower, "test", 0);
    AbsentChar(lower, "dev", 2);
    AbsentChar(lower, "mock", 1);
    AbsentChar(lower, "sample", 0);
  }

  /** None of the three unsafe names holds a conflicting pair. */
  lemma UnsafeNamesDoNotConflict(lower: string)
    requires lower in UnsafeNames
    ensures FirstConflict(lower) == None
  {
    if lower == "unsafecomponent" {
      UnsafeComponentDoesNotConflict();
    } else if lower == "debugcomponent" {
      DebugComponentDoesNotConflict();
    } else {
      AdminPanelDoesNotConflict();
    }
  }

  /**
   * An error names an unsafe name or the first conflicting pair, and since
   * the unsafe names hold no conflicting pair a component gets at most one
   * error.
   */
  lemma ErrorsSpec(path: string, name: string)
    ensures |ComponentErrors(path, name)| <= 1
    ensures Lower(name) in UnsafeNames ==> ComponentErrors(path, name) == [UnsafeError(path, name)]
    ensures forall p :: FirstConflict(Lower(name)) == Some(p) ==> ComponentErrors(path, name) == [ConflictError(path, name, p)]
    ensures ComponentErrors(path, name) == [] <==>
      Lower(name) !in UnsafeNames && forall k :: 0 <= k < |ConflictingPairs| ==> !Conflicts(Lower(name), ConflictingPairs[k])
  {
    FirstConflictSpec(Lower(name));
    if Lower(name) in UnsafeNames {
      UnsafeNamesDoNotConflict(Lower(name));
    }
  }

  // ---------------------------------------------------------------------
  // The whole view.

  function NodeWarnings(n: Node): seq<string> {
    if n.Component? then ComponentWarnings(n.path, n.name) else []
  }

  function NodeErrors(n: Node): seq<string> {
    if n.Component? then ComponentErrors(n.path, n.name) else []
  }

  const Targets: set<NodeType> := {ComponentType}

  /** The warnings added by `process_nodes`. */
  function ReportedWarnings(nodes: seq<Node>): seq<string> {
    Appended(NodeWarnings, FilterByTypes(nodes, Targets))
  }

  /** The errors of `process_nodes`. */
  function ReportedErrors(nodes: seq<Node>): seq<string> {
    Appended(NodeErrors, FilterByTypes(nodes, Targets))
  }

  /**
   * Only components are looked at, and over the view an error is reported
   * exactly for each component whose name is unsafe or holds a
   * conflicting pair.
   */
  lemma ReportedErrorsSpec(nodes: seq<Node>)
    ensures ReportedErrors(nodes) == Appended(NodeErrors, nodes)
    ensures |ReportedErrors(nodes)| <= |nodes|
    ensures forall m :: m in ReportedErrors(nodes) <==>
      exists k :: 0 <= k < |nodes| && nodes[k].Component? && ComponentErrors(nodes[k].path, nodes[k].name) == [m]
  {
    AppendedFilter(NodeErrors, nodes, Targets);
    forall n: Node
      ensures |NodeErrors(n)| <= 1
    {
      if n.Component? {
        ErrorsSpec(n.path, n.name);
      }
    }
    AppendedSpec(NodeErrors, nodes);
  }

  /** Each warning is one of some component's warnings, and each of those is reported. */
  lemma ReportedWarningsSpec(nodes: seq<Node>)
    ensures ReportedWarnings(nodes) == Appended(NodeWarnings, nodes)
    ensures forall m :: m in ReportedWarnings(nodes) <==>
      exists k :: 0 <= k < |nodes| && nodes[k].Component? && m in ComponentWarnings(nodes[k].path, nodes[k].name)
  {
    AppendedFilter(NodeWarnings, nodes, Targets);
    AppendedMembers(NodeWarnings, nodes);
  }

  lemma ConcatAssoc(a: seq<string>, b: seq<string>, c: seq<string>)
    ensures a + b + c == a + (b + c)
  {
  }

  lemma ErrorsSnoc(nodes: seq<Node>, k: nat)
    requires k < |nodes|
    ensures Appended(NodeErrors, nodes[..k + 1]) == Appended(NodeErrors, nodes[..k]) + NodeErrors(nodes[k])
  {
    AppendedSnoc(NodeErrors, nodes, k);
  }

  lemma WarningsSnoc(nodes: seq<Node>, k: nat)
    requires k < |nodes|
    ensures Appended(NodeWarnings, nodes[..k + 1]) == Appended(NodeWarnings, nodes[..k]) + NodeWarnings(nodes[k])
  {
    AppendedSnoc(NodeWarnings, nodes, k);
  }

  // ---------------------------------------------------------------------
  // The names of the rule's unit tests (tests/unit/test_example_mixed_severity.py).

  /** Names none of the seven component types. */
  lemma MyComponentNoType()
    ensures !NamesCommonType("mycomponent")
  {
    var l := "mycomponent";
    AbsentChar(l, "button", 0);
    AbsentChar(l, "label", 0);
    AbsentChar(l, "input", 0);
    AbsentChar(l, "panel", 1);
    AbsentChar(l, "container", 4);
    AbsentChar(l, "table", 1);
    AbsentChar(l, "chart", 1);
  }

  lemma UnsafeComponentNoType()
    ensures !NamesCommonType("unsafecomponent")
  {
    var l := "unsafecomponent";
    AbsentChar(l, "button", 0);
    AbsentChar(l, "label", 0);
    AbsentChar(l, "input", 0);
    AbsentChar(l, "panel", 4);
    AbsentChar(l, "container", 5);
    AbsentChar(l, "table", 2);
    AbsentChar(l, "chart", 1);
  }

  lemma TestLiveComponentNoType()
    ensures !NamesCommonType("testlivecomponent")
  {
    var l := "testlivecomponent";
    AbsentChar(l, "button", 0);
    AbsentChar(l, "label", 1);
    AbsentChar(l, "input", 3);
    AbsentChar(l, "panel", 1);
    AbsentChar(l, "container", 4);
    AbsentChar(l, "table", 1);
    AbsentChar(l, "chart", 1);
  }

  lemma TempLoginNoType()
    ensures !NamesCommonType("templogin")
  {
    var l := "templogin";
    AbsentChar(l, "button", 0);
    AbsentChar(l, "label", 1);
    AbsentChar(l, "input", 3);
    AbsentChar(l, "panel", 1);
    AbsentChar(l, "container", 4);
    AbsentChar(l, "table", 1);
    AbsentChar(l, "chart", 1);
  }

  lemma RootLower()
    ensures !IsTemporary("root")
    ensures FirstConflict("root") == None
    ensures "root" !in UnsafeNames
  {
    var l := "root";
    DiffersAt(l, "temp", 0);
    DiffersAt(l, "test", 0);
    DiffersAt(l, "tmp", 0);
    AbsentChar(l, "debug", 0);
    AbsentChar(l, "test", 1);
    AbsentChar(l, "dev", 0);
    AbsentChar(l, "mock", 0);
    AbsentChar(l, "sample", 0);
  }

  /** A component named like `root` in any letter case. */
  lemma RootReports(p: string, name: string)
    requires Lower(name) == "root"
    ensures ComponentWarnings(p, name) == []
    ensures ComponentErrors(p, name) == []
  {
    RootLower();
  }

  lemma TempButtonLower()
    ensures IsTemporary("tempbutton")
    ensures FirstConflict("tempbutton") == None
    ensures NamesCommonType("tempbutton")
    ensures "tempbutton" !in UnsafeNames
  {
    var l := "tempbutton";
    AbsentChar(l, "debug", 0);
    AbsentChar(l, "test", 2);
    AbsentChar(l, "dev", 0);
    AbsentChar(l, "mock", 2);
    AbsentChar(l, "sample", 0);
    assert OccursAt(l, "button", 4);
  }

  /** A component named like `tempButton` in any letter case. */
  lemma TempButtonReports(p: string, name: string)
    requires Lower(name) == "tempbutton"
    ensures ComponentWarnings(p, name) == [TemporaryWarning(p, name)]
    ensures ComponentErrors(p, name) == []
  {
    TempButtonLower();
  }

  lemma XLower()
    ensures !IsTemporary("x")
    ensures FirstConflict("x") == None
    ensures "x" !in UnsafeNames
    ensures "x" !in ShortNamesAllowed
  {
    var l := "x";
    DiffersAt(l, "temp", 0);
    DiffersAt(l, "test", 0);
    DiffersAt(l, "tmp", 0);
    AbsentChar(l, "debug", 0);
    AbsentChar(l, "test", 0);
    AbsentChar(l, "dev", 0);
    AbsentChar(l, "mock", 0);
    AbsentChar(l, "sample", 0);
  }

  /** A component named like `x` in any letter case. */
  lemma XReports(p: string, name: string)
    requires Lower(name) == "x"
    ensures ComponentWarnings(p, name) == [ShortWarning(p, name)]
    ensures ComponentErrors(p, name) == []
  {
    XLower();
  }

  lemma MyComponentLower()
    ensures !IsTemporary("mycomponent")
    ensures FirstConflict("mycomponent") == None
    ensures !NamesCommonType("mycomponent")
    ensures !HasTypeSuffix("mycomponent")
    ensures "mycomponent" !in UnsafeNames
  {
    var l := "mycomponent";
    DiffersAt(l, "temp", 0);
    DiffersAt(l, "test", 0);
    DiffersAt(l, "tmp", 0);
    AbsentChar(l, "debug", 0);
    AbsentChar(l, "test", 2);
    AbsentChar(l, "dev", 0);
    AbsentChar(l, "mock", 3);
    AbsentChar(l, "sample", 0);
    MyComponentNoType();
  }

  /** A component named like `MyComponent` in any letter case. */
  lemma MyComponentReports(p: string, name: string)
    requires Lower(name) == "mycomponent"
    ensures ComponentWarnings(p, name) == [SuffixWarning(p, name)]
    ensures ComponentErrors(p, name) == []
  {
    MyComponentLower();
  }

  lemma UnsafeComponentLower()
    ensures !IsTemporary("unsafecomponent")
    ensures FirstConflict("unsafecomponent") == None
    ensures !NamesCommonType("unsafecomponent")
    ensures !HasTypeSuffix("unsafecomponent")
    ensures "unsafecomponent" in UnsafeNames
  {
    var l := "unsafecomponent";
    DiffersAt(l, "temp", 0);
    DiffersAt(l, "test", 0);
    DiffersAt(l, "tmp", 0);
    UnsafeComponentDoesNotConflict();
    UnsafeComponentNoType();
  }

  /** A component named like `UnsafeComponent` in any letter case. */
  lemma UnsafeComponentReports(p: string, name: string)
    requires Lower(name) == "unsafecomponent"
    ensures ComponentWarnings(p, name) == [SuffixWarning(p, name)]
    ensures ComponentErrors(p, name) == [UnsafeError(p, name)]
  {
    UnsafeComponentLower();
  }

  lemma DebugProdPanelLower()
    ensures !IsTemporary("debugprodpanel")
    ensures FirstConflict("debugprodpanel") == Some(("debug", "prod"))
    ensures NamesCommonType("debugprodpanel")
    ensures "debugprodpanel" !in UnsafeNames
  {
    var l := "debugprodpanel";
    DiffersAt(l, "temp", 0);
    DiffersAt(l, "test", 0);
    DiffersAt(l, "tmp", 0);
    assert OccursAt(l, "debug", 0) && OccursAt(l, "prod", 5);
    assert OccursAt(l, "panel", 9);
  }

  /** A component named like `DebugProdPanel` in any letter case. */
  lemma DebugProdPanelReports(p: string, name: string)
    requires Lower(name) == "debugprodpanel"
    ensures ComponentWarnings(p, name) == []
    ensures ComponentErrors(p, name) == [ConflictError(p, name, ("debug", "prod"))]
  {
    DebugProdPanelLower();
  }

  lemma AdminPanelLower()
    ensures !IsTemporary("adminpanel")
    ensures FirstConflict("adminpanel") == None
    ensures NamesCommonType("adminpanel")
    ensures "adminpanel" in UnsafeNames
  {
    var l := "adminpanel";
    DiffersAt(l, "temp", 0);
    DiffersAt(l, "test", 0);
    DiffersAt(l, "tmp", 0);
    AdminPanelDoesNotConflict();
    assert OccursAt(l, "panel", 5);
  }

  /** A component named like `AdminPanel` in any letter case. */
  lemma AdminPanelReports(p: string, name: string)
    requires Lower(name) == "adminpanel"
    ensures ComponentWarnings(p, name) == []
    ensures ComponentErrors(p, name) == [UnsafeError(p, name)]
  {
    AdminPanelLower();
  }

  lemma TestLiveComponentLower()
    ensures IsTemporary("testlivecomponent")
    ensures FirstConflict("testlivecomponent") == Some(("test", "live"))
    ensures !NamesCommonType("testlivecomponent")
    ensures !HasTypeSuffix("testlivecomponent")
    ensures "testlivecomponent" !in UnsafeNames
  {
    var l := "testlivecomponent";
    AbsentChar(l, "debug", 2);
    assert OccursAt(l, "test", 0) && OccursAt(l, "live", 4);
    TestLiveComponentNoType();
  }

  /** A component named like `TestLiveComponent` in any letter case. */
  lemma TestLiveComponentReports(p: string, name: string)
    requires Lower(name) == "testlivecomponent"
    ensures ComponentWarnings(p, name) == [TemporaryWarning(p, name), SuffixWarning(p, name)]
    ensures ComponentErrors(p, name) == [ConflictError(p, name, ("test", "live"))]
  {
    TestLiveComponentLower();
  }

  lemma TempLoginLower()
    ensures IsTemporary("templogin")
    ensures FirstConflict("templogin") == None
    ensures !NamesCommonType("templogin")
    ensures !HasTypeSuffix("templogin")
    ensures "templogin" !in UnsafeNames
  {
    var l := "templogin";
    AbsentChar(l, "debug", 0);
    AbsentChar(l, "test", 2);
    AbsentChar(l, "dev", 0);
    AbsentChar(l, "mock", 2);
    AbsentChar(l, "sample", 0);
    TempLoginNoType();
  }

  /** A component named like `tempLogin` in any letter case. */
  lemma TempLoginReports(p: string, name: string)
    requires Lower(name) == "templogin"
    ensures ComponentWarnings(p, name) == [TemporaryWarning(p, name), SuffixWarning(p, name)]
    ensures ComponentErrors(p, name) == []
  {
    TempLoginLower();
  }

  lemma DebugComponentLower()
    ensures !IsTemporary("debugcomponent")
    ensures FirstConflict("debugcomponent") == None
    ensures "debugcomponent" in UnsafeNames
  {
    var l := "debugcomponent";
    DiffersAt(l, "temp", 0);
    DiffersAt(l, "test", 0);
    DiffersAt(l, "tmp", 0);
    DebugComponentDoesNotConflict();
  }

  /** A component named like `DebugComponent` in any letter case. */
  lemma DebugComponentReports(p: string, name: string)
    requires Lower(name) == "debugcomponent"
    ensures ComponentErrors(p, name) == [UnsafeError(p, name)]
  {
    DebugComponentLower();
  }

  lemma SubmitButtonLower()
    ensures !IsTemporary("submitbutton")
    ensures FirstConflict("submitbutton") == None
    ensures NamesCommonType("submitbutton")
    ensures "submitbutton" !in UnsafeNames
  {
    var l := "submitbutton";
    DiffersAt(l, "temp", 0);
    DiffersAt(l, "test", 0);
    DiffersAt(l, "tmp", 0);
    AbsentChar(l, "debug", 0);
    AbsentChar(l, "test", 1);
    AbsentChar(l, "dev", 0);
    AbsentChar(l, "mock", 2);
    AbsentChar(l, "sample", 1);
    assert OccursAt(l, "button", 6);
  }

  /** A component named like `SubmitButton` in any letter case. */
  lemma SubmitButtonReports(p: string, name: string)
    requires Lower(name) == "submitbutton"
    ensures ComponentWarnings(p, name) == []
    ensures ComponentErrors(p, name) == []
  {
    SubmitButtonLower();
  }

  lemma UserNameLabelLower()
    ensures !IsTemporary("usernamelabel")
    ensures FirstConflict("usernamelabel") == None
    ensures NamesCommonType("usernamelabel")
    ensures "usernamelabel" !in UnsafeNames
  {
    var l := "usernamelabel";
    DiffersAt(l, "temp", 0);
    DiffersAt(l, "test", 0);
    DiffersAt(l, "tmp", 0);
    AbsentChar(l, "debug", 0);
    AbsentChar(l, "test", 0);
    AbsentChar(l, "dev", 0);
    AbsentChar(l, "mock", 1);
    AbsentChar(l, "sample", 3);
    assert OccursAt(l, "label", 8);
  }

  /** A component named like `UserNameLabel` in any letter case. */
  lemma UserNameLabelReports(p: string, name: string)
    requires Lower(name) == "usernamelabel"
    ensures ComponentWarnings(p, name) == []
    ensures ComponentErrors(p, name) == []
  {
    UserNameLabelLower();
  }

  lemma DataPanelLower()
    ensures !IsTemporary("datapanel")
    ensures FirstConflict("datapanel") == None
    ensures NamesCommonType("datapanel")
    ensures "datapanel" !in UnsafeNames
  {
    var l := "datapanel";
    DiffersAt(l, "temp", 0);
    DiffersAt(l, "test", 0);
    DiffersAt(l, "tmp", 0);
    AbsentChar(l, "debug", 2);
    AbsentChar(l, "test", 2);
    AbsentChar(l, "dev", 2);
    AbsentChar(l, "mock", 0);
    AbsentChar(l, "sample", 0);
    assert OccursAt(l, "panel", 4);
  }

  /** A component named like `DataPanel` in any letter case. */
  lemma DataPanelReports(p: string, name: string)
    requires Lower(name) == "datapanel"
    ensures ComponentWarnings(p, name) == []
    ensures ComponentErrors(p, name) == []
  {
    DataPanelLower();
  }

  lemma MainContainerLower()
    ensures !IsTemporary("maincontainer")
    ensures FirstConflict("maincontainer") == None
    ensures NamesCommonType("maincontainer")
    ensures "maincontainer" !in UnsafeNames
  {
    var l := "maincontainer";
    DiffersAt(l, "temp", 0);
    DiffersAt(l, "test", 0);
    DiffersAt(l, "tmp", 0);
    AbsentChar(l, "debug", 0);
    AbsentChar(l, "test", 2);
    AbsentChar(l, "dev", 0);
    AbsentChar(l, "mock", 3);
    AbsentChar(l, "sample", 0);
    assert OccursAt(l, "container", 4);
  }

  /** A component named like `MainContainer` in any letter case. */
  lemma MainContainerReports(p: string, name: string)
    requires Lower(name) == "maincontainer"
    ensures ComponentWarnings(p, name) == []
    ensures ComponentErrors(p, name) == []
  {
    MainContainerLower();
  }

  lemma OkLower()
    ensures !IsTemporary("ok")
    ensures FirstConflict("ok") == None
    ensures "ok" !in UnsafeNames
    ensures "ok" in ShortNamesAllowed
  {
    var l := "ok";
    DiffersAt(l, "temp", 0);
    DiffersAt(l, "test", 0);
    DiffersAt(l, "tmp", 0);
    AbsentChar(l, "debug", 0);
    AbsentChar(l, "test", 0);
    AbsentChar(l, "dev", 0);
    AbsentChar(l, "mock", 0);
    AbsentChar(l, "sample", 0);
  }

  /** A component named like `ok` in any letter case. */
  lemma OkReports(p: string, name: string)
    requires Lower(name) == "ok"
    ensures ComponentWarnings(p, name) == []
    ensures ComponentErrors(p, name) == []
  {
    OkLower();
  }

  lemma IdLower()
    ensures !IsTemporary("id")
    ensures FirstConflict("id") == None
    ensures "id" !in UnsafeNames
    ensures "id" in ShortNamesAllowed
  {
    var l := "id";
    DiffersAt(l, "temp", 0);
    DiffersAt(l, "test", 0);
    DiffersAt(l, "tmp", 0);
    AbsentChar(l, "debug", 1);
    AbsentChar(l, "test", 0);
    AbsentChar(l, "dev", 1);
    AbsentChar(l, "mock", 0);
    AbsentChar(l, "sample", 0);
  }

  /** A component named like `id` in any letter case. */
  lemma IdReports(p: string, name: string)
    requires Lower(name) == "id"
    ensures ComponentWarnings(p, name) == []
    ensures ComponentErrors(p, name) == []
  {
    IdLower();
  }

  lemma GoLower()
    ensures !IsTemporary("go")
    ensures FirstConflict("go") == None
    ensures "go" !in UnsafeNames
    ensures "go" in ShortNamesAllowed
  {
    var l := "go";
    DiffersAt(l, "temp", 0);
    DiffersAt(l, "test", 0);
    DiffersAt(l, "tmp", 0);
    AbsentChar(l, "debug", 0);
    AbsentChar(l, "test", 0);
    AbsentChar(l, "dev", 0);
    AbsentChar(l, "mock", 0);
    AbsentChar(l, "sample", 0);
  }

  /** A component named like `go` in any letter case. */
  lemma GoReports(p: string, name: string)
    requires Lower(name) == "go"
    ensures ComponentWarnings(p, name) == []
    ensures ComponentErrors(p, name) == []
  {
    GoLower();
  }

  // The names the tests use, lower-cased.

  lemma RootLowered()
    ensures Lower("root") == "root"
  {
    LowerEach("root", "root");
  }

  lemma TempButtonLowered()
    ensures Lower("tempButton") == "tempbutton"
  {
    LowerEach("tempButton", "tempbutton");
  }

  lemma XLowered()
    ensures Lower("x") == "x"
  {
    LowerEach("x", "x");
  }

  lemma MyComponentLowered()
    ensures Lower("MyComponent") == "mycomponent"
  {
    LowerEach("MyComponent", "mycomponent");
  }

  lemma UnsafeComponentLowered()
    ensures Lower("UnsafeComponent") == "unsafecomponent"
  {
    LowerEach("UnsafeComponent", "unsafecomponent");
  }

  lemma DebugProdPanelLowered()
    ensures Lower("DebugProdPanel") == "debugprodpanel"
  {
    LowerEach("DebugProdPanel", "debugprodpanel");
  }

  lemma AdminPanelLowered()
    ensures Lower("AdminPanel") == "adminpanel"
  {
    LowerEach("AdminPanel", "adminpanel");
  }

  lemma TestLiveComponentLowered()
    ensures Lower("TestLiveComponent") == "testlivecomponent"
  {
    LowerEach("TestLiveComponent", "testlivecomponent");
  }

  lemma TempLoginLowered()
    ensures Lower("tempLogin") == "templogin"
  {
    LowerEach("tempLogin", "templogin");
  }

  lemma DebugComponentLowered()
    ensures Lower("DebugComponent") == "debugcomponent"
  {
    LowerEach("DebugComponent", "debugcomponent");
  }

  lemma SubmitButtonLowered()
    ensures Lower("SubmitButton") == "submitbutton"
  {
    LowerEach("SubmitButton", "submitbutton");
  }

  lemma UserNameLabelLowered()
    ensures Lower("UserNameLabel") == "usernamelabel"
  {
    LowerEach("UserNameLabel", "usernamelabel");
  }

  lemma DataPanelLowered()
    ensures Lower("DataPanel") == "datapanel"
  {
    LowerEach("DataPanel", "datapanel");
  }

  lemma MainContainerLowered()
    ensures Lower("MainContainer") == "maincontainer"
  {
    LowerEach("MainContainer", "maincontainer");
  }

  lemma OkLowered()
    ensures Lower("ok") == "ok"
  {
    LowerEach("ok", "ok");
  }

  lemma IdLowered()
    ensures Lower("id") == "id"
  {
    LowerEach("id", "id");
  }

  lemma GoLowered()
    ensures Lower("go") == "go"
  {
    LowerEach("go", "go");
  }

  // ---------------------------------------------------------------------
  // The rule.

  class ExampleMixedSeverityRule {
    const targets: set<NodeType> := Targets
    var errors: seq<string>
    /** Not created by the base class; created empty here, as the rule's users expect. */
    var warnings: seq<string>

    constructor()
      ensures errors == [] && warnings == []
    {
      errors := [];
      warnings := [];
    }

    function ErrorMessage(): string {
      MixedMessage
    }

    /** The loop over `conflicting_patterns`: the pair it stops at, if any. */
    static method FindConflict(lower: string) returns (r: Option<(string, string)>)
      ensures r == FirstConflict(lower)
    {
      var i := 0;
      while i < |ConflictingPairs|
        invariant 0 <= i <= |ConflictingPairs|
        invariant FirstConflictFrom(lower, i) == FirstConflict(lower)
      {
        var (p1, p2) := ConflictingPairs[i];
        if Contains(lower, p1) && Contains(lower, p2) {
          return Some((p1, p2));
        }
        i := i + 1;
      }
      return None;
    }

    /** `visit_component` */
    method VisitComponent(n: Node)
      requires n.Component?
      modifies this
      ensures errors == old(errors) + ComponentErrors(n.path, n.name)
      ensures warnings == old(warnings) + ComponentWarnings(n.path, n.name)
    {
      var lower := Lower(n.name);
      var temporary := if IsTemporary(lower) then [TemporaryWarning(n.path, n.name)] else [];
      var unsafe := if lower in UnsafeNames then [UnsafeError(n.path, n.name)] else [];
      var short := if IsVeryShort(n.name) then [ShortWarning(n.path, n.name)] else [];
      var pair := FindConflict(lower);
      var conflict := if pair.Some? then [ConflictError(n.path, n.name, pair.value)] else [];
      var suffix := if LacksTypeSuffix(n.name) then [SuffixWarning(n.path, n.name)] else [];
      assert temporary == TemporaryPart(n.path, n.name);
      assert unsafe == UnsafePart(n.path, n.name);
      assert conflict == ConflictPart(n.path, n.name);
      errors := errors + (unsafe + conflict);
      warnings := warnings + (temporary + short + suffix);
    }

    /** `node.accept(self)`: every other visit is the do-nothing default. */
    method Accept(n: Node)
      modifies this
      ensures errors == old(errors) + NodeErrors(n)
      ensures warnings == old(warnings) + NodeWarnings(n)
    {
      if n.Component? {
        VisitComponent(n);
      }
    }

    /** `process_nodes`: the errors start afresh, the warnings accumulate. */
    method ProcessNodes(nodes: seq<Node>)
      modifies this
      ensures errors == ReportedErrors(nodes)
      ensures warnings == old(warnings) + ReportedWarnings(nodes)
    {
      errors := [];
      var w0 := warnings;
      var applicable := FilterByTypes(nodes, targets);
      var k := 0;
      while k < |applicable|
        invariant 0 <= k <= |applicable|
        invariant errors == Appended(NodeErrors, applicable[..k])
        invariant warnings == w0 + Appended(NodeWarnings, applicable[..k])
      {
        ErrorsSnoc(applicable, k);
        WarningsSnoc(applicable, k);
        ConcatAssoc(w0, Appended(NodeWarnings, applicable[..k]), NodeWarnings(applicable[k]));
        Accept(applicable[k]);
        k := k + 1;
      }
      assert applicable[..k] == applicable;
    }
  }
}
