/**
 * The mixed-severity example rule of `rules/examples/example_mixed_severity.py`.
 * It warns exactly as the rule of module MixedSeverity does, but reports
 * at most one error per component: a conflicting pair of words first, and
 * only when there is none a name containing an unsafe word.
 */
module MixedSeverityExample {
  import opened Wrappers
  import opened PyStr
  import opened Nodes
  import opened RuleCommon
  import opened MixedSeverity

  /** `unsafe_patterns` */
  const UnsafePatterns: seq<string> := ["unsafe", "debug", "admin"]

  /** Some unsafe word occurs in the lower-cased name. */
  predicate LooksUnsafe(lower: string) {
    Contains(lower, "unsafe") || Contains(lower, "debug") || Contains(lower, "admin")
  }

  /** The error this variant's `visit_component` appends, if any. */
  function ExampleErrors(path: string, name: string): seq<string> {
    match FirstConflict(Lower(name))
    case Some(p) => [ConflictError(path, name, p)]
    case None => if LooksUnsafe(Lower(name)) then [UnsafeError(path, name)] else []
  }

  /**
   * At most one error: the first conflicting pair when there is one, the
   * unsafe-name error only when no pair conflicts, and none exactly when no
   * pair conflicts and no unsafe word occurs.
   */
  lemma ExampleErrorsSpec(path: string, name: string)
    ensures |ExampleErrors(path, name)| <= 1
    ensures forall p :: FirstConflict(Lower(name)) == Some(p) ==> ExampleErrors(path, name) == [ConflictError(path, name, p)]
    ensures (forall k :: 0 <= k < |ConflictingPairs| ==> !Conflicts(Lower(name), ConflictingPairs[k])) ==>
      ExampleErrors(path, name) == (if LooksUnsafe(Lower(name)) then [UnsafeError(path, name)] else [])
    ensures ExampleErrors(path, name) == [] <==>
      !LooksUnsafe(Lower(name)) && forall k :: 0 <= k < |ConflictingPairs| ==> !Conflicts(Lower(name), ConflictingPairs[k])
  {
    FirstConflictSpec(Lower(name));
  }

  /** Each of the other variant's unsafe names contains an unsafe word. */
  lemma UnsafeNamesLookUnsafe(lower: string)
    requires lower in UnsafeNames
    ensures LooksUnsafe(lower)
  {
    if lower == "unsafecomponent" {
      assert OccursAt(lower, "unsafe", 0);
    } else if lower == "debugcomponent" {
      assert OccursAt(lower, "debug", 0);
    } else {
      assert OccursAt(lower, "admin", 0);
    }
  }

  /**
   * Whatever error the variant of module MixedSeverity reports, this one
   * reports the same.
   */
  lemma AgreesWithRulesVariant(path: string, name: string)
    ensures ComponentErrors(path, name) != [] ==> ExampleErrors(path, name) == ComponentErrors(path, name)
  {
    ErrorsSpec(path, name);
    if Lower(name) in UnsafeNames {
      UnsafeNamesDoNotConflict(Lower(name));
      UnsafeNamesLookUnsafe(Lower(name));
    }
  }

  /** No pair conflicts in `debugpanel`, and it contains `debug`. */
  lemma DebugPanelLower()
    ensures FirstConflict("debugpanel") == None
    ensures LooksUnsafe("debugpanel")
  {
    var l := "debugpanel";
    AbsentChar(l, "prod", 1);
    AbsentChar(l, "test", 0);
    AbsentChar(l, "dev", 2);
    AbsentChar(l, "mock", 0);
    AbsentChar(l, "sample", 0);
    FirstConflictSpec(l);
    assert OccursAt(l, "debug", 0);
  }

  /** A name that only contains an unsafe word separates the two variants. */
  lemma DebugPanelSeparatesVariants(path: string, name: string)
    requires Lower(name) == "debugpanel"
    ensures ExampleErrors(path, name) == [UnsafeError(path, name)]
    ensures ComponentErrors(path, name) == []
  {
    DebugPanelLower();
  }

  // ---------------------------------------------------------------------
  // The whole view; the warnings are those of module MixedSeverity.

  function ExampleNodeErrors(n: Node): seq<string> {
    if n.Component? then ExampleErrors(n.path, n.name) else []
  }

  /** The errors of `process_nodes`. */
  function ExampleReportedErrors(nodes: seq<Node>): seq<string> {
    Appended(ExampleNodeErrors, FilterByTypes(nodes, Targets))
  }

  /**
   * Only components are looked at, at most one error each, and an error
   * is reported exactly for each component with a conflicting pair or an
   * unsafe word.
   */
  lemma ExampleReportedErrorsSpec(nodes: seq<Node>)
    ensures ExampleReportedErrors(nodes) == Appended(ExampleNodeErrors, nodes)
    ensures |ExampleReportedErrors(nodes)| <= |nodes|
    ensures forall m :: m in ExampleReportedErrors(nodes) <==>
      exists k :: 0 <= k < |nodes| && nodes[k].Component? && ExampleErrors(nodes[k].path, nodes[k].name) == [m]
  {
    AppendedFilter(ExampleNodeErrors, nodes, Targets);
    forall n: Node
      ensures |ExampleNodeErrors(n)| <= 1
    {
      if n.Component? {
        ExampleErrorsSpec(n.path, n.name);
      }
    }
    AppendedSpec(ExampleNodeErrors, nodes);
  }

  lemma ExampleErrorsSnoc(nodes: seq<Node>, k: nat)
    requires k < |nodes|
    ensures Appended(ExampleNodeErrors, nodes[..k + 1]) == Appended(ExampleNodeErrors, nodes[..k]) + ExampleNodeErrors(nodes[k])
  {
    AppendedSnoc(ExampleNodeErrors, nodes, k);
  }

  // ---------------------------------------------------------------------
  // The errors for the names of tests/unit/test_example_mixed_severity.py.

  lemma RootSafe()
    ensures !LooksUnsafe("root")
  {
    AbsentChar("root", "unsafe", 0);
    AbsentChar("root", "debug", 0);
    AbsentChar("root", "admin", 0);
  }

  lemma RootReportsHere(p: string, name: string)
    requires Lower(name) == "root"
    ensures ExampleErrors(p, name) == []
  {
    RootLower();
    RootSafe();
  }

  lemma TempButtonSafe()
    ensures !LooksUnsafe("tempbutton")
  {
    AbsentChar("tempbutton", "unsafe", 2);
    AbsentChar("tempbutton", "debug", 0);
    AbsentChar("tempbutton", "admin", 0);
  }

  lemma TempButtonReportsHere(p: string, name: string)
    requires Lower(name) == "tempbutton"
    ensures ExampleErrors(p, name) == []
  {
    TempButtonLower();
    TempButtonSafe();
  }

  lemma XSafe()
    ensures !LooksUnsafe("x")
  {
    AbsentChar("x", "unsafe", 0);
    AbsentChar("x", "debug", 0);
    AbsentChar("x", "admin", 0);
  }

  lemma XReportsHere(p: string, name: string)
    requires Lower(name) == "x"
    ensures ExampleErrors(p, name) == []
  {
    XLower();
    XSafe();
  }

  lemma MyComponentSafe()
    ensures !LooksUnsafe("mycomponent")
  {
    AbsentChar("mycomponent", "unsafe", 2);
    AbsentChar("mycomponent", "debug", 0);
    AbsentChar("mycomponent", "admin", 0);
  }

  lemma MyComponentReportsHere(p: string, name: string)
    requires Lower(name) == "mycomponent"
    ensures ExampleErrors(p, name) == []
  {
    MyComponentLower();
    MyComponentSafe();
  }

  lemma UnsafeComponentUnsafe()
    ensures LooksUnsafe("unsafecomponent")
  {
    assert OccursAt("unsafecomponent", "unsafe", 0);
  }

  lemma UnsafeComponentReportsHere(p: string, name: string)
    requires Lower(name) == "unsafecomponent"
    ensures ExampleErrors(p, name) == [UnsafeError(p, name)]
  {
    UnsafeComponentLower();
    UnsafeComponentUnsafe();
  }

  lemma DebugProdPanelReportsHere(p: string, name: string)
    requires Lower(name) == "debugprodpanel"
    ensures ExampleErrors(p, name) == [ConflictError(p, name, ("debug", "prod"))]
  {
    DebugProdPanelLower();
  }

  lemma AdminPanelUnsafe()
    ensures LooksUnsafe("adminpanel")
  {
    assert OccursAt("adminpanel", "admin", 0);
  }

  lemma AdminPanelReportsHere(p: string, name: string)
    requires Lower(name) == "adminpanel"
    ensures ExampleErrors(p, name) == [UnsafeError(p, name)]
  {
    AdminPanelLower();
    AdminPanelUnsafe();
  }

  lemma TestLiveComponentReportsHere(p: string, name: string)
    requires Lower(name) == "testlivecomponent"
    ensures ExampleErrors(p, name) == [ConflictError(p, name, ("test", "live"))]
  {
    TestLiveComponentLower();
  }

  lemma TempLoginSafe()
    ensures !LooksUnsafe("templogin")
  {
    AbsentChar("templogin", "unsafe", 0);
    AbsentChar("templogin", "debug", 0);
    AbsentChar("templogin", "admin", 0);
  }

  lemma TempLoginReportsHere(p: string, name: string)
    requires Lower(name) == "templogin"
    ensures ExampleErrors(p, name) == []
  {
    TempLoginLower();
    TempLoginSafe();
  }

  lemma DebugComponentUnsafe()
    ensures LooksUnsafe("debugcomponent")
  {
    assert OccursAt("debugcomponent", "debug", 0);
  }

  lemma DebugComponentReportsHere(p: string, name: string)
    requires Lower(name) == "debugcomponent"
    ensures ExampleErrors(p, name) == [UnsafeError(p, name)]
  {
    DebugComponentLower();
    DebugComponentUnsafe();
  }

  lemma SubmitButtonSafe()
    ensures !LooksUnsafe("submitbutton")
  {
    AbsentChar("submitbutton", "unsafe", 3);
    AbsentChar("submitbutton", "debug", 0);
    AbsentChar("submitbutton", "admin", 0);
  }

  lemma SubmitButtonReportsHere(p: string, name: string)
    requires Lower(name) == "submitbutton"
    ensures ExampleErrors(p, name) == []
  {
    SubmitButtonLower();
    SubmitButtonSafe();
  }

  lemma UserNameLabelSafe()
    ensures !LooksUnsafe("usernamelabel")
  {
    AbsentChar("usernamelabel", "unsafe", 4);
    AbsentChar("usernamelabel", "debug", 0);
    AbsentChar("usernamelabel", "admin", 1);
  }

  lemma UserNameLabelReportsHere(p: string, name: string)
    requires Lower(name) == "usernamelabel"
    ensures ExampleErrors(p, name) == []
  {
    UserNameLabelLower();
    UserNameLabelSafe();
  }

  lemma DataPanelSafe()
    ensures !LooksUnsafe("datapanel")
  {
    AbsentChar("datapanel", "unsafe", 0);
    AbsentChar("datapanel", "debug", 2);
    AbsentChar("datapanel", "admin", 2);
  }

  lemma DataPanelReportsHere(p: string, name: string)
    requires Lower(name) == "datapanel"
    ensures ExampleErrors(p, name) == []
  {
    DataPanelLower();
    DataPanelSafe();
  }

  lemma MainContainerSafe()
    ensures !LooksUnsafe("maincontainer")
  {
    AbsentChar("maincontainer", "unsafe", 0);
    AbsentChar("maincontainer", "debug", 0);
    AbsentChar("maincontainer", "admin", 1);
  }

  lemma MainContainerReportsHere(p: string, name: string)
    requires Lower(name) == "maincontainer"
    ensures ExampleErrors(p, name) == []
  {
    MainContainerLower();
    MainContainerSafe();
  }

  lemma OkSafe()
    ensures !LooksUnsafe("ok")
  {
    AbsentChar("ok", "unsafe", 0);
    AbsentChar("ok", "debug", 0);
    AbsentChar("ok", "admin", 0);
  }

  lemma OkReportsHere(p: string, name: string)
    requires Lower(name) == "ok"
    ensures ExampleErrors(p, name) == []
  {
    OkLower();
    OkSafe();
  }

  lemma IdSafe()
    ensures !LooksUnsafe("id")
  {
    AbsentChar("id", "unsafe", 0);
    AbsentChar("id", "debug", 1);
    AbsentChar("id", "admin", 0);
  }

  lemma IdReportsHere(p: string, name: string)
    requires Lower(name) == "id"
    ensures ExampleErrors(p, name) == []
  {
    IdLower();
    IdSafe();
  }

  lemma GoSafe()
    ensures !LooksUnsafe("go")
  {
    AbsentChar("go", "unsafe", 0);
    AbsentChar("go", "debug", 0);
    AbsentChar("go", "admin", 0);
  }

  lemma GoReportsHere(p: string, name: string)
    requires Lower(name) == "go"
    ensures ExampleErrors(p, name) == []
  {
    GoLower();
    GoSafe();
  }


  // ---------------------------------------------------------------------
  // The rule.

  class ExampleMixedSeverityRule {
    const targets: set<NodeType> := Targets
    var errors: seq<string>
    /** Not created by the base class; created empty here, as the rule's users expect. */
    var warnings: seq<string>

    constructor()
      ensures errors == [] && warnings == []
    {
      errors := [];
      warnings := [];
    }

    function ErrorMessage(): string {
      MixedMessage
    }

    /** `visit_component` */
    method VisitComponent(n: Node)
      requires n.Component?
      modifies this
      ensures errors == old(errors) + ExampleErrors(n.path, n.name)
      ensures warnings == old(warnings) + ComponentWarnings(n.path, n.name)
    {
      var lower := Lower(n.name);
      var temporary := if IsTemporary(lower) then [TemporaryWarning(n.path, n.name)] else [];
      var found: seq<string> := [];
      var hasConflictingPattern := false;
      var i := 0;
      while i < |ConflictingPairs|
        invariant 0 <= i <= |ConflictingPairs|
        invariant FirstConflictFrom(lower, i) == FirstConflict(lower)
        invariant found == [] && !hasConflictingPattern
      {
        var (p1, p2) := ConflictingPairs[i];
        if Contains(lower, p1) && Contains(lower, p2) {
          found := [ConflictError(n.path, n.name, (p1, p2))];
          hasConflictingPattern := true;
          break;
        }
        i := i + 1;
      }
      assert hasConflictingPattern <==> FirstConflict(lower).Some?;
      if !hasConflictingPattern {
        var j := 0;
        while j < |UnsafePatterns|
          invariant 0 <= j <= |UnsafePatterns|
          invariant forall q :: 0 <= q < j ==> !Contains(lower, UnsafePatterns[q])
          invariant found == []
        {
          if Contains(lower, UnsafePatterns[j]) {
            found := [UnsafeError(n.path, n.name)];
            break;
          }
          j := j + 1;
        }
        assert found == [] ==> !LooksUnsafe(lower) by {
          if found == [] {
            assert !Contains(lower, UnsafePatterns[0]) && !Contains(lower, UnsafePatterns[1]);
            assert !Contains(lower, UnsafePatterns[2]);
          }
        }
      }
      var short := if IsVeryShort(n.name) then [ShortWarning(n.path, n.name)] else [];
      var suffix := if LacksTypeSuffix(n.name) then [SuffixWarning(n.path, n.name)] else [];
      assert temporary == TemporaryPart(n.path, n.name);
      assert found == ExampleErrors(n.path, n.name);
      errors := errors + found;
      warnings := warnings + (temporary + short + suffix);
    }

    /** `node.accept(self)`: every other visit is the do-nothing default. */
    method Accept(n: Node)
      modifies this
      ensures errors == old(errors) + ExampleNodeErrors(n)
      ensures warnings == old(warnings) + NodeWarnings(n)
    {
      if n.Component? {
        VisitComponent(n);
      }
    }

    /** `process_nodes`: the errors start afresh, the warnings accumulate. */
    method ProcessNodes(nodes: seq<Node>)
      modifies this
      ensures errors == ExampleReportedErrors(nodes)
      ensures warnings == old(warnings) + ReportedWarnings(nodes)
    {
      errors := [];
      var w0 := warnings;
      var applicable := FilterByTypes(nodes, targets);
      var k := 0;
      while k < |applicable|
        invariant 0 <= k <= |applicable|
        invariant errors == Appended(ExampleNodeErrors, applicable[..k])
        invariant warnings == w0 + Appended(NodeWarnings, applicable[..k])
      {
        ExampleErrorsSnoc(applicable, k);
        WarningsSnoc(applicable, k);
        ConcatAssoc(w0, Appended(NodeWarnings, applicable[..k]), NodeWarnings(applicable[k]));
        Accept(applicable[k]);
        k := k + 1;
      }
      assert applicable[..k] == applicable;
    }
  }
}
