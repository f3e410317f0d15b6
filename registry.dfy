/**
 * `RuleRegistry` (src/ignition_lint/rules/registry.py): rule classes by
 * name, in registration order, with a validation step that rejects bad
 * classes and duplicate names without touching the tables.
 */
module Registry {
  import opened Wrappers
  import opened Dicts

  /**
   * What the registry can learn about a rule class by reflection. The class
   * test of `create_from_config({})` is abstract: `instantiationError` is
   * the exception text it raises, or `None` when it succeeds.
   */
  datatype RuleClass = RuleClass(
    name: string,
    isClass: bool,
    isLintingRule: bool,
    isBaseClass: bool,
    hasErrorMessage: bool,
    instantiationError: Option<string>,
    moduleName: string,
    docstring: Option<string>,
    sourceFile: Option<string>,
    errorMessage: Option<string>)

  datatype Metadata = Metadata(className: string, moduleName: string, docstring: Option<string>,
                               sourceFile: Option<string>, errorMessage: Option<string>)

  /** The three tables of the registry. */
  datatype Tables = Tables(rules: Dict<RuleClass>, validated: set<string>, metadata: Dict<Metadata>)

  /** The tables agree: same names in both dicts, the validated set holds exactly those names. */
  ghost predicate Consistent(t: Tables) {
    Distinct(t.rules) && Distinct(t.metadata) && DictKeys(t.rules) == DictKeys(t.metadata)
    && forall n :: n in t.validated <==> HasKey(t.rules, n)
  }

  /** `rule_name or rule_class.__name__` */
  function RuleName(rc: RuleClass, ruleName: Option<string>): (r: string)
    ensures ruleName.Some? && ruleName.value != [] ==> r == ruleName.value
    ensures ruleName.None? || ruleName.value == [] ==> r == rc.name
  {
    if ruleName.Some? && ruleName.value != [] then ruleName.value else rc.name
  }

  /** `_validate_rule`: the first failed check's `RuleValidationError`, in the order the source checks them. */
  function ValidationError(t: Tables, rc: RuleClass, name: string): (r: Option<string>)
    ensures r.None? <==> (rc.isClass && rc.isLintingRule && !rc.isBaseClass && rc.hasErrorMessage
                          && rc.instantiationError.None? && !HasKey(t.rules, name))
  {
    if !rc.isClass then Some("Rule " + name + " must be a class")
    else if !rc.isLintingRule then Some("Rule " + name + " must inherit from LintingRule")
    else if rc.isBaseClass then Some("Cannot register the base LintingRule class")
    else if !rc.hasErrorMessage then Some("Rule " + name + " must implement error_message property")
    else if rc.instantiationError.Some? then Some("Rule " + name + " failed basic instantiation test: " + rc.instantiationError.value)
    else if HasKey(t.rules, name) then Some("Rule name " + name + " is already registered")
    else None
  }

  /** `_extract_rule_metadata`; the error message is only known when instantiation succeeds. */
  function MetadataOf(rc: RuleClass): (m: Metadata)
    ensures m.className == rc.name && m.moduleName == rc.moduleName
    ensures rc.instantiationError.Some? ==> m.errorMessage.None?
  {
    Metadata(rc.name, rc.moduleName, rc.docstring, rc.sourceFile,
             if rc.instantiationError.None? then rc.errorMessage else None)
  }

  /** `register_rule` on the tables. */
  function Register(t: Tables, rc: RuleClass, ruleName: Option<string>): (Tables, Result<string>) {
    var name := RuleName(rc, ruleName);
    var e := ValidationError(t, rc, name);
    if e.Some? then (t, Err(e.value))
    else (Tables(Put(t.rules, name, rc), t.validated + {name}, Put(t.metadata, name, MetadataOf(rc))), Ok(name))
  }

  /** A rejected registration leaves every table as it was; an accepted one returns the name used. */
  lemma RegisterOutcome(t: Tables, rc: RuleClass, ruleName: Option<string>)
    ensures Register(t, rc, ruleName).1.Err? ==> Register(t, rc, ruleName).0 == t
    ensures Register(t, rc, ruleName).1.Ok? ==> Register(t, rc, ruleName).1.value == RuleName(rc, ruleName)
    ensures Register(t, rc, ruleName).1.Ok? <==> ValidationError(t, rc, RuleName(rc, ruleName)).None?
  {
  }

  /** A name already present is rejected with the duplicate message, and nothing changes. */
  lemma DuplicateRejected(t: Tables, rc: RuleClass, ruleName: Option<string>)
    requires HasKey(t.rules, RuleName(rc, ruleName))
    ensures Register(t, rc, ruleName).0 == t
    ensures Register(t, rc, ruleName).1.Err?
  {
  }

  /** The first check that fails names the problem; a non-class is reported before anything else. */
  lemma NotAClassFirst(t: Tables, rc: RuleClass, ruleName: Option<string>)
    requires !rc.isClass
    ensures Register(t, rc, ruleName).1 == Err("Rule " + RuleName(rc, ruleName) + " must be a class")
  {
  }

  /**
   * After a successful registration the tables stay consistent, the name
   * is registered, maps to the class and its metadata, and is listed last;
   * every other name keeps its class.
   */
  lemma RegisterFinds(t: Tables, rc: RuleClass, ruleName: Option<string>)
    requires Consistent(t)
    requires Register(t, rc, ruleName).1.Ok?
    ensures var (t', r) := Register(t, rc, ruleName);
      && Consistent(t')
      && Get(t'.rules, r.value) == Some(rc)
      && Get(t'.metadata, r.value) == Some(MetadataOf(rc))
      && DictKeys(t'.rules) == DictKeys(t.rules) + [r.value]
      && forall n :: n != r.value ==> Get(t'.rules, n) == Get(t.rules, n)
  {
    var name := RuleName(rc, ruleName);
    var t' := Register(t, rc, ruleName).0;
    PutGet(t.rules, name, rc);
    PutGet(t.metadata, name, MetadataOf(rc));
    assert DictKeys(t'.rules) == DictKeys(t.rules) + [name];
    assert DictKeys(t'.metadata) == DictKeys(t.metadata) + [name];
  }

  const EmptyTables := Tables([], {}, [])

  lemma EmptyConsistent()
    ensures Consistent(EmptyTables)
  {
  }

  /** `RuleRegistry` */
  class RuleRegistry {
    var rules: Dict<RuleClass>
    var validatedRules: set<string>
    var ruleMetadata: Dict<Metadata>

    function State(): Tables
      reads this
    {
      Tables(rules, validatedRules, ruleMetadata)
    }

    constructor()
      ensures State() == EmptyTables
    {
      rules := [];
      validatedRules := {};
      ruleMetadata := [];
    }

    /** `_validate_rule` */
    method ValidateRule(rc: RuleClass, ruleName: string) returns (error: Option<string>)
      ensures error == ValidationError(State(), rc, ruleName)
    {
      if !rc.isClass {
        return Some("Rule " + ruleName + " must be a class");
      }
      if !rc.isLintingRule {
        return Some("Rule " + ruleName + " must inherit from LintingRule");
      }
      if rc.isBaseClass {
        return Some("Cannot register the base LintingRule class");
      }
      if !rc.hasErrorMessage {
        return Some("Rule " + ruleName + " must implement error_message property");
      }
      if rc.instantiationError.Some? {
        return Some("Rule " + ruleName + " failed basic instantiation test: " + rc.instantiationError.value);
      }
      if Dicts.Find(rules, ruleName) != -1 {
        return Some("Rule name " + ruleName + " is already registered");
      }
      return None;
    }

    /** `register_rule`: the `RuleValidationError` is the `Err` case. */
    method RegisterRule(rc: RuleClass, ruleName: Option<string>) returns (r: Result<string>)
      modifies this
      ensures (State(), r) == Register(old(State()), rc, ruleName)
    {
      var name := if ruleName.Some? && ruleName.value != [] then ruleName.value else rc.name;
      var error := ValidateRule(rc, name);
      if error.Some? {
        return Err(error.value);
      }
      var metadata := MetadataOf(rc);
      rules := Put(rules, name, rc);
      validatedRules := validatedRules + {name};
      ruleMetadata := Put(ruleMetadata, name, metadata);
      return Ok(name);
    }

    function GetRule(ruleName: string): (r: Option<RuleClass>)
      reads this
      ensures r.None? <==> !HasKey(rules, ruleName)
    {
      Get(rules, ruleName)
    }

    /** `get_all_rules`: a copy, which later registrations do not change. */
    function GetAllRules(): Dict<RuleClass>
      reads this
    {
      rules
    }

    function ListRules(): (names: seq<string>)
      reads this
      ensures |names| == |rules|
    {
      DictKeys(rules)
    }

    function GetRuleMetadata(ruleName: string): (r: Option<Metadata>)
      reads this
      ensures r.None? <==> !HasKey(ruleMetadata, ruleName)
    {
      Get(ruleMetadata, ruleName)
    }

    predicate IsRegistered(ruleName: string)
      reads this
    {
      HasKey(rules, ruleName)
    }
  }

  /** Registering the same class twice under its own name: the second call fails and changes nothing. */
  method RegisterTwice(rc: RuleClass) returns (first: Result<string>, second: Result<string>)
    requires rc.isClass && rc.isLintingRule && !rc.isBaseClass && rc.hasErrorMessage && rc.instantiationError.None?
    ensures first == Ok(rc.name)
    ensures second == Err("Rule name " + rc.name + " is already registered")
  {
    var registry := new RuleRegistry();
    first := registry.RegisterRule(rc, None);
    ghost var after := registry.State();
    second := registry.RegisterRule(rc, None);
    assert HasKey(after.rules, rc.name) by {
      PutGet(EmptyTables.rules, rc.name, rc);
    }
  }
}
