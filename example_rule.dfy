/**
 * The two example rules shipped with the rule framework.
 *
 * `ExampleNameLengthRule` reports components whose name (the last segment
 * of their path) is shorter than a minimum. `ExampleBindingCountRule`
 * counts the expression, property and tag bindings under each component
 * and, after the walk, reports the components whose count reaches a
 * warning or an error threshold. Its class method `preprocess_config`
 * turns thresholds given as text into integers with Python's `int()`.
 */
module ExampleRule {
  import opened Wrappers
  import opened PyStr
  import Dicts
  import opened JsonValue
  import opened Nodes
  import opened RuleCommon

  // ---------------------------------------------------------------------
  // ExampleNameLengthRule.

  const DefaultMinLength := 3

  /** `target_node_types or {NodeType.COMPONENT}`: no set, or an empty one, means components. */
  function NameTargets(targets: Option<set<NodeType>>): (r: set<NodeType>)
    ensures r != {}
    ensures targets.Some? && targets.value != {} ==> r == targets.value
    ensures targets.None? ==> r == {ComponentType}
  {
    if targets.Some? && targets.value != {} then targets.value else {ComponentType}
  }

  function NameLengthMessage(min: int): string {
    "Component names must be at least " + IntToString(min) + " characters long"
  }

  /** `path.split('.')[-1]`: the text after the last dot. */
  function LastSegment(path: string): string {
    AfterLast(path, ".")
  }

  /** The name is the last piece of the split, holds no dot and ends the path. */
  lemma LastSegmentSpec(path: string)
    ensures Split(path, ".")[|Split(path, ".")| - 1] == LastSegment(path)
    ensures !Contains(LastSegment(path), ".") && EndsWith(path, LastSegment(path))
  {
    SplitLast(path, ".");
    AfterLastFree(path, ".");
  }

  /** A component placed under a parent path is named by its own segment. */
  lemma LastSegmentOfChild(parent: string, name: string)
    requires !Contains(name, ".")
    ensures LastSegment(parent + "." + name) == name
  {
    AfterLastConcat(parent, ".", name);
    AfterLastSpec(name, ".");
  }

  function TooShort(path: string, name: string, min: int): string {
    path + ": Component name '" + name + "' is too short (minimum " + IntToString(min) + " characters)"
  }

  /** What a visit appends: only components are visited, and only a short name is reported. */
  function NameLengthErrors(min: int, n: Node): (r: seq<string>)
    ensures |r| <= 1
    ensures r != [] <==> n.Component? && |LastSegment(n.path)| < min
  {
    if n.Component? && |LastSegment(n.path)| < min then [TooShort(n.path, LastSegment(n.path), min)] else []
  }

  /** The errors of visiting `nodes` in order. */
  function NameLengthAppended(min: int, nodes: seq<Node>): seq<string> {
    Appended((n: Node) => NameLengthErrors(min, n), nodes)
  }

  lemma NameLengthAppendedSnoc(min: int, nodes: seq<Node>, k: nat)
    requires k < |nodes|
    ensures NameLengthAppended(min, nodes[..k + 1]) == NameLengthAppended(min, nodes[..k]) + NameLengthErrors(min, nodes[k])
  {
    AppendedSnoc((n: Node) => NameLengthErrors(min, n), nodes, k);
  }

  /** The errors of `process_nodes` with target set `targets`. */
  function NameLengthReport(min: int, targets: set<NodeType>, nodes: seq<Node>): seq<string> {
    NameLengthAppended(min, FilterByTypes(nodes, targets))
  }

  /**
   * With components among the targets, an error is reported exactly for
   * each component whose last path segment is shorter than the minimum,
   * and at most one per node.
   */
  lemma NameLengthReportSpec(min: int, targets: set<NodeType>, nodes: seq<Node>)
    requires ComponentType in targets
    ensures |NameLengthReport(min, targets, nodes)| <= |nodes|
    ensures forall m :: m in NameLengthReport(min, targets, nodes) <==>
      exists k :: 0 <= k < |nodes| && nodes[k].Component? && |LastSegment(nodes[k].path)| < min
        && m == TooShort(nodes[k].path, LastSegment(nodes[k].path), min)
  {
    var f := (n: Node) => NameLengthErrors(min, n);
    AppendedFilter(f, nodes, targets);
    AppendedSpec(f, nodes);
  }

  /** Targets that leave components out give no error at all. */
  lemma NameLengthWithoutComponents(min: int, targets: set<NodeType>, nodes: seq<Node>)
    requires targets != {} && ComponentType !in targets
    ensures NameLengthReport(min, targets, nodes) == []
  {
    var f := (n: Node) => NameLengthErrors(min, n);
    var kept := FilterByTypes(nodes, targets);
    FilterByTypesMembers(nodes, targets);
    forall k | 0 <= k < |kept| ensures f(kept[k]) == [] {
      assert kept[k] in kept;
    }
    AppendedNothing(f, kept);
  }

  class ExampleNameLengthRule {
    const targets: set<NodeType>
    const minLength: int
    var errors: seq<string>

    constructor(minLength: int, targets: Option<set<NodeType>>)
      ensures this.targets == NameTargets(targets) && this.minLength == minLength
      ensures errors == []
    {
      this.targets := NameTargets(targets);
      this.minLength := minLength;
      errors := [];
    }

    function ErrorMessage(): string {
      NameLengthMessage(minLength)
    }

    /** `visit_component` */
    method VisitComponent(n: Node)
      requires n.Component?
      modifies this
      ensures errors == old(errors) + NameLengthErrors(minLength, n)
    {
      var parts := Split(n.path, ".");
      LastSegmentSpec(n.path);
      var name := parts[|parts| - 1];
      assert name == LastSegment(n.path);
      var added := if |name| < minLength then [TooShort(n.path, name, minLength)] else [];
      errors := errors + added;
    }

    /** `node.accept(self)`: every other visit is the do-nothing default. */
    method Accept(n: Node)
      modifies this
      ensures errors == old(errors) + NameLengthErrors(minLength, n)
    {
      if n.Component? {
        VisitComponent(n);
      }
    }

    method ProcessNodes(nodes: seq<Node>)
      modifies this
      ensures errors == NameLengthReport(minLength, targets, nodes)
    {
      errors := [];
      var applicable := FilterByTypes(nodes, targets);
      var k := 0;
      while k < |applicable|
        invariant 0 <= k <= |applicable|
        invariant errors == NameLengthAppended(minLength, applicable[..k])
      {
        NameLengthAppendedSnoc(minLength, applicable, k);
        Accept(applicable[k]);
        k := k + 1;
      }
      assert applicable[..k] == applicable;
    }
  }

  // ---------------------------------------------------------------------
  // int() on text, and preprocess_config.

  /**
   * Python `int(s)` in base 10: surrounding whitespace is dropped, one
   * optional sign, then one or more ASCII digits.
   */
  function PyInt(s: string): (r: Result<int>)
    ensures r.Err? ==> r.error == "ValueError: invalid literal for int() with base 10: '" + s + "'"
  {
    var t := Strip(s);
    var signed := |t| > 0 && (t[0] == '-' || t[0] == '+');
    var ds := if signed then t[1..] else t;
    if ds != [] && AllDigits(ds) then
      var v: int := DigitsValue(ds);
      Ok(if signed && t[0] == '-' then -v else v)
    else
      Err("ValueError: invalid literal for int() with base 10: '" + s + "'")
  }

  /** `int(str(n)) == n` */
  lemma PyIntOfIntToString(n: int)
    ensures PyInt(IntToString(n)) == Ok(n)
  {
    var t := IntToString(n);
    var m := if n >= 0 then n else -n;
    var ds := NatToString(m);
    assert IsDigit(ds[0]) && IsDigit(ds[|ds| - 1]);
    assert !IsSpace(t[0]) && !IsSpace(t[|t| - 1]);
    assert Strip(t) == t;
    DigitsValueOfNatToString(m);
    if n < 0 {
      assert t[1..] == ds;
    }
  }

  /** Text that is not a number after stripping is refused. */
  lemma PyIntRefuses(s: string)
    requires !exists i :: 0 <= i < |s| && IsDigit(s[i])
    ensures PyInt(s).Err?
  {
    var t := Strip(s);
    StripInside(s);
    if |t| > 1 {
      assert t[1] in t;
    } else if |t| == 1 {
      assert t[0] in t;
    }
  }

  /** Everything `Strip` keeps comes from its argument. */
  lemma {:induction false} StripInside(s: string)
    ensures forall c :: c in Strip(s) ==> c in s
    decreases |s|
  {
    if |s| > 0 && IsSpace(s[0]) {
      StripInside(s[1..]);
    } else if |s| > 0 && IsSpace(s[|s| - 1]) {
      StripInside(s[..|s| - 1]);
    }
  }

  const WarningKey := "warning_threshold"
  const ErrorKey := "error_threshold"

  /** One of the two conversions: a text value under `key` is replaced by its `int()`. */
  function ConvertThreshold(config: Dicts.Dict<Json>, key: string): Result<Dicts.Dict<Json>> {
    var g: Option<Json> := Dicts.Get(config, key);
    match g
    case Some(JString(s)) =>
      (match PyInt(s)
       case Ok(n) => Ok(Dicts.Put(config, key, JInt(n)))
       case Err(e) => Err(e))
    case _ => Ok(config)
  }

  /** `ExampleBindingCountRule.preprocess_config` on a copy of the configuration. */
  function PreprocessConfig(config: Dicts.Dict<Json>): Result<Dicts.Dict<Json>> {
    match ConvertThreshold(config, WarningKey)
    case Err(e) => Err(e)
    case Ok(c) => ConvertThreshold(c, ErrorKey)
  }

  /** The conversion keeps every key in place and changes only the value under `key`. */
  lemma ConvertThresholdSpec(config: Dicts.Dict<Json>, key: string)
    requires Dicts.Distinct(config)
    ensures var r := ConvertThreshold(config, key);
      r.Ok? ==> (Dicts.Distinct(r.value) && Dicts.DictKeys(r.value) == Dicts.DictKeys(config)
        && (forall k :: k != key ==> Dicts.Get(r.value, k) == Dicts.Get(config, k))
        && (Dicts.Get(config, key).Some? && Dicts.Get(config, key).value.JString? ==>
              Dicts.Get(r.value, key) == Some(JInt(PyInt(Dicts.Get(config, key).value.s).value)))
        && (Dicts.Get(config, key).None? || !Dicts.Get(config, key).value.JString? ==> r.value == config))
    ensures ConvertThreshold(config, key).Err? <==>
      Dicts.Get(config, key).Some? && Dicts.Get(config, key).value.JString? && PyInt(Dicts.Get(config, key).value.s).Err?
  {
    var g := Dicts.Get(config, key);
    if g.Some? && g.value.JString? && PyInt(g.value.s).Ok? {
      var r := Dicts.Put(config, key, JInt(PyInt(g.value.s).value));
      Dicts.PutGet(config, key, JInt(PyInt(g.value.s).value));
      assert Dicts.DictKeys(r) == Dicts.DictKeys(config);
    }
  }

  /**
   * `preprocess_config` fails exactly when a threshold given as text is not
   * a number; otherwise both thresholds given as text become integers and
   * every other entry, and the order of the keys, is kept.
   */
  lemma PreprocessConfigSpec(config: Dicts.Dict<Json>)
    requires Dicts.Distinct(config)
    ensures var r := PreprocessConfig(config);
      r.Ok? ==> (Dicts.DictKeys(r.value) == Dicts.DictKeys(config)
        && (forall k :: k != WarningKey && k != ErrorKey ==> Dicts.Get(r.value, k) == Dicts.Get(config, k))
        && (forall k :: (k == WarningKey || k == ErrorKey) && Dicts.Get(r.value, k).Some? ==> !Dicts.Get(r.value, k).value.JString?))
    ensures PreprocessConfig(config).Err? <==>
      (Dicts.Get(config, WarningKey).Some? && Dicts.Get(config, WarningKey).value.JString? && PyInt(Dicts.Get(config, WarningKey).value.s).Err?)
      || (Dicts.Get(config, ErrorKey).Some? && Dicts.Get(config, ErrorKey).value.JString? && PyInt(Dicts.Get(config, ErrorKey).value.s).Err?)
  {
    ConvertThresholdSpec(config, WarningKey);
    var c := ConvertThreshold(config, WarningKey);
    if c.Ok? {
      ConvertThresholdSpec(c.value, ErrorKey);
      var r := ConvertThreshold(c.value, ErrorKey);
      assert Dicts.Get(c.value, ErrorKey) == Dicts.Get(config, ErrorKey);
      if r.Ok? {
        forall k | (k == WarningKey || k == ErrorKey) && Dicts.Get(r.value, k).Some?
          ensures !Dicts.Get(r.value, k).value.JString?
        {
          if k == WarningKey {
            assert Dicts.Get(r.value, k) == Dicts.Get(c.value, k);
          }
        }
      }
    }
  }

  /** Preprocessing an already preprocessed configuration changes nothing. */
  lemma PreprocessConfigIdempotent(config: Dicts.Dict<Json>)
    requires Dicts.Distinct(config) && PreprocessConfig(config).Ok?
    ensures PreprocessConfig(PreprocessConfig(config).value) == PreprocessConfig(config)
  {
    PreprocessConfigSpec(config);
    var r := PreprocessConfig(config).value;
    ConvertThresholdSpec(config, WarningKey);
    ConvertThresholdSpec(ConvertThreshold(config, WarningKey).value, ErrorKey);
    ConvertThresholdSpec(r, WarningKey);
  }

  // ---------------------------------------------------------------------
  // ExampleBindingCountRule.

  const DefaultWarningThreshold := 5
  const DefaultErrorThreshold := 10

  /** `{NodeType.COMPONENT} | ALL_BINDINGS` */
  const CountTargets: set<NodeType> := {ComponentType} + AllBindings

  function CountMessage(e: int): string {
    "Components should not have more than " + IntToString(e) + " bindings"
  }

  /**
   * The search of `_count_binding` from `i = top` down to 1: the first
   * `'.'.join(parts[:i])` that is a key of the counts.
   */
  function OwnerSearch(counts: Dicts.Dict<int>, parts: seq<string>, top: int): (r: Option<string>)
    requires top < |parts|
    ensures r.Some? ==> Dicts.HasKey(counts, r.value)
    decreases top
  {
    if top < 1 then None
    else if Dicts.HasKey(counts, Join(".", parts[..top])) then Some(Join(".", parts[..top]))
    else OwnerSearch(counts, parts, top - 1)
  }

  /** The search finds the longest such prefix, and finds none only when there is none. */
  lemma {:induction false} OwnerSearchSpec(counts: Dicts.Dict<int>, parts: seq<string>, top: int)
    requires top < |parts|
    ensures var r := OwnerSearch(counts, parts, top);
      r.Some? ==> exists j :: (1 <= j <= top && r.value == Join(".", parts[..j])
        && forall i :: j < i <= top ==> !Dicts.HasKey(counts, Join(".", parts[..i])))
    ensures OwnerSearch(counts, parts, top).None? ==>
      forall i :: 1 <= i <= top ==> !Dicts.HasKey(counts, Join(".", parts[..i]))
    decreases top
  {
    if top >= 1 && !Dicts.HasKey(counts, Join(".", parts[..top])) {
      OwnerSearchSpec(counts, parts, top - 1);
    }
  }

  /** The enclosing component of a binding at `path`: the longest proper dotted prefix that is counted. */
  function Owner(counts: Dicts.Dict<int>, path: string): Option<string> {
    var parts := Split(path, ".");
    OwnerSearch(counts, parts, |parts| - 1)
  }

  /** `counts[k] += 1` */
  function Increment(counts: Dicts.Dict<int>, k: string): Dicts.Dict<int>
    requires Dicts.HasKey(counts, k)
  {
    Dicts.Put(counts, k, Dicts.Get(counts, k).value + 1)
  }

  /** `_count_binding`: one more for the owner; an owner `""` is falsy and is left alone. */
  function CountBinding(counts: Dicts.Dict<int>, path: string): Dicts.Dict<int> {
    var o := Owner(counts, path);
    if o.Some? && o.value != "" then Increment(counts, o.value) else counts
  }

  /** What one visit does to `component_bindings`. */
  function CountVisit(counts: Dicts.Dict<int>, n: Node): Dicts.Dict<int> {
    match n
    case Component(path, _, _) => Dicts.Put(counts, path, 0)
    case ExpressionBinding(path, _) => CountBinding(counts, path)
    case PropertyBinding(path, _) => CountBinding(counts, path)
    case TagBinding(path, _, _, _) => CountBinding(counts, path)
    case _ => counts
  }

  /** Incrementing keeps the keys in place and changes only the one count. */
  lemma IncrementSpec(counts: Dicts.Dict<int>, k: string)
    requires Dicts.Distinct(counts) && Dicts.HasKey(counts, k)
    ensures Dicts.Distinct(Increment(counts, k)) && Dicts.DictKeys(Increment(counts, k)) == Dicts.DictKeys(counts)
    ensures forall k' :: k' != k ==> Dicts.Get(Increment(counts, k), k') == Dicts.Get(counts, k')
    ensures Dicts.Get(Increment(counts, k), k) == Some(Dicts.Get(counts, k).value + 1)
  {
    var r := Increment(counts, k);
    Dicts.PutGet(counts, k, Dicts.Get(counts, k).value + 1);
    assert Dicts.DictKeys(r) == Dicts.DictKeys(counts);
  }

  /** A counted binding adds one to its owner and leaves every other count and every key alone. */
  lemma CountBindingSpec(counts: Dicts.Dict<int>, path: string)
    requires Dicts.Distinct(counts)
    ensures var r := CountBinding(counts, path);
      Dicts.Distinct(r) && Dicts.DictKeys(r) == Dicts.DictKeys(counts)
    ensures var o := Owner(counts, path);
      forall k :: (o.None? || o.value == "" || k != o.value) ==> Dicts.Get(CountBinding(counts, path), k) == Dicts.Get(counts, k)
    ensures var o := Owner(counts, path);
      o.Some? && o.value != "" ==> Dicts.Get(CountBinding(counts, path), o.value) == Some(Dicts.Get(counts, o.value).value + 1)
  {
    var o := Owner(counts, path);
    if o.Some? && o.value != "" {
      IncrementSpec(counts, o.value);
    }
  }

  /** A visit keeps the keys of `component_bindings` distinct. */
  lemma CountVisitDistinct(counts: Dicts.Dict<int>, n: Node)
    requires Dicts.Distinct(counts)
    ensures Dicts.Distinct(CountVisit(counts, n))
  {
    if n.Component? {
      Dicts.PutGet(counts, n.path, 0);
    } else {
      CountBindingSpec(counts, n.path);
    }
  }

  /** From the last candidate `bottom` up to `top` only `bottom` is counted: it is the owner found. */
  lemma {:induction false} OwnerSearchAt(counts: Dicts.Dict<int>, parts: seq<string>, top: int, bottom: int)
    requires 1 <= bottom <= top < |parts|
    requires Dicts.HasKey(counts, Join(".", parts[..bottom]))
    requires forall i :: bottom < i <= top ==> !Dicts.HasKey(counts, Join(".", parts[..i]))
    ensures OwnerSearch(counts, parts, top) == Some(Join(".", parts[..bottom]))
    decreases top
  {
    if top > bottom {
      OwnerSearchAt(counts, parts, top - 1, bottom);
    }
  }

  /**
   * A binding at `p.rest` counts for the component at `p` when no longer
   * dotted prefix of `rest` names another counted component below `p`.
   */
  lemma ChildBindingOwner(counts: Dicts.Dict<int>, p: string, rest: string)
    requires Dicts.HasKey(counts, p)
    requires forall j :: 1 <= j < |Split(rest, ".")| ==> !Dicts.HasKey(counts, p + "." + Join(".", Split(rest, ".")[..j]))
    ensures Owner(counts, p + "." + rest) == Some(p)
  {
    var path := p + "." + rest;
    var parts := Split(path, ".");
    SplitConcat(p, ".", rest);
    JoinSplit(p, ".");
    OwnerOfParts(counts, parts, Split(p, "."), Split(rest, "."));
    OwnerBySplit(counts, path, parts);
  }

  lemma OwnerBySplit(counts: Dicts.Dict<int>, path: string, parts: seq<string>)
    requires parts == Split(path, ".")
    ensures Owner(counts, path) == OwnerSearch(counts, parts, |parts| - 1)
  {
  }

  /** `ChildBindingOwner` on the pieces: the parent's pieces followed by the child's. */
  lemma OwnerOfParts(counts: Dicts.Dict<int>, parts: seq<string>, ps: seq<string>, rs: seq<string>)
    requires parts == ps + rs && ps != [] && rs != [] && Dicts.HasKey(counts, Join(".", ps))
    requires forall j :: 1 <= j < |rs| ==> !Dicts.HasKey(counts, Join(".", ps) + "." + Join(".", rs[..j]))
    ensures OwnerSearch(counts, parts, |parts| - 1) == Some(Join(".", ps))
  {
    PastParentUncounted(counts, parts, ps, rs);
    PrefixOfConcat(parts, ps, rs, |ps|);
    assert rs[..0] == [];
    OwnerSearchAt(counts, parts, |parts| - 1, |ps|);
  }

  /** The candidates longer than the parent's pieces are no keys. */
  lemma PastParentUncounted(counts: Dicts.Dict<int>, parts: seq<string>, ps: seq<string>, rs: seq<string>)
    requires parts == ps + rs && ps != []
    requires forall j :: 1 <= j < |rs| ==> !Dicts.HasKey(counts, Join(".", ps) + "." + Join(".", rs[..j]))
    ensures forall i :: |ps| < i <= |parts| - 1 ==> !Dicts.HasKey(counts, Join(".", parts[..i]))
  {
    forall i | |ps| < i <= |parts| - 1 ensures !Dicts.HasKey(counts, Join(".", parts[..i])) {
      JoinOfLongerPrefix(parts, ps, rs, i);
    }
  }

  /** Joining a prefix that goes past `ps` into `rs`. */
  lemma JoinOfLongerPrefix(parts: seq<string>, ps: seq<string>, rs: seq<string>, i: int)
    requires parts == ps + rs && ps != [] && |ps| < i <= |parts|
    ensures Join(".", parts[..i]) == Join(".", ps) + "." + Join(".", rs[..i - |ps|])
  {
    var q := rs[..i - |ps|];
    PrefixOfConcat(parts, ps, rs, i);
    JoinConcat(".", ps, q);
  }

  lemma PrefixOfConcat<T>(parts: seq<T>, ps: seq<T>, rs: seq<T>, i: int)
    requires parts == ps + rs && |ps| <= i <= |parts|
    ensures parts[..i] == ps + rs[..i - |ps|]
  {
  }

  /** So a binding directly below a counted component adds one to that component's count. */
  lemma ChildBindingCounted(counts: Dicts.Dict<int>, p: string, rest: string)
    requires Dicts.Distinct(counts) && Dicts.HasKey(counts, p) && p != ""
    requires forall j :: 1 <= j < |Split(rest, ".")| ==> !Dicts.HasKey(counts, p + "." + Join(".", Split(rest, ".")[..j]))
    ensures Dicts.Get(CountBinding(counts, p + "." + rest), p) == Some(Dicts.Get(counts, p).value + 1)
  {
    ChildBindingOwner(counts, p, rest);
    CountBindingSpec(counts, p + "." + rest);
  }

  function ExceedsError(path: string, c: int, e: int): string {
    path + ": Component '" + LastSegment(path) + "' has " + IntToString(c)
      + " bindings (exceeds error threshold of " + IntToString(e) + ")"
  }

  function ExceedsWarning(path: string, c: int, w: int): string {
    path + ": WARNING - Component '" + LastSegment(path) + "' has " + IntToString(c)
      + " bindings (exceeds warning threshold of " + IntToString(w) + ")"
  }

  /** What `post_process` appends for one entry of `component_bindings`. */
  function CountReport(w: int, e: int, entry: (string, int)): (r: seq<string>)
    ensures |r| <= 1
  {
    if entry.1 >= e then [ExceedsError(entry.0, entry.1, e)]
    else if entry.1 >= w then [ExceedsWarning(entry.0, entry.1, w)]
    else []
  }

  /** What `post_process` appends, entry by entry. */
  function CountReports(w: int, e: int, counts: Dicts.Dict<int>): seq<string> {
    Appended((entry: (string, int)) => CountReport(w, e, entry), counts)
  }

  lemma CountReportsSnoc(w: int, e: int, counts: Dicts.Dict<int>, k: nat)
    requires k < |counts|
    ensures CountReports(w, e, counts[..k + 1]) == CountReports(w, e, counts[..k]) + CountReport(w, e, counts[k])
  {
    AppendedSnoc((entry: (string, int)) => CountReport(w, e, entry), counts, k);
  }

  /**
   * One line per component at or over a threshold: an error from the error
   * threshold up, a warning below it but from the warning threshold up.
   */
  lemma CountReportsSpec(w: int, e: int, counts: Dicts.Dict<int>)
    ensures |CountReports(w, e, counts)| <= |counts|
    ensures forall m :: m in CountReports(w, e, counts) <==>
      exists k :: 0 <= k < |counts| &&
        ((counts[k].1 >= e && m == ExceedsError(counts[k].0, counts[k].1, e))
         || (w <= counts[k].1 < e && m == ExceedsWarning(counts[k].0, counts[k].1, w)))
  {
    AppendedSpec((entry: (string, int)) => CountReport(w, e, entry), counts);
  }

  /** What the visits leave in `component_bindings`, starting from `counts`. */
  function Counted(counts: Dicts.Dict<int>, nodes: seq<Node>): Dicts.Dict<int> {
    Run(CountVisit, counts, nodes)
  }

  /** Visiting keeps the keys distinct. */
  lemma {:induction false} CountedDistinct(counts: Dicts.Dict<int>, nodes: seq<Node>)
    requires Dicts.Distinct(counts)
    ensures Dicts.Distinct(Counted(counts, nodes))
    decreases |nodes|
  {
    if nodes != [] {
      var n := |nodes| - 1;
      CountedDistinct(counts, nodes[..n]);
      RunSnoc(CountVisit, counts, nodes, n);
      assert nodes[..n + 1] == nodes;
      CountVisitDistinct(Counted(counts, nodes[..n]), nodes[n]);
    }
  }

  /** The filter of `process_nodes` drops only nodes whose visit changes nothing. */
  lemma CountedFilter(counts: Dicts.Dict<int>, nodes: seq<Node>)
    ensures Run(CountVisit, counts, FilterByTypes(nodes, CountTargets)) == Counted(counts, nodes)
  {
    forall s: Dicts.Dict<int>, n: Node | !AppliesToRule(n, CountTargets) ensures CountVisit(s, n) == s {
      assert TypeOf(n) !in CountTargets;
    }
    RunFilter(CountVisit, counts, nodes, CountTargets);
  }

  class ExampleBindingCountRule {
    const targets: set<NodeType> := CountTargets
    const warningThreshold: int
    const errorThreshold: int
    var errors: seq<string>
    var componentBindings: Dicts.Dict<int>

    predicate Valid()
      reads this
    {
      Dicts.Distinct(componentBindings)
    }

    constructor(warningThreshold: int, errorThreshold: int)
      ensures Valid() && targets == CountTargets
      ensures this.warningThreshold == warningThreshold && this.errorThreshold == errorThreshold
      ensures errors == [] && componentBindings == []
    {
      this.warningThreshold := warningThreshold;
      this.errorThreshold := errorThreshold;
      errors := [];
      componentBindings := [];
    }

    function ErrorMessage(): string {
      CountMessage(errorThreshold)
    }

    /** `visit_component`: the component's count starts (again) at 0. */
    method VisitComponent(n: Node)
      requires Valid() && n.Component?
      modifies this
      ensures Valid() && errors == old(errors)
      ensures componentBindings == CountVisit(old(componentBindings), n)
    {
      CountVisitDistinct(componentBindings, n);
      componentBindings := Dicts.Put(componentBindings, n.path, 0);
    }

    /** `_count_binding` */
    method CountBindingAt(path: string)
      requires Valid()
      modifies this
      ensures Valid() && errors == old(errors)
      ensures componentBindings == CountBinding(old(componentBindings), path)
    {
      var parts := Split(path, ".");
      var owner: Option<string> := None;
      var i := |parts| - 1;
      while i > 0
        invariant 0 <= i <= |parts| - 1
        invariant OwnerSearch(componentBindings, parts, |parts| - 1) == OwnerSearch(componentBindings, parts, i)
        decreases i
      {
        var potential := Join(".", parts[..i]);
        if Dicts.Find(componentBindings, potential) != -1 {
          owner := Some(potential);
          break;
        }
        i := i - 1;
      }
      assert owner == Owner(componentBindings, path);
      CountBindingSpec(componentBindings, path);
      if owner.Some? && owner.value != "" {
        var c := Dicts.Get(componentBindings, owner.value).value;
        componentBindings := Dicts.Put(componentBindings, owner.value, c + 1);
        assert componentBindings == Increment(old(componentBindings), owner.value);
      }
    }

    /** `node.accept(self)`: components and three binding kinds are visited, the rest is the default. */
    method Accept(n: Node)
      requires Valid()
      modifies this
      ensures Valid() && errors == old(errors)
      ensures componentBindings == CountVisit(old(componentBindings), n)
    {
      match n
      case Component(_, _, _) => VisitComponent(n);
      case ExpressionBinding(path, _) => CountBindingAt(path);
      case PropertyBinding(path, _) => CountBindingAt(path);
      case TagBinding(path, _, _, _) => CountBindingAt(path);
      case _ =>
    }

    /** `post_process` */
    method PostProcess()
      modifies this
      ensures componentBindings == old(componentBindings)
      ensures errors == old(errors) + CountReports(warningThreshold, errorThreshold, componentBindings)
    {
      var counts := componentBindings;
      var added: seq<string> := [];
      var k := 0;
      while k < |counts|
        invariant 0 <= k <= |counts|
        invariant added == CountReports(warningThreshold, errorThreshold, counts[..k])
        invariant componentBindings == counts && errors == old(errors)
      {
        var (path, c) := counts[k];
        CountReportsSnoc(warningThreshold, errorThreshold, counts, k);
        if c >= errorThreshold {
          added := added + [ExceedsError(path, c, errorThreshold)];
        } else if c >= warningThreshold {
          added := added + [ExceedsWarning(path, c, warningThreshold)];
        }
        k := k + 1;
      }
      assert counts[..k] == counts;
      errors := errors + added;
    }

    /**
     * `process_nodes`: the errors are reset but `component_bindings` is not,
     * so the counts of an earlier run are carried on and reported again.
     */
    method ProcessNodes(nodes: seq<Node>)
      requires Valid()
      modifies this
      ensures Valid()
      ensures componentBindings == Counted(old(componentBindings), nodes)
      ensures errors == CountReports(warningThreshold, errorThreshold, componentBindings)
    {
      errors := [];
      ghost var start := componentBindings;
      var applicable := FilterByTypes(nodes, targets);
      var k := 0;
      while k < |applicable|
        invariant 0 <= k <= |applicable|
        invariant Valid() && errors == []
        invariant componentBindings == Run(CountVisit, start, applicable[..k])
      {
        RunSnoc(CountVisit, start, applicable, k);
        Accept(applicable[k]);
        k := k + 1;
      }
      assert applicable[..k] == applicable;
      CountedFilter(start, nodes);
      PostProcess();
    }
  }
}
