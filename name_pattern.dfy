/**
 * `NamePatternRule` (src/ignition_lint/rules/name_pattern.py): the name of
 * each targeted node is checked against skip and forbidden sets, length
 * bounds and a naming pattern, all of which a per-node-type entry may
 * override; a pattern failure carries a suggested name for a predefined
 * convention, and every message is reported under the configured severity.
 */
module NamePattern {
  import opened Wrappers
  import opened PyStr
  import opened Nodes
  import opened NameConvention
  import RuleCommon

  // ---------------------------------------------------------------------
  // NamePatternConfig

  /** `NamePatternConfig` after `__post_init__`: list arguments arrive as sets. */
  datatype Config = Config(
    allowNumbers: bool,
    minLength: int,
    maxLength: Option<int>,
    forbiddenNames: Option<set<string>>,
    skipNames: Option<set<string>>,
    allowedAbbreviations: Option<set<string>>,
    autoDetectAbbreviations: bool,
    severity: string)

  /** Building a `NamePatternConfig`: any severity other than the two known ones is the `ValueError`. */
  function NewConfig(allowNumbers: bool, minLength: int, maxLength: Option<int>, forbiddenNames: Option<set<string>>,
                     skipNames: Option<set<string>>, allowedAbbreviations: Option<set<string>>,
                     autoDetectAbbreviations: bool, severity: string): (r: Result<Config>)
    ensures r.Ok? <==> severity == "warning" || severity == "error"
    ensures r.Ok? ==> r.value.severity == severity && r.value.minLength == minLength && r.value.maxLength == maxLength
    ensures r.Err? ==> r.error == "severity must be 'warning' or 'error', got '" + severity + "'"
  {
    if severity == "warning" || severity == "error" then
      Ok(Config(allowNumbers, minLength, maxLength, forbiddenNames, skipNames, allowedAbbreviations,
                autoDetectAbbreviations, severity))
    else Err("severity must be 'warning' or 'error', got '" + severity + "'")
  }

  /** The field defaults. */
  const DefaultConfig := Config(true, 1, None, None, None, None, true, "warning")

  lemma DefaultConfigValid()
    ensures NewConfig(true, 1, None, None, None, None, true, "warning") == Ok(DefaultConfig)
  {
  }

  /** `skip_names`: an absent or empty configured set means `{'root'}`. */
  function SkipNames(c: Config): (r: set<string>)
    ensures c.skipNames.None? || c.skipNames.value == {} ==> r == {"root"}
    ensures c.skipNames.Some? && c.skipNames.value != {} ==> r == c.skipNames.value
  {
    if c.skipNames.Some? && c.skipNames.value != {} then c.skipNames.value else {"root"}
  }

  /** `forbidden_names`: nothing is forbidden unless configured. */
  function ForbiddenNames(c: Config): (r: set<string>)
    ensures c.forbiddenNames.None? ==> r == {}
  {
    if c.forbiddenNames.Some? then c.forbiddenNames.value else {}
  }

  function AllowedAbbreviations(c: Config): (r: set<string>)
    ensures c.allowedAbbreviations.None? ==> r == {}
  {
    if c.allowedAbbreviations.Some? then c.allowedAbbreviations.value else {}
  }

  // `common_abbreviations`, row by row as the source writes it: 68 entries,
  // two of them ('iOS', 'macOS') with lower-case letters.
  const CommonRow1: set<string> := {"API", "HTTP", "HTTPS", "XML", "JSON", "SQL", "URL", "URI", "UUID", "CPU", "GPU", "RAM", "SSD"}
  const CommonRow2: set<string> := {"HDD", "PDF", "CSV", "ZIP", "GIF", "PNG", "JPG", "JPEG", "SVG", "CSS", "HTML", "JS", "TS"}
  const CommonRow3: set<string> := {"PHP", "ASP", "JSP", "CGI", "FTP", "SSH", "TCP", "UDP", "IP", "DNS", "DHCP", "VPN", "SSL"}
  const CommonRow4: set<string> := {"TLS", "JWT", "CRUD", "REST", "SOAP", "AJAX", "DOM", "UI", "UX", "GUI", "CLI", "OS", "iOS"}
  const CommonRow5: set<string> := {"macOS", "AWS", "GCP", "IBM", "AI", "ML", "NLP", "OCR", "QR", "RFID", "NFC", "GPS", "LED"}
  const CommonRow6: set<string> := {"LCD", "OLED", "CRT", "ID"}
  const CommonAbbreviations: set<string> := CommonRow1 + CommonRow2 + CommonRow3 + CommonRow4 + CommonRow5 + CommonRow6

  /** `all_abbreviations` */
  function AllAbbreviations(c: Config): (r: set<string>)
    ensures AllowedAbbreviations(c) <= r
    ensures !c.autoDetectAbbreviations ==> r == AllowedAbbreviations(c)
  {
    if c.autoDetectAbbreviations then AllowedAbbreviations(c) + CommonAbbreviations else AllowedAbbreviations(c)
  }

  lemma AllAbbreviationsSpec(c: Config)
    ensures forall a :: a in AllAbbreviations(c) <==> a in AllowedAbbreviations(c) || (c.autoDetectAbbreviations && a in CommonAbbreviations)
  {
  }

  // ---------------------------------------------------------------------
  // Patterns and per-node-type entries

  /** "Is the string truthy": present and non-empty. */
  predicate Truthy(s: Option<string>) {
    s.Some? && s.value != []
  }

  /** The predefined convention a convention setting names, if any. */
  function ConventionOf(s: Option<string>): (r: Option<Convention>)
    ensures r.Some? ==> s == Some(ConventionName(r.value))
  {
    if s.Some? then ParseConvention(s.value) else None
  }

  /**
   * `_setup_pattern`: a custom pattern wins; then a predefined convention,
   * whose `0-9` range goes when numbers are not allowed; otherwise the
   * PascalCase pattern as it stands, whatever `allow_numbers` says.
   */
  function SetupPattern(convention: Option<string>, customPattern: Option<string>, allowNumbers: bool): (r: (Pattern, string))
    ensures Truthy(customPattern) ==> r == (Custom(customPattern.value), "custom pattern: " + customPattern.value)
    ensures !Truthy(customPattern) && ConventionOf(convention).Some? ==>
      r == (Named(ConventionOf(convention).value, allowNumbers), Description(ConventionOf(convention).value))
    ensures !Truthy(customPattern) && ConventionOf(convention).None? ==> r == (Named(PascalCase, true), "PascalCase")
  {
    if Truthy(customPattern) then (Custom(customPattern.value), "custom pattern: " + customPattern.value)
    else if Truthy(convention) && ParseConvention(convention.value).Some? then
      var c := ParseConvention(convention.value).value;
      (Named(c, allowNumbers), Description(c))
    else (Named(PascalCase, true), "PascalCase")
  }

  /**
   * One entry of `node_type_specific_rules`: each field is `None` when the
   * entry has no such key. A key present with the value `null` is
   * `Some(None)`.
   */
  datatype Overrides = Overrides(
    skipNames: Option<set<string>>,
    forbiddenNames: Option<set<string>>,
    minLength: Option<int>,
    maxLength: Option<Option<int>>,
    pattern: Option<Pattern>,
    patternDescription: Option<string>,
    convention: Option<Option<string>>,
    customPattern: Option<Option<string>>,
    allowNumbers: Option<bool>)

  const NoOverrides := Overrides(None, None, None, None, None, None, None, None, None)

  /** `entry.get(key, default)` */
  function Lookup<T>(o: Option<T>, d: T): T {
    if o.Some? then o.value else d
  }

  /**
   * `_process_node_specific_rules` on one entry: a predefined convention
   * without a pattern gets its pattern (and its description unless one is
   * given), honouring the entry's own `allow_numbers`.
   */
  function Completed(o: Overrides, allowNumbers: bool): (r: Overrides) {
    if o.convention.Some? && o.pattern.None? && ConventionOf(o.convention.value).Some? then
      var c := ConventionOf(o.convention.value).value;
      o.(pattern := Some(Named(c, Lookup(o.allowNumbers, allowNumbers))),
         patternDescription := Some(Lookup(o.patternDescription, Description(c))))
    else o
  }

  /** Completion only fills in the pattern and its description, and doing it twice changes nothing. */
  lemma CompletedSpec(o: Overrides, allowNumbers: bool)
    ensures Completed(Completed(o, allowNumbers), allowNumbers) == Completed(o, allowNumbers)
    ensures Completed(o, allowNumbers) == o.(pattern := Completed(o, allowNumbers).pattern,
                                              patternDescription := Completed(o, allowNumbers).patternDescription)
    ensures o.pattern.Some? ==> Completed(o, allowNumbers) == o
    ensures o.patternDescription.Some? ==> Completed(o, allowNumbers).patternDescription == o.patternDescription
    ensures o.pattern.None? && o.convention.Some? && ConventionOf(o.convention.value).Some? ==>
      Completed(o, allowNumbers).pattern == Some(Named(ConventionOf(o.convention.value).value, Lookup(o.allowNumbers, allowNumbers)))
  {
  }

  function CompletedRules(rules: map<NodeType, Overrides>, allowNumbers: bool): (r: map<NodeType, Overrides>)
    ensures r.Keys == rules.Keys
  {
    map t | t in rules :: Completed(rules[t], allowNumbers)
  }

  /** Everything a rule instance decides by after construction. */
  datatype Settings = Settings(
    config: Config,
    convention: Option<string>,
    customPattern: Option<string>,
    pattern: Pattern,
    patternDescription: string,
    rules: map<NodeType, Overrides>,
    abbreviations: set<string>,
    order: seq<string>,
    extractors: map<NodeType, Node -> Option<string>>,
    regex: (string, string) -> bool)

  /** The entry of a node type; a type without one overrides nothing. */
  function EntryFor(st: Settings, t: NodeType): (o: Overrides)
    ensures t !in st.rules ==> o == NoOverrides
  {
    if t in st.rules then st.rules[t] else NoOverrides
  }

  // `_get_node_specific_config` for each key.
  function SkipFor(st: Settings, t: NodeType): set<string> { Lookup(EntryFor(st, t).skipNames, SkipNames(st.config)) }
  function ForbiddenFor(st: Settings, t: NodeType): set<string> { Lookup(EntryFor(st, t).forbiddenNames, ForbiddenNames(st.config)) }
  function MinLengthFor(st: Settings, t: NodeType): int { Lookup(EntryFor(st, t).minLength, st.config.minLength) }
  function MaxLengthFor(st: Settings, t: NodeType): Option<int> { Lookup(EntryFor(st, t).maxLength, st.config.maxLength) }
  function PatternFor(st: Settings, t: NodeType): Pattern { Lookup(EntryFor(st, t).pattern, st.pattern) }
  function DescriptionFor(st: Settings, t: NodeType): string { Lookup(EntryFor(st, t).patternDescription, st.patternDescription) }
  function ConventionFor(st: Settings, t: NodeType): Option<string> { Lookup(EntryFor(st, t).convention, st.convention) }
  function CustomFor(st: Settings, t: NodeType): Option<string> { Lookup(EntryFor(st, t).customPattern, st.customPattern) }

  /** `re.match(pattern, s)`: a predefined pattern by its scanner; any other through the abstract engine. */
  predicate Conforms(st: Settings, p: Pattern, s: string) {
    match p
    case Named(c, numbers) => Matches(c, numbers, s)
    case Custom(source) => st.regex(source, s)
  }

  /** `_process_abbreviations` */
  function ProcessedName(st: Settings, t: NodeType, name: string): string {
    if st.abbreviations == {} || Truthy(CustomFor(st, t)) then name
    else Processed(ConventionOf(ConventionFor(st, t)), name, st.order)
  }

  /** `_suggest_name` */
  function Suggestion(st: Settings, t: NodeType, name: string): (r: Option<string>)
    ensures r.Some? <==> ConventionOf(ConventionFor(st, t)).Some?
  {
    var c := ConventionOf(ConventionFor(st, t));
    if c.None? then None else Some(Suggest(c.value, st.abbreviations, name))
  }

  // ---------------------------------------------------------------------
  // _validate_name

  /** `f"Name '{name}' {rest}"`: every message of the rule has this form. */
  function Msg(name: string, rest: string): string {
    ("Name '" + name + "' ") + rest
  }

  /** The checks before the pattern: `Some(messages)` when one of them decides. */
  function Screen(st: Settings, t: NodeType, name: string): Option<seq<string>> {
    if name in SkipFor(st, t) then Some([])
    else if name in ForbiddenFor(st, t) then Some([Msg(name, "is forbidden for " + TypeValue(t))])
    else if |name| < MinLengthFor(st, t) then
      Some([Msg(name, "is too short (minimum " + IntToString(MinLengthFor(st, t)) + " characters) for " + TypeValue(t))])
    else if MaxLengthFor(st, t).Some? && MaxLengthFor(st, t).value != 0 && |name| > MaxLengthFor(st, t).value then
      Some([Msg(name, "is too long (maximum " + IntToString(MaxLengthFor(st, t).value) + " characters) for " + TypeValue(t))])
    else None
  }

  /** The ` (suggestion: '...')` tail, for a non-empty suggestion only. */
  function SuggestionSuffix(s: Option<string>): string {
    if s.Some? && s.value != [] then " (suggestion: '" + s.value + "')" else ""
  }

  /** The pattern message. */
  function PatternMessage(st: Settings, t: NodeType, name: string): string {
    Msg(name, "doesn't follow " + DescriptionFor(st, t) + " for " + TypeValue(t) + SuggestionSuffix(Suggestion(st, t, name)))
  }

  /** `_validate_name` as written: only the processed name is matched. */
  function NameErrorsAsWritten(st: Settings, t: NodeType, name: string): seq<string> {
    var s := Screen(st, t, name);
    if s.Some? then s.value
    else if !Conforms(st, PatternFor(st, t), ProcessedName(st, t, name)) then [PatternMessage(st, t, name)]
    else []
  }

  /**
   * `_validate_name` as evidently intended: abbreviation processing may
   * rescue a name, never condemn one that already follows the pattern.
   */
  function NameErrors(st: Settings, t: NodeType, name: string): seq<string> {
    var s := Screen(st, t, name);
    if s.Some? then s.value
    else if !Conforms(st, PatternFor(st, t), name) && !Conforms(st, PatternFor(st, t), ProcessedName(st, t, name)) then
      [PatternMessage(st, t, name)]
    else []
  }

  /**
   * At most one message, in the order skip, forbidden, too short, too long
   * (only for a truthy maximum), pattern.
   */
  lemma NameErrorsOrder(st: Settings, t: NodeType, name: string)
    ensures |NameErrors(st, t, name)| <= 1
    ensures name in SkipFor(st, t) ==> NameErrors(st, t, name) == []
    ensures name !in SkipFor(st, t) && name in ForbiddenFor(st, t) ==>
      NameErrors(st, t, name) == [Msg(name, "is forbidden for " + TypeValue(t))]
    ensures name !in SkipFor(st, t) && name !in ForbiddenFor(st, t) && |name| < MinLengthFor(st, t) ==>
      |NameErrors(st, t, name)| == 1
    ensures (MaxLengthFor(st, t).None? || MaxLengthFor(st, t).value == 0) && Screen(st, t, name).Some? ==>
      name in SkipFor(st, t) || name in ForbiddenFor(st, t) || |name| < MinLengthFor(st, t)
  {
  }

  lemma StartsWithJoin(p: string, rest: string)
    ensures StartsWith(p + rest, p)
  {
    assert (p + rest)[..|p|] == p;
  }

  /** Every message begins with the name it is about. */
  lemma NameErrorsNamed(st: Settings, t: NodeType, name: string)
    ensures forall e :: e in NameErrors(st, t, name) ==> StartsWith(e, "Name '" + name + "' ")
  {
    MsgStarts(name);
  }

  lemma MsgStarts(name: string)
    ensures forall rest {:trigger Msg(name, rest)} :: StartsWith(Msg(name, rest), "Name '" + name + "' ")
  {
    forall rest ensures StartsWith(Msg(name, rest), "Name '" + name + "' ") {
      StartsWithJoin("Name '" + name + "' ", rest);
    }
  }

  /** With the default configuration and no entry for its type, 'root' is never reported. */
  lemma RootSkippedByDefault(st: Settings, t: NodeType)
    requires st.config.skipNames.None? && t !in st.rules
    ensures NameErrors(st, t, "root") == [] && NameErrorsAsWritten(st, t, "root") == []
  {
  }

  /** A type without an entry is checked with the rule's own settings. */
  lemma FallbackWithoutEntry(st: Settings, t: NodeType)
    requires t !in st.rules
    ensures SkipFor(st, t) == SkipNames(st.config) && ForbiddenFor(st, t) == ForbiddenNames(st.config)
    ensures MinLengthFor(st, t) == st.config.minLength && MaxLengthFor(st, t) == st.config.maxLength
    ensures PatternFor(st, t) == st.pattern && DescriptionFor(st, t) == st.patternDescription
    ensures ConventionFor(st, t) == st.convention && CustomFor(st, t) == st.customPattern
  {
  }

  /** An entry for one node type changes nothing for any other type. */
  lemma EntriesAreLocal(st: Settings, t: NodeType, u: NodeType, o: Overrides)
    requires t != u
    ensures EntryFor(st.(rules := st.rules[u := o]), t) == EntryFor(st, t)
    ensures EntryFor(st.(rules := st.rules[u := o]), u) == o
  {
  }

  /** A name that follows the pattern is never reported by the pattern check. */
  lemma ConformingAccepted(st: Settings, t: NodeType, name: string)
    requires Screen(st, t, name).None? && Conforms(st, PatternFor(st, t), name)
    ensures NameErrors(st, t, name) == []
  {
  }

  /**
   * The corrected check drops exactly the reports of names that follow the
   * pattern while their processed form does not.
   */
  lemma CorrectionOnlyDrops(st: Settings, t: NodeType, name: string)
    ensures NameErrors(st, t, name) != [] ==> NameErrorsAsWritten(st, t, name) == NameErrors(st, t, name)
    ensures NameErrors(st, t, name) != NameErrorsAsWritten(st, t, name) <==>
      Screen(st, t, name).None? && Conforms(st, PatternFor(st, t), name)
      && !Conforms(st, PatternFor(st, t), ProcessedName(st, t, name))
  {
  }

  /** Without a predefined convention the pattern message carries no suggestion. */
  lemma NoSuggestionWithoutConvention(st: Settings, t: NodeType, name: string)
    requires ConventionOf(ConventionFor(st, t)).None?
    ensures PatternMessage(st, t, name) == Msg(name, "doesn't follow " + DescriptionFor(st, t) + " for " + TypeValue(t))
  {
    var rest := "doesn't follow " + DescriptionFor(st, t) + " for " + TypeValue(t);
    assert rest + "" == rest;
  }

  /** Under a predefined convention the message carries the conversion of the name, when it is not empty. */
  lemma SuggestionOfConvention(st: Settings, t: NodeType, name: string, c: Convention)
    requires ConventionOf(ConventionFor(st, t)) == Some(c) && Suggest(c, st.abbreviations, name) != []
    ensures PatternMessage(st, t, name) == Msg(name, "doesn't follow " + DescriptionFor(st, t) + " for " + TypeValue(t)
      + " (suggestion: '" + Suggest(c, st.abbreviations, name) + "')")
  {
  }

  lemma LowerKeepsDigits(a: string, b: string)
    requires Lower(a) == Lower(b)
    ensures NoDigits(a) <==> NoDigits(b)
  {
    assert |a| == |b|;
    forall i | 0 <= i < |a| ensures IsDigit(a[i]) <==> IsDigit(b[i]) {
      assert Lower(a)[i] == Lower(b)[i];
    }
  }

  /**
   * With numbers disallowed a name with a digit is reported, whatever the
   * abbreviations do, unless the abbreviation step is the Title Case one
   * (which re-spaces words).
   */
  lemma DigitsRejected(st: Settings, t: NodeType, name: string, c: Convention)
    requires Screen(st, t, name).None? && PatternFor(st, t) == Named(c, false) && !NoDigits(name)
    requires ConventionOf(ConventionFor(st, t)) != Some(TitleCase)
    ensures NameErrors(st, t, name) == [PatternMessage(st, t, name)]
  {
    var p := ProcessedName(st, t, name);
    NoNumbersRejectsDigits(c, name);
    if !(st.abbreviations == {} || Truthy(CustomFor(st, t))) {
      ProcessedCaseOnly(ConventionOf(ConventionFor(st, t)), name, st.order);
    }
    LowerKeepsDigits(p, name);
    NoNumbersRejectsDigits(c, p);
  }

  // ---------------------------------------------------------------------
  // The camelCase abbreviation discrepancy

  /** The texts that occur in "ID". */
  lemma InId(a: string)
    requires Contains("ID", a)
    ensures a == [] || a == "I" || a == "D" || a == "ID"
  {
    var i :| 0 <= i <= 2 && OccursAt("ID", a, i);
  }

  /** No common abbreviation is shorter than two characters, and 'ID' is one of them. */
  lemma CommonAbbreviationsLong()
    ensures forall a :: a in CommonAbbreviations ==> |a| >= 2
    ensures "ID" in CommonAbbreviations
  {
    Row1Long();
    Row2Long();
    Row3Long();
    Row4Long();
    Row5Long();
    assert "ID" in CommonRow6;
  }

  lemma Row1Long() ensures forall a :: a in CommonRow1 ==> |a| >= 2 {}
  lemma Row2Long() ensures forall a :: a in CommonRow2 ==> |a| >= 2 {}
  lemma Row3Long() ensures forall a :: a in CommonRow3 ==> |a| >= 2 {}
  lemma Row4Long() ensures forall a :: a in CommonRow4 ==> |a| >= 2 {}
  lemma Row5Long() ensures forall a :: a in CommonRow5 ==> |a| >= 2 {}

  lemma IdVariations()
    ensures Variations("ID") == ["ID", "id", "Id"] && Upper("ID") == "ID"
  {
    assert Upper("ID") == "ID" && Lower("ID") == "id" && Capitalize("ID") == "Id";
  }

  lemma IdOccurrences()
    ensures !Contains("id", "ID") && Contains("id", "id")
    ensures Contains("ID", "ID") && !Contains("ID", "id") && !Contains("ID", "Id")
  {
    assert OccursAt("id", "id", 0) && OccursAt("ID", "ID", 0);
    assert !OccursAt("id", "ID", 0) by { assert "id"[0] != "ID"[0]; }
    assert !OccursAt("ID", "id", 0) by { assert "ID"[0] != "id"[0]; }
    assert !OccursAt("ID", "Id", 0) by { assert "ID"[1] != "Id"[1]; }
  }

  lemma ReplaceId()
    ensures Escapes.Replace("id", "id", "ID") == "ID" && Escapes.Replace("ID", "ID", "ID") == "ID"
  {
    assert StartsWith("id", "id") && "id"[2..] == [];
    assert StartsWith("ID", "ID") && "ID"[2..] == [];
  }

  /** The camelCase adjustment for 'ID' turns "id" into "ID". */
  lemma AdjustLowerId()
    ensures AdjustCamel("id", "ID") == "ID"
  {
    var vs := Variations("ID");
    IdVariations();
    IdOccurrences();
    ReplaceId();
    assert vs[..2][..1] == ["ID"] && vs[..1] == ["ID"] && vs[..2] == ["ID", "id"] && vs[..1][..0] == [];
    assert ReplaceEach("id", vs[..1], "ID") == "id";
    assert ReplaceEach("id", vs[..2], "ID") == "ID";
  }

  /** ... and leaves "ID" as it is. */
  lemma AdjustUpperId()
    ensures AdjustCamel("ID", "ID") == "ID"
  {
    var vs := Variations("ID");
    IdVariations();
    IdOccurrences();
    ReplaceId();
    assert vs[..2][..1] == ["ID"] && vs[..1] == ["ID"] && vs[..2] == ["ID", "id"] && vs[..1][..0] == [];
    assert ReplaceEach("ID", vs[..1], "ID") == "ID";
    assert ReplaceEach("ID", vs[..2], "ID") == "ID";
  }

  /** Processing "id" under camelCase upper-cases it as soon as 'ID' has been seen. */
  lemma {:induction false} ProcessedId(order: seq<string>)
    requires forall k :: 0 <= k < |order| ==> order[k] != [] && order[k] != "I" && order[k] != "D"
    ensures Processed(Some(CamelCase), "id", order) == if "ID" in order then "ID" else "id"
  {
    if order != [] {
      var init := order[..|order| - 1];
      var a := order[|order| - 1];
      ProcessedId(init);
      var prev := Processed(Some(CamelCase), "id", init);
      assert Upper("id") == "ID";
      if Contains("ID", a) {
        InId(a);
        assert a == "ID";
        AdjustLowerId();
        AdjustUpperId();
        assert AbbrevStep(Some(CamelCase), "id", prev, a) == "ID";
      } else {
        IdOccurrences();
        assert a != "ID";
        assert AbbrevStep(Some(CamelCase), "id", prev, a) == prev;
      }
      assert order == init + [a];
    }
  }

  /** camelCase splits "id" into itself and, with 'ID' an abbreviation, suggests "ID". */
  lemma CamelSuggestionOfId(abbrevs: set<string>)
    requires "ID" in abbrevs
    ensures Suggest(CamelCase, abbrevs, "id") == "ID"
  {
    var s := "id";
    assert Strip(s) == s;
    assert !HasDelimiter(s);
    LowerEndAt(s, 0, 2);
    assert CamelFrom(s, 2) == [];
    assert s[0..2] == s;
    assert SplitParts(s) == ["id"];
    assert Upper(s) == "ID";
    assert FirstCamelWord(abbrevs, s) == "ID";
  }

  /**
   * As written, a camelCase rule with the default configuration reports
   * 'id', which follows camelCase, and suggests 'ID', which does not; the
   * corrected check accepts 'id'.
   */
  lemma CamelIdReported(st: Settings, t: NodeType)
    requires CamelDefaults(st)
    ensures Matches(CamelCase, true, "id") && !Matches(CamelCase, true, "ID")
    ensures NameErrorsAsWritten(st, t, "id") == [PatternMessage(st, t, "id")] && Suggestion(st, t, "id") == Some("ID")
    ensures NameErrors(st, t, "id") == []
  {
    CamelIdSetup(st, t);
    CamelSuggestionOfId(st.abbreviations);
  }

  /** A camelCase rule built from the default configuration, with no node-specific entries. */
  ghost predicate CamelDefaults(st: Settings) {
    && st.config == DefaultConfig && st.rules == map[]
    && st.convention == Some("camelCase") && st.customPattern.None?
    && st.pattern == Named(CamelCase, true) && st.patternDescription == "camelCase"
    && st.abbreviations == AllAbbreviations(DefaultConfig)
    && (forall a :: a in st.order <==> a in st.abbreviations)
  }

  lemma CamelIdSetup(st: Settings, t: NodeType)
    requires CamelDefaults(st)
    ensures "ID" in st.abbreviations
    ensures Screen(st, t, "id").None? && ProcessedName(st, t, "id") == "ID"
    ensures ConventionOf(ConventionFor(st, t)) == Some(CamelCase)
    ensures PatternFor(st, t) == Named(CamelCase, true) && DescriptionFor(st, t) == "camelCase"
  {
    CamelOrder(st);
    ProcessedId(st.order);
    CamelScreen(st, t);
  }

  lemma CamelOrder(st: Settings)
    requires CamelDefaults(st)
    ensures "ID" in st.abbreviations && "ID" in st.order
    ensures forall k :: 0 <= k < |st.order| ==> st.order[k] != [] && st.order[k] != "I" && st.order[k] != "D"
  {
    CommonAbbreviationsLong();
    AllAbbreviationsSpec(DefaultConfig);
    forall k | 0 <= k < |st.order| ensures st.order[k] != [] && st.order[k] != "I" && st.order[k] != "D" {
      assert st.order[k] in st.abbreviations;
    }
  }

  lemma CamelScreen(st: Settings, t: NodeType)
    requires CamelDefaults(st)
    ensures Screen(st, t, "id").None?
  {
    assert SkipFor(st, t) == {"root"};
    assert "id" != "root";
  }

  // ---------------------------------------------------------------------
  // Names, dispatch and findings

  /** The kinds whose visits this rule overrides. */
  const OverriddenTypes: set<NodeType> := {ComponentType, MessageHandlerType, CustomMethodType, PropertyType, EventHandlerType}

  /**
   * The visits this rule overrides (`visit_component`, `visit_message_handler`,
   * `visit_custom_method`, `visit_property`, `visit_event_handler`), each
   * delegating to `visit_generic`.
   */
  const NameVisits: set<string> := set t | t in OverriddenTypes :: VisitMethodName(t)

  /** `node.accept(rule)` reaches `visit_generic`: an overridden visit or the fallback. */
  predicate ReachesGeneric(n: Node) {
    match Accept(n, RuleCommon.NodeVisitorMethods)
    case Specific(m) => m in NameVisits
    case Generic => true
  }

  /**
   * The five overridden kinds and the two without a visitor method reach
   * `visit_generic`; the four other binding and transform kinds stop at
   * the inherited visits, which do nothing.
   */
  lemma ReachesGenericKinds(n: Node)
    ensures ReachesGeneric(n) <==> !(n.ExpressionBinding? || n.PropertyBinding? || n.TagBinding? || n.Transform?)
  {
    RuleCommon.GenericOnlyForStructAndQuery(n);
    if n.ExpressionBinding? || n.PropertyBinding? || n.TagBinding? || n.Transform? {
      InheritedVisit(n);
    } else if !(n.ExpressionStructBinding? || n.QueryBinding?) {
      OverriddenVisit(n);
    }
  }

  lemma InheritedVisit(n: Node)
    requires n.ExpressionBinding? || n.PropertyBinding? || n.TagBinding? || n.Transform?
    ensures VisitMethodName(TypeOf(n)) !in NameVisits
  {
    forall u | u in OverriddenTypes ensures VisitMethodName(u) != VisitMethodName(TypeOf(n)) {
      VisitMethodNameInjective(u, TypeOf(n));
    }
  }

  lemma OverriddenVisit(n: Node)
    requires n.Component? || n.MessageHandler? || n.CustomMethod? || n.EventHandler? || n.Property?
    ensures VisitMethodName(TypeOf(n)) in NameVisits
  {
    assert TypeOf(n) in OverriddenTypes;
  }

  /** `_extract_name_from_node`: `None` for a type without an extractor, or when the extractor fails. */
  function NodeName(st: Settings, n: Node): (r: Option<string>)
    ensures TypeOf(n) !in st.extractors ==> r.None?
  {
    if TypeOf(n) in st.extractors then st.extractors[TypeOf(n)](n) else None
  }

  // The default extractors: `getattr(node, attribute, '')`.
  function NameAttribute(n: Node): Option<string> {
    match n
    case Component(_, name, _) => Some(name)
    case CustomMethod(_, name, _, _) => Some(name)
    case Property(_, name, _, _, _) => Some(name)
    case _ => Some("")
  }

  function MessageTypeAttribute(n: Node): Option<string> {
    if n.MessageHandler? then Some(n.messageType) else Some("")
  }

  function EventTypeAttribute(n: Node): Option<string> {
    if n.EventHandler? then Some(n.eventType) else Some("")
  }

  /** `_get_default_name_extractors` */
  const DefaultExtractors: map<NodeType, Node -> Option<string>> := map[
    ComponentType := NameAttribute,
    MessageHandlerType := MessageTypeAttribute,
    CustomMethodType := NameAttribute,
    PropertyType := NameAttribute,
    EventHandlerType := EventTypeAttribute]

  /** The default extractors name components, custom methods and properties by name, handlers by their type. */
  lemma DefaultNames(st: Settings, n: Node)
    requires st.extractors == DefaultExtractors
    ensures n.Component? || n.CustomMethod? || n.Property? ==> NodeName(st, n) == Some(n.name)
    ensures n.MessageHandler? ==> NodeName(st, n) == Some(n.messageType)
    ensures n.EventHandler? ==> NodeName(st, n) == Some(n.eventType)
    ensures !(n.Component? || n.CustomMethod? || n.Property? || n.MessageHandler? || n.EventHandler?) ==> NodeName(st, n).None?
  {
  }

  /** `f"{path}: {error}"` for each message, in order. */
  function Prefixed(path: string, ms: seq<string>): (r: seq<string>)
    ensures |r| == |ms|
  {
    if ms == [] then [] else Prefixed(path, ms[..|ms| - 1]) + [path + ": " + ms[|ms| - 1]]
  }

  lemma {:induction false} PrefixedSpec(path: string, ms: seq<string>)
    ensures forall j :: 0 <= j < |ms| ==> Prefixed(path, ms)[j] == path + ": " + ms[j]
  {
    if ms != [] {
      PrefixedSpec(path, ms[..|ms| - 1]);
    }
  }

  /** What `visit_generic` reports for a node. */
  function GenericMessages(st: Settings, n: Node): seq<string> {
    var name := NodeName(st, n);
    if name.None? || name.value == [] then [] else Prefixed(n.path, NameErrors(st, TypeOf(n), name.value))
  }

  /** What visiting one node reports. */
  function NodeMessages(st: Settings, n: Node): seq<string> {
    if ReachesGeneric(n) then GenericMessages(st, n) else []
  }

  /** A node reports at most one message; an empty or missing name reports nothing. */
  lemma NodeMessagesAtMostOne(st: Settings, n: Node)
    ensures |NodeMessages(st, n)| <= 1
    ensures NodeName(st, n).None? || NodeName(st, n) == Some("") ==> NodeMessages(st, n) == []
  {
    var name := NodeName(st, n);
    if name.Some? && name.value != [] {
      NameErrorsOrder(st, TypeOf(n), name.value);
    }
  }

  /** Each message is a message of `_validate_name` for the node's name, prefixed with the node's path. */
  lemma NodeMessagesNamed(st: Settings, n: Node)
    ensures forall m :: m in NodeMessages(st, n) ==>
      (NodeName(st, n).Some? && exists e :: e in NameErrors(st, TypeOf(n), NodeName(st, n).value) && m == n.path + ": " + e)
  {
    var name := NodeName(st, n);
    if ReachesGeneric(n) && name.Some? && name.value != [] {
      var es := NameErrors(st, TypeOf(n), name.value);
      PrefixedSpec(n.path, es);
      forall m | m in NodeMessages(st, n)
        ensures exists e :: e in es && m == n.path + ": " + e
      {
        var j :| 0 <= j < |es| && m == Prefixed(n.path, es)[j];
        assert es[j] in es;
      }
    }
  }

  /** Expression, property and tag bindings and transforms are never reported, whatever the extractors. */
  lemma BindingsNeverReported(st: Settings, n: Node)
    requires n.ExpressionBinding? || n.PropertyBinding? || n.TagBinding? || n.Transform?
    ensures NodeMessages(st, n) == []
  {
    ReachesGenericKinds(n);
  }

  /** The findings of a run, in node order. */
  function Findings(st: Settings, nodes: seq<Node>): seq<string> {
    if nodes == [] then [] else Findings(st, nodes[..|nodes| - 1]) + NodeMessages(st, nodes[|nodes| - 1])
  }

  lemma FindingsSnoc(st: Settings, nodes: seq<Node>, k: nat)
    requires k < |nodes|
    ensures Findings(st, nodes[..k + 1]) == Findings(st, nodes[..k]) + NodeMessages(st, nodes[k])
  {
    assert nodes[..k + 1][..k] == nodes[..k];
  }

  /** Every finding comes from one of the nodes. */
  lemma {:induction false} FindingsFrom(st: Settings, nodes: seq<Node>)
    ensures forall m :: m in Findings(st, nodes) ==> exists k :: 0 <= k < |nodes| && m in NodeMessages(st, nodes[k])
  {
    if nodes != [] {
      var n := |nodes| - 1;
      FindingsFrom(st, nodes[..n]);
      forall m | m in Findings(st, nodes)
        ensures exists k :: 0 <= k < |nodes| && m in NodeMessages(st, nodes[k])
      {
        if m in Findings(st, nodes[..n]) {
          var k :| 0 <= k < n && m in NodeMessages(st, nodes[..n][k]);
          assert nodes[..n][k] == nodes[k];
        } else {
          assert m in NodeMessages(st, nodes[n]);
        }
      }
    }
  }

  /** A rule that only targets binding and transform kinds reports nothing. */
  lemma {:induction false} BindingTargetsSilent(st: Settings, nodes: seq<Node>, targets: set<NodeType>)
    requires targets != {}
    requires forall t :: t in targets ==> t in {ExpressionBindingType, PropertyBindingType, TagBindingType, TransformType}
    ensures Findings(st, FilterByTypes(nodes, targets)) == []
  {
    var f := FilterByTypes(nodes, targets);
    FilterByTypesMembers(nodes, targets);
    forall k | 0 <= k < |f| ensures NodeMessages(st, f[k]) == [] {
      assert f[k] in f;
      assert TypeOf(f[k]) in targets;
      BindingsNeverReported(st, f[k]);
    }
    FindingsEmpty(st, f);
  }

  lemma {:induction false} FindingsEmpty(st: Settings, nodes: seq<Node>)
    requires forall k :: 0 <= k < |nodes| ==> NodeMessages(st, nodes[k]) == []
    ensures Findings(st, nodes) == []
  {
    if nodes != [] {
      var n := |nodes| - 1;
      assert forall k :: 0 <= k < n ==> nodes[..n][k] == nodes[k];
      FindingsEmpty(st, nodes[..n]);
    }
  }

  // ---------------------------------------------------------------------
  // Ordering of abbreviations and of the target listing

  /** `sorted(s, key=len, reverse=True)`: every element once, longest first; ties in any order. */
  ghost predicate ByLength(order: seq<string>, s: set<string>) {
    && (forall x :: x in order <==> x in s)
    && (forall i, j :: 0 <= i < j < |order| ==> order[i] != order[j] && |order[j]| <= |order[i]|)
  }

  lemma {:induction false} LongestExists(s: set<string>)
    requires s != {}
    ensures exists m :: m in s && forall x :: x in s ==> |x| <= |m|
  {
    var y :| y in s;
    if s - {y} != {} {
      LongestExists(s - {y});
      var m :| m in s - {y} && forall x :: x in s - {y} ==> |x| <= |m|;
      if |y| > |m| {
        assert forall x :: x in s ==> |x| <= |y|;
      } else {
        assert forall x :: x in s ==> |x| <= |m|;
      }
    } else {
      forall x | x in s ensures |x| <= |y| {
        assert x !in s - {y};
      }
    }
  }

  method SortByLength(s: set<string>) returns (order: seq<string>)
    ensures ByLength(order, s)
  {
    order := [];
    var rest := s;
    while rest != {}
      invariant rest <= s
      invariant forall x :: x in order <==> x in s && x !in rest
      invariant forall i, j :: 0 <= i < j < |order| ==> order[i] != order[j] && |order[j]| <= |order[i]|
      invariant forall i, x :: 0 <= i < |order| && x in rest ==> |x| <= |order[i]|
      decreases rest
    {
      LongestExists(rest);
      var m :| m in rest && forall x :: x in rest ==> |x| <= |m|;
      order := order + [m];
      rest := rest - {m};
    }
  }

  /** Some listing of a set of node types: each once. */
  method ListTypes(s: set<NodeType>) returns (ts: seq<NodeType>)
    ensures forall t :: t in ts <==> t in s
    ensures forall i, j :: 0 <= i < j < |ts| ==> ts[i] != ts[j]
  {
    ts := [];
    var rest := s;
    while rest != {}
      invariant rest <= s
      invariant forall t :: t in ts <==> t in s && t !in rest
      invariant forall i, j :: 0 <= i < j < |ts| ==> ts[i] != ts[j]
      decreases rest
    {
      var t :| t in rest;
      ts := ts + [t];
      rest := rest - {t};
    }
  }

  function TypeValues(ts: seq<NodeType>): (r: seq<string>)
    ensures |r| == |ts|
  {
    if ts == [] then [] else TypeValues(ts[..|ts| - 1]) + [TypeValue(ts[|ts| - 1])]
  }

  // ---------------------------------------------------------------------
  // preprocess_config

  /** The node types the strings name, unknown ones skipped. */
  function ParsedTypes(names: seq<string>): (r: set<NodeType>)
    ensures forall t :: t in r <==> TypeValue(t) in names
  {
    ParseTypeValueInverse();
    set s | s in names && ParseNodeType(s).Some? :: ParseNodeType(s).value
  }

  lemma ParseTypeValueInverse()
    ensures forall t :: ParseNodeType(TypeValue(t)) == Some(t)
  {
    forall t ensures ParseNodeType(TypeValue(t)) == Some(t) {
      ParseTypeValue(t);
    }
  }

  /**
   * The `target_node_types` conversion: the named types, or `None` (the
   * key left as it was) when no string names a type.
   */
  method PreprocessTargets(names: seq<string>) returns (r: Option<set<NodeType>>)
    ensures r.None? <==> ParsedTypes(names) == {}
    ensures r.Some? ==> r.value == ParsedTypes(names)
  {
    var converted: set<NodeType> := {};
    var k := 0;
    while k < |names|
      invariant 0 <= k <= |names|
      invariant converted == ParsedTypes(names[..k])
    {
      assert names[..k + 1] == names[..k] + [names[k]];
      var t := ParseNodeType(names[k]);
      if t.Some? {
        converted := converted + {t.value};
      }
      k := k + 1;
    }
    assert names[..k] == names;
    if converted != {} {
      r := Some(converted);
    } else {
      r := None;
    }
  }

  /** The `node_type_specific_rules` conversion: later entries overwrite, unknown type names are dropped. */
  function RulesOf(entries: seq<(string, Overrides)>): map<NodeType, Overrides> {
    if entries == [] then map[]
    else
      var r := RulesOf(entries[..|entries| - 1]);
      var last := entries[|entries| - 1];
      var t := ParseNodeType(last.0);
      if t.Some? then r[t.value := last.1] else r
  }

  /** A type has an entry exactly when some string names it. */
  lemma {:induction false} RulesOfKeys(entries: seq<(string, Overrides)>, t: NodeType)
    ensures t in RulesOf(entries) <==> exists k :: 0 <= k < |entries| && entries[k].0 == TypeValue(t)
  {
    if entries != [] {
      var n := |entries| - 1;
      var init := entries[..n];
      RulesOfKeys(init, t);
      assert forall k :: 0 <= k < n ==> init[k] == entries[k];
      ParseTypeValue(t);
    }
  }

  /** A type keeps the last entry under its name. */
  lemma {:induction false} RulesOfLast(entries: seq<(string, Overrides)>, t: NodeType, k: int)
    requires 0 <= k < |entries| && entries[k].0 == TypeValue(t)
    requires forall j :: k < j < |entries| ==> entries[j].0 != TypeValue(t)
    ensures t in RulesOf(entries) && RulesOf(entries)[t] == entries[k].1
    decreases |entries|
  {
    ParseTypeValueInverse();
    var n := |entries| - 1;
    var t' := ParseNodeType(entries[n].0);
    if k < n {
      var init := entries[..n];
      assert init[k] == entries[k];
      assert forall j :: k < j < n ==> init[j] == entries[j];
      RulesOfLast(init, t, k);
      assert t' != Some(t);
    } else {
      assert t' == Some(t);
    }
  }

  method PreprocessRules(entries: seq<(string, Overrides)>) returns (r: map<NodeType, Overrides>)
    ensures r == RulesOf(entries)
  {
    r := map[];
    var k := 0;
    while k < |entries|
      invariant 0 <= k <= |entries|
      invariant r == RulesOf(entries[..k])
    {
      assert entries[..k + 1][..k] == entries[..k];
      var t := ParseNodeType(entries[k].0);
      if t.Some? {
        r := r[t.value := entries[k].1];
      }
      k := k + 1;
    }
    assert entries[..k] == entries;
  }

  // ---------------------------------------------------------------------
  // NamePatternRule

  /** The abbreviation block of `__init__`: the allowed ones, joined by the common ones when detection is on. */
  method SetupAbbreviations(config: Config) returns (all: set<string>)
    ensures all == AllAbbreviations(config)
  {
    var common := CommonAbbreviations;
    if config.autoDetectAbbreviations {
      all := AllowedAbbreviations(config) + common;
    } else {
      all := AllowedAbbreviations(config);
    }
  }

  /** `NamePatternRule` */
  class NamePatternRule {
    const targetNodeTypes: set<NodeType>
    const convention: Option<string>
    const customPattern: Option<string>
    const config: Config
    const nodeTypeSpecificRules: map<NodeType, Overrides>
    const nameExtractors: map<NodeType, Node -> Option<string>>
    const allAbbreviations: set<string>
    /** The iteration order of `sorted(all_abbreviations, key=len, reverse=True)`. */
    const abbreviationOrder: seq<string>
    const pattern: Pattern
    const patternDescription: string
    /** The regex engine, for patterns other than the predefined ones. */
    const regex: (string, string) -> bool
    var errors: seq<string>
    var warnings: seq<string>

    function State(): Settings {
      Settings(config, convention, customPattern, pattern, patternDescription, nodeTypeSpecificRules,
                           allAbbreviations, abbreviationOrder, nameExtractors, regex)
    }

    constructor(convention: Option<string>, targetNodeTypes: Option<set<NodeType>>, customPattern: Option<string>,
                config: Config, nameExtractors: Option<map<NodeType, Node -> Option<string>>>,
                nodeTypeSpecificRules: Option<map<NodeType, Overrides>>, regex: (string, string) -> bool)
      ensures this.targetNodeTypes == if targetNodeTypes.Some? && targetNodeTypes.value != {} then targetNodeTypes.value else {ComponentType}
      ensures this.convention == convention && this.customPattern == customPattern && this.config == config
      ensures this.nameExtractors == if nameExtractors.Some? && |nameExtractors.value| > 0 then nameExtractors.value else DefaultExtractors
      ensures this.allAbbreviations == AllAbbreviations(config)
      ensures ByLength(abbreviationOrder, allAbbreviations)
      ensures (pattern, patternDescription) == SetupPattern(convention, customPattern, config.allowNumbers)
      ensures this.nodeTypeSpecificRules == CompletedRules(if nodeTypeSpecificRules.Some? then nodeTypeSpecificRules.value else map[], config.allowNumbers)
      ensures this.regex == regex
      ensures errors == [] && warnings == []
    {
      var rules := if nodeTypeSpecificRules.Some? then nodeTypeSpecificRules.value else map[];
      var all := SetupAbbreviations(config);
      var order := SortByLength(all);
      var completed := CompleteRules(rules, config.allowNumbers);
      var p := SetupPattern(convention, customPattern, config.allowNumbers);
      this.targetNodeTypes := if targetNodeTypes.Some? && targetNodeTypes.value != {} then targetNodeTypes.value else {ComponentType};
      this.convention := convention;
      this.customPattern := customPattern;
      this.config := config;
      this.nameExtractors := if nameExtractors.Some? && |nameExtractors.value| > 0 then nameExtractors.value else DefaultExtractors;
      this.allAbbreviations := all;
      this.abbreviationOrder := order;
      this.pattern := p.0;
      this.patternDescription := p.1;
      this.nodeTypeSpecificRules := completed;
      this.regex := regex;
      errors := [];
      warnings := [];
    }

    /** `error_message`, listing the target types in some order. */
    method ErrorMessage() returns (r: string)
      ensures exists ts ::
        (forall t :: t in ts <==> t in targetNodeTypes) && r == "Names should follow naming patterns for " + Join(", ", TypeValues(ts))
    {
      var ts := ListTypes(targetNodeTypes);
      var values := [];
      var k := 0;
      while k < |ts|
        invariant 0 <= k <= |ts|
        invariant values == TypeValues(ts[..k])
      {
        assert ts[..k + 1][..k] == ts[..k];
        values := values + [TypeValue(ts[k])];
        k := k + 1;
      }
      assert ts[..k] == ts;
      r := "Names should follow naming patterns for " + Join(", ", values);
    }

    /** `_adjust_abbreviation_for_camel_case` */
    method AdjustCamelCase(name: string, abbrev: string) returns (r: string)
      ensures r == AdjustCamel(name, abbrev)
    {
      var variations := [Upper(abbrev), Lower(abbrev), Capitalize(abbrev)];
      r := name;
      var k := 0;
      while k < |variations|
        invariant 0 <= k <= |variations|
        invariant r == ReplaceEach(name, variations[..k], Upper(abbrev))
      {
        assert variations[..k + 1][..k] == variations[..k];
        if Contains(r, variations[k]) {
          r := PyReplace(r, variations[k], Upper(abbrev));
        }
        k := k + 1;
      }
      assert variations[..k] == variations;
    }

    /** `_adjust_abbreviation_for_title_case` */
    method AdjustTitleCase(name: string, abbrev: string) returns (r: string)
      ensures r == AdjustTitle(name, abbrev)
    {
      var words := Tokens(name, IsSpace);
      var adjusted := [];
      var k := 0;
      while k < |words|
        invariant 0 <= k <= |words|
        invariant adjusted == TitleWords(abbrev, words[..k])
      {
        assert words[..k + 1][..k] == words[..k];
        if Upper(words[k]) == Upper(abbrev) {
          adjusted := adjusted + [Upper(abbrev)];
        } else {
          adjusted := adjusted + [words[k]];
        }
        k := k + 1;
      }
      assert words[..k] == words;
      r := Join(" ", adjusted);
    }

    /** The body of the loop of `_process_abbreviations`. */
    method ProcessStep(conv: Option<Convention>, name: string, processed: string, abbrev: string) returns (r: string)
      ensures r == AbbrevStep(conv, name, processed, abbrev)
    {
      r := processed;
      if Contains(Upper(name), abbrev) {
        if conv == Some(PascalCase) || conv == Some(CamelCase) {
          r := AdjustCamelCase(r, abbrev);
        } else if conv == Some(SnakeCase) || conv == Some(KebabCase) {
          r := PyReplace(r, Upper(abbrev), Lower(abbrev));
          r := PyReplace(r, Lower(abbrev), Lower(abbrev));
        } else if conv == Some(ScreamingSnakeCase) {
          r := Upper(r);
        } else if conv == Some(TitleCase) {
          r := AdjustTitleCase(r, abbrev);
        } else if conv == Some(LowerCase) {
          r := Lower(r);
        }
      }
    }

    /** `_process_abbreviations` */
    method ProcessAbbreviations(name: string, t: NodeType) returns (r: string)
      ensures r == ProcessedName(State(), t, name)
    {
      if allAbbreviations == {} {
        return name;
      }
      if Truthy(CustomFor(State(), t)) {
        return name;
      }
      var conv := ConventionOf(ConventionFor(State(), t));
      r := name;
      var k := 0;
      while k < |abbreviationOrder|
        invariant 0 <= k <= |abbreviationOrder|
        invariant r == Processed(conv, name, abbreviationOrder[..k])
      {
        assert abbreviationOrder[..k + 1][..k] == abbreviationOrder[..k];
        r := ProcessStep(conv, name, r, abbreviationOrder[k]);
        k := k + 1;
      }
      assert abbreviationOrder[..k] == abbreviationOrder;
    }

    /** The loop shared by `_to_pascal_case` and `_to_title_case`, and the tail of `_to_camel_case`. */
    method CapitalizeParts(parts: seq<string>) returns (rs: seq<string>)
      ensures rs == CapitalWords(allAbbreviations, parts)
    {
      rs := [];
      var k := 0;
      while k < |parts|
        invariant 0 <= k <= |parts|
        invariant rs == CapitalWords(allAbbreviations, parts[..k])
      {
        assert parts[..k + 1][..k] == parts[..k];
        if Upper(parts[k]) in allAbbreviations {
          rs := rs + [Upper(parts[k])];
        } else {
          rs := rs + [Capitalize(parts[k])];
        }
        k := k + 1;
      }
      assert parts[..k] == parts;
    }

    /** The loop shared by `_to_snake_case`, `_to_kebab_case` and `_to_lower_case`. */
    method LowerParts(parts: seq<string>) returns (rs: seq<string>)
      ensures rs == LowerWords(parts)
    {
      rs := [];
      var k := 0;
      while k < |parts|
        invariant 0 <= k <= |parts|
        invariant rs == LowerWords(parts[..k])
      {
        assert parts[..k + 1][..k] == parts[..k];
        rs := rs + [Lower(parts[k])];
        k := k + 1;
      }
      assert parts[..k] == parts;
    }

    method ToPascalCase(name: string) returns (r: string)
      ensures r == ToPascal(allAbbreviations, name)
    {
      var rs := CapitalizeParts(SplitParts(name));
      r := Join("", rs);
    }

    method ToCamelCase(name: string) returns (r: string)
      ensures r == ToCamel(allAbbreviations, name)
    {
      var parts := SplitParts(name);
      if parts == [] {
        return "";
      }
      var first := if Upper(parts[0]) in allAbbreviations then Upper(parts[0]) else Lower(parts[0]);
      var rest := CapitalizeParts(parts[1..]);
      r := Join("", [first] + rest);
    }

    method ToSnakeCase(name: string) returns (r: string)
      ensures r == ToSnake(name)
    {
      var rs := LowerParts(SplitParts(name));
      r := Join("_", rs);
    }

    method ToKebabCase(name: string) returns (r: string)
      ensures r == ToKebab(name)
    {
      var rs := LowerParts(SplitParts(name));
      r := Join("-", rs);
    }

    method ToTitleCase(name: string) returns (r: string)
      ensures r == ToTitle(allAbbreviations, name)
    {
      var rs := CapitalizeParts(SplitParts(name));
      r := Join(" ", rs);
    }

    method ToLowerCaseName(name: string) returns (r: string)
      ensures r == ToLowerCase(name)
    {
      var rs := LowerParts(SplitParts(name));
      r := Join(" ", rs);
    }

    /** `_suggest_name` */
    method SuggestName(name: string, t: NodeType) returns (r: Option<string>)
      ensures r == Suggestion(State(), t, name)
    {
      var conv := ConventionOf(ConventionFor(State(), t));
      if conv.None? {
        return None;
      }
      var s: string;
      match conv.value {
        case PascalCase => s := ToPascalCase(name);
        case CamelCase => s := ToCamelCase(name);
        case SnakeCase => s := ToSnakeCase(name);
        case KebabCase => s := ToKebabCase(name);
        case ScreamingSnakeCase => s := ToSnakeCase(name); s := Upper(s);
        case TitleCase => s := ToTitleCase(name);
        case LowerCase => s := ToLowerCaseName(name);
      }
      r := Some(s);
    }

    /** `_validate_name`, with the corrected pattern test. */
    method ValidateName(n: Node, name: string) returns (errs: seq<string>)
      ensures errs == NameErrors(State(), TypeOf(n), name)
    {
      var t := TypeOf(n);
      var st := State();
      if name in SkipFor(st, t) {
        return [];
      }
      if name in ForbiddenFor(st, t) {
        return [Msg(name, "is forbidden for " + TypeValue(t))];
      }
      var minLength := MinLengthFor(st, t);
      var maxLength := MaxLengthFor(st, t);
      if |name| < minLength {
        return [Msg(name, "is too short (minimum " + IntToString(minLength) + " characters) for " + TypeValue(t))];
      }
      if maxLength.Some? && maxLength.value != 0 && |name| > maxLength.value {
        return [Msg(name, "is too long (maximum " + IntToString(maxLength.value) + " characters) for " + TypeValue(t))];
      }
      var p := PatternFor(st, t);
      var processed := ProcessAbbreviations(name, t);
      if !Conforms(st, p, name) && !Conforms(st, p, processed) {
        var suffix := "";
        if ConventionOf(ConventionFor(st, t)).Some? {
          var s := SuggestName(name, t);
          if s.Some? && s.value != [] {
            suffix := " (suggestion: '" + s.value + "')";
          }
        }
        return [Msg(name, "doesn't follow " + DescriptionFor(st, t) + " for " + TypeValue(t) + suffix)];
      }
      return [];
    }

    /** `visit_generic`: each message, prefixed with the path, under the configured severity. */
    method VisitGeneric(n: Node)
      modifies this
      ensures config.severity == "error" ==> errors == old(errors) + GenericMessages(State(), n) && warnings == old(warnings)
      ensures config.severity != "error" ==> warnings == old(warnings) + GenericMessages(State(), n) && errors == old(errors)
    {
      var name := NodeName(State(), n);
      if name.Some? && name.value != [] {
        var es := ValidateName(n, name.value);
        var k := 0;
        while k < |es|
          invariant 0 <= k <= |es|
          invariant config.severity == "error" ==> errors == old(errors) + Prefixed(n.path, es[..k]) && warnings == old(warnings)
          invariant config.severity != "error" ==> warnings == old(warnings) + Prefixed(n.path, es[..k]) && errors == old(errors)
        {
          var m := n.path + ": " + es[k];
          assert es[..k + 1][..k] == es[..k];
          assert Prefixed(n.path, es[..k + 1]) == Prefixed(n.path, es[..k]) + [m];
          if config.severity == "error" {
            errors := errors + [m];
          } else {
            warnings := warnings + [m];
          }
          k := k + 1;
        }
        assert es[..k] == es;
      }
    }

    /** `node.accept(self)`: the five overridden visits and the fallback delegate to `visit_generic`. */
    method Accept(n: Node)
      modifies this
      ensures config.severity == "error" ==> errors == old(errors) + NodeMessages(State(), n) && warnings == old(warnings)
      ensures config.severity != "error" ==> warnings == old(warnings) + NodeMessages(State(), n) && errors == old(errors)
    {
      match Nodes.Accept(n, RuleCommon.NodeVisitorMethods)
      case Specific(m) =>
        if m in NameVisits {
          VisitGeneric(n);
        }
      case Generic => VisitGeneric(n);
    }

    /** `process_nodes`: every finding over the targeted nodes, under the configured severity. */
    method ProcessNodes(nodes: seq<Node>)
      modifies this
      ensures config.severity == "error" ==> errors == Findings(State(), FilterByTypes(nodes, targetNodeTypes)) && warnings == []
      ensures config.severity != "error" ==> warnings == Findings(State(), FilterByTypes(nodes, targetNodeTypes)) && errors == []
    {
      errors := [];
      warnings := [];
      var applicable := FilterByTypes(nodes, targetNodeTypes);
      ghost var st := State();
      var k := 0;
      while k < |applicable|
        invariant 0 <= k <= |applicable|
        invariant config.severity == "error" ==> errors == Findings(st, applicable[..k]) && warnings == []
        invariant config.severity != "error" ==> warnings == Findings(st, applicable[..k]) && errors == []
      {
        Accept(applicable[k]);
        FindingsSnoc(st, applicable, k);
        k := k + 1;
      }
      assert applicable[..k] == applicable;
    }
  }

  /** The loop of `_process_node_specific_rules` over the entries. */
  method CompleteRules(rules: map<NodeType, Overrides>, allowNumbers: bool) returns (r: map<NodeType, Overrides>)
    ensures r == CompletedRules(rules, allowNumbers)
  {
    r := map[];
    var rest := rules.Keys;
    while rest != {}
      invariant rest <= rules.Keys
      invariant r.Keys == rules.Keys - rest
      invariant forall t :: t in r ==> r[t] == Completed(rules[t], allowNumbers)
      decreases rest
    {
      var t :| t in rest;
      r := r[t := Completed(rules[t], allowNumbers)];
      rest := rest - {t};
    }
  }
}
