/**
 * The naming conventions of rules/name_pattern.py as values: the seven
 * predefined patterns (each written as a dedicated scanner), the split of a
 * name into words, abbreviation processing and the case conversions that
 * produce suggestions.
 */
module NameConvention {
  import opened Wrappers
  import opened PyStr
  import Escapes

  /** The keys of `NAMING_CONVENTIONS`. */
  datatype Convention = PascalCase | CamelCase | SnakeCase | KebabCase | ScreamingSnakeCase | TitleCase | LowerCase

  function ConventionName(c: Convention): string {
    match c
    case PascalCase => "PascalCase"
    case CamelCase => "camelCase"
    case SnakeCase => "snake_case"
    case KebabCase => "kebab-case"
    case ScreamingSnakeCase => "SCREAMING_SNAKE_CASE"
    case TitleCase => "Title Case"
    case LowerCase => "lower case"
  }

  /** `name in NAMING_CONVENTIONS`, and which one. */
  function ParseConvention(s: string): (r: Option<Convention>)
    ensures r.Some? ==> ConventionName(r.value) == s
    ensures forall c :: ConventionName(c) == s ==> r == Some(c)
  {
    if s == "PascalCase" then Some(PascalCase)
    else if s == "camelCase" then Some(CamelCase)
    else if s == "snake_case" then Some(SnakeCase)
    else if s == "kebab-case" then Some(KebabCase)
    else if s == "SCREAMING_SNAKE_CASE" then Some(ScreamingSnakeCase)
    else if s == "Title Case" then Some(TitleCase)
    else if s == "lower case" then Some(LowerCase)
    else None
  }

  /** The `description` entry: the key itself, except for lower case. */
  function Description(c: Convention): string {
    if c == LowerCase then "lower case with spaces (e.g., my button, data table)" else ConventionName(c)
  }

  /**
   * A pattern the rule matches names against: a predefined convention, with
   * or without the `0-9` range, or the source text of any other regex.
   */
  datatype Pattern = Named(convention: Convention, allowNumbers: bool) | Custom(source: string)

  /** The class the first character of a predefined pattern must be in. */
  predicate FirstChar(c: Convention, ch: char) {
    match c
    case PascalCase => IsUpper(ch)
    case ScreamingSnakeCase => IsUpper(ch)
    case TitleCase => IsUpper(ch)
    case _ => IsLower(ch)
  }

  /** The class every later character must be in; `numbers` is the `0-9` range. */
  predicate RestChar(c: Convention, numbers: bool, ch: char) {
    match c
    case PascalCase => IsAlpha(ch) || (numbers && IsDigit(ch))
    case CamelCase => IsAlpha(ch) || (numbers && IsDigit(ch))
    case SnakeCase => IsLower(ch) || (numbers && IsDigit(ch)) || ch == '_'
    case KebabCase => IsLower(ch) || (numbers && IsDigit(ch)) || ch == '-'
    case ScreamingSnakeCase => IsUpper(ch) || (numbers && IsDigit(ch)) || ch == '_'
    case TitleCase => IsAlpha(ch) || IsSpace(ch)
    case LowerCase => IsLower(ch) || IsSpace(ch)
  }

  predicate SpaceBeforeCapital(s: string, i: nat)
    requires i + 1 < |s|
  {
    IsSpace(s[i]) <==> IsUpper(s[i + 1])
  }

  /**
   * The extra structure of `[A-Z][a-z]*(\s[A-Z][a-z]*)*`: a capital starts
   * every word, one whitespace character separates words, no trailing space.
   */
  predicate TitleShape(s: string) {
    |s| > 0 && !IsSpace(s[|s| - 1]) && forall i :: 0 <= i < |s| - 1 ==> SpaceBeforeCapital(s, i)
  }

  /** The pattern between `^` and `$` matches all of `s`. */
  predicate Body(c: Convention, numbers: bool, s: string) {
    && |s| > 0
    && FirstChar(c, s[0])
    && (forall i :: 1 <= i < |s| ==> RestChar(c, numbers, s[i]))
    && (c == TitleCase ==> TitleShape(s))
  }

  /** `re.match` of a predefined pattern: Python's `$` also matches before one final newline. */
  predicate Matches(c: Convention, numbers: bool, s: string) {
    Body(c, numbers, s) || (|s| > 0 && s[|s| - 1] == '\n' && Body(c, numbers, s[..|s| - 1]))
  }

  predicate NoDigits(s: string) {
    forall i :: 0 <= i < |s| ==> !IsDigit(s[i])
  }

  lemma BodyNoNumbers(c: Convention, s: string)
    ensures Body(c, false, s) <==> Body(c, true, s) && NoDigits(s)
  {
    if Body(c, false, s) {
      forall i | 0 <= i < |s| ensures !IsDigit(s[i]) {
        if i > 0 {
          assert RestChar(c, false, s[i]);
        }
      }
    }
    if Body(c, true, s) && NoDigits(s) {
      forall i | 1 <= i < |s| ensures RestChar(c, false, s[i]) {
        assert RestChar(c, true, s[i]) && !IsDigit(s[i]);
      }
    }
  }

  /**
   * Deleting `0-9` from a predefined pattern rejects exactly the names with
   * a digit and keeps every other verdict.
   */
  lemma NoNumbersRejectsDigits(c: Convention, s: string)
    ensures Matches(c, false, s) <==> Matches(c, true, s) && NoDigits(s)
  {
    BodyNoNumbers(c, s);
    if |s| > 0 && s[|s| - 1] == '\n' {
      var t := s[..|s| - 1];
      BodyNoNumbers(c, t);
      assert NoDigits(s) <==> NoDigits(t) by {
        assert forall i :: 0 <= i < |t| ==> t[i] == s[i];
        assert s == t + ['\n'];
      }
    }
  }

  // The `examples` and `invalid_examples` of each predefined convention.

  lemma PascalExamples()
    ensures Matches(PascalCase, true, "Button1")
    ensures Matches(PascalCase, true, "DataTable")
    ensures Matches(PascalCase, true, "MyCustomComponent")
  {
  }

  lemma PascalInvalidExamples()
    ensures !Matches(PascalCase, true, "button1")
    ensures !Matches(PascalCase, true, "data_table")
    ensures !Matches(PascalCase, true, "my-component")
  {
    assert "data_table"[4] == '_' && "my-component"[2] == '-';
  }

  lemma CamelExamples()
    ensures Matches(CamelCase, true, "button1")
    ensures Matches(CamelCase, true, "dataTable")
    ensures Matches(CamelCase, true, "myCustomComponent")
  {
  }

  lemma CamelInvalidExamples()
    ensures !Matches(CamelCase, true, "Button1")
    ensures !Matches(CamelCase, true, "data_table")
    ensures !Matches(CamelCase, true, "my-component")
  {
    assert "data_table"[4] == '_' && "my-component"[2] == '-';
  }

  lemma SnakeExamples()
    ensures Matches(SnakeCase, true, "button_1")
    ensures Matches(SnakeCase, true, "data_table")
    ensures Matches(SnakeCase, true, "my_custom_component")
  {
  }

  lemma SnakeInvalidExamples()
    ensures !Matches(SnakeCase, true, "Button1")
    ensures !Matches(SnakeCase, true, "dataTable")
    ensures !Matches(SnakeCase, true, "my-component")
  {
    assert "dataTable"[4] == 'T' && "my-component"[2] == '-';
  }

  lemma KebabExamples()
    ensures Matches(KebabCase, true, "button-1")
    ensures Matches(KebabCase, true, "data-table")
    ensures Matches(KebabCase, true, "my-custom-component")
  {
  }

  lemma KebabInvalidExamples()
    ensures !Matches(KebabCase, true, "Button1")
    ensures !Matches(KebabCase, true, "dataTable")
    ensures !Matches(KebabCase, true, "my_component")
  {
    assert "dataTable"[4] == 'T' && "my_component"[2] == '_';
  }

  lemma ScreamingExamples()
    ensures Matches(ScreamingSnakeCase, true, "BUTTON_1")
    ensures Matches(ScreamingSnakeCase, true, "DATA_TABLE")
    ensures Matches(ScreamingSnakeCase, true, "MY_CUSTOM_COMPONENT")
  {
  }

  lemma ScreamingInvalidExamples()
    ensures !Matches(ScreamingSnakeCase, true, "Button1")
    ensures !Matches(ScreamingSnakeCase, true, "dataTable")
    ensures !Matches(ScreamingSnakeCase, true, "my-component")
  {
    assert "Button1"[1] == 'u';
  }

  lemma TitleExamples()
    ensures Matches(TitleCase, true, "Button One")
    ensures Matches(TitleCase, true, "Data Table")
  {
    TitleJoin(["Button", "One"]);
    assert Join(" ", ["Button", "One"]) == "Button One";
    TitleJoin(["Data", "Table"]);
    assert Join(" ", ["Data", "Table"]) == "Data Table";
  }

  lemma TitleExampleThreeWords()
    ensures Matches(TitleCase, true, "My Custom Component")
  {
    TitleJoin(["My", "Custom", "Component"]);
    assert Join(" ", ["My", "Custom", "Component"]) == "My Custom Component";
  }

  lemma TitleInvalidExamples()
    ensures !Matches(TitleCase, true, "button one")
    ensures !Matches(TitleCase, true, "dataTable")
    ensures !Matches(TitleCase, true, "my-component")
  {
    assert "dataTable"[4] == 'T';
  }

  lemma LowerCaseExamples()
    ensures Matches(LowerCase, true, "button one")
    ensures Matches(LowerCase, true, "data table")
    ensures Matches(LowerCase, true, "my custom component")
  {
  }

  lemma LowerCaseInvalidExamples()
    ensures !Matches(LowerCase, true, "Button One")
    ensures !Matches(LowerCase, true, "dataTable")
    ensures !Matches(LowerCase, true, "my-component")
  {
    assert "dataTable"[4] == 'T' && "my-component"[2] == '-';
  }

  // ---------------------------------------------------------------------
  // Splitting names into words

  /** `[-_\s]` */
  predicate IsDelimiter(ch: char) {
    ch == '-' || ch == '_' || IsSpace(ch)
  }

  predicate HasDelimiter(s: string) {
    exists i :: 0 <= i < |s| && IsDelimiter(s[i])
  }

  /** The end of the run of non-separators starting at `i`. */
  function RunEnd(s: string, i: nat, sep: char -> bool): (e: nat)
    requires i <= |s|
    ensures i <= e <= |s|
    ensures e == |s| || sep(s[e])
    ensures i < |s| && !sep(s[i]) ==> i < e
    decreases |s| - i
  {
    if i == |s| || sep(s[i]) then i else RunEnd(s, i + 1, sep)
  }

  lemma {:induction false} RunEndFree(s: string, i: nat, sep: char -> bool, k: nat)
    requires i <= |s| && i <= k < RunEnd(s, i, sep)
    ensures !sep(s[k])
    decreases |s| - i
  {
    if k > i {
      RunEndFree(s, i + 1, sep, k);
    }
  }

  /** The maximal runs of non-separators of `s[i..]`: a split on separator runs with empty pieces dropped. */
  function TokensFrom(s: string, i: nat, sep: char -> bool): seq<string>
    requires i <= |s|
    decreases |s| - i
  {
    if i == |s| then []
    else if sep(s[i]) then TokensFrom(s, i + 1, sep)
    else [s[i..RunEnd(s, i, sep)]] + TokensFrom(s, RunEnd(s, i, sep), sep)
  }

  function Tokens(s: string, sep: char -> bool): seq<string> {
    TokensFrom(s, 0, sep)
  }

  predicate Free(t: string, sep: char -> bool) {
    forall k :: 0 <= k < |t| ==> !sep(t[k])
  }

  /** Tokens are non-empty and hold no separator. */
  lemma {:induction false} TokensFromSpec(s: string, i: nat, sep: char -> bool)
    requires i <= |s|
    ensures forall j :: 0 <= j < |TokensFrom(s, i, sep)| ==>
      TokensFrom(s, i, sep)[j] != [] && Free(TokensFrom(s, i, sep)[j], sep)
    decreases |s| - i
  {
    if i < |s| {
      if sep(s[i]) {
        TokensFromSpec(s, i + 1, sep);
      } else {
        var e := RunEnd(s, i, sep);
        TokensFromSpec(s, e, sep);
        forall k | 0 <= k < e - i ensures !sep(s[i..e][k]) {
          RunEndFree(s, i, sep, i + k);
        }
      }
    }
  }

  /** The end of the run of lower-case letters starting at `i`. */
  function LowerEnd(s: string, i: nat): (e: nat)
    requires i <= |s|
    ensures i <= e <= |s|
    ensures e == |s| || !IsLower(s[e])
    decreases |s| - i
  {
    if i == |s| || !IsLower(s[i]) then i else LowerEnd(s, i + 1)
  }

  lemma {:induction false} LowerEndLower(s: string, i: nat, k: nat)
    requires i <= |s| && i <= k < LowerEnd(s, i)
    ensures IsLower(s[k])
    decreases |s| - i
  {
    if k > i {
      LowerEndLower(s, i + 1, k);
    }
  }

  /** The run end is where the lower-case letters stop. */
  lemma {:induction false} LowerEndAt(s: string, i: nat, e: nat)
    requires i <= e <= |s|
    requires forall k :: i <= k < e ==> IsLower(s[k])
    requires e == |s| || !IsLower(s[e])
    ensures LowerEnd(s, i) == e
    decreases e - i
  {
    if i < e {
      LowerEndAt(s, i + 1, e);
    }
  }

  /**
   * `re.findall(r'[A-Z][a-z]*|[a-z]+|[A-Z]+(?=[A-Z][a-z]|$)', s[i..])`. The
   * first alternative matches at every capital, so the third never applies;
   * any other character is skipped.
   */
  function CamelFrom(s: string, i: nat): seq<string>
    requires i <= |s|
    decreases |s| - i
  {
    if i == |s| then []
    else if IsUpper(s[i]) then [s[i..LowerEnd(s, i + 1)]] + CamelFrom(s, LowerEnd(s, i + 1))
    else if IsLower(s[i]) then [s[i..LowerEnd(s, i)]] + CamelFrom(s, LowerEnd(s, i))
    else CamelFrom(s, i + 1)
  }

  function CamelParts(s: string): seq<string> {
    CamelFrom(s, 0)
  }

  /** A camel piece: one letter followed by lower-case letters only. */
  predicate CamelPiece(p: string) {
    |p| > 0 && IsAlpha(p[0]) && forall k :: 1 <= k < |p| ==> IsLower(p[k])
  }

  /** Every piece of the camel split is a letter and its lower-case tail: capitals are split one at a time. */
  lemma {:induction false} CamelFromPieces(s: string, i: nat)
    requires i <= |s|
    ensures forall j :: 0 <= j < |CamelFrom(s, i)| ==> CamelPiece(CamelFrom(s, i)[j])
    decreases |s| - i
  {
    if i < |s| {
      if IsUpper(s[i]) || IsLower(s[i]) {
        var e := if IsUpper(s[i]) then LowerEnd(s, i + 1) else LowerEnd(s, i);
        assert e > i by {
          if IsLower(s[i]) {
            assert LowerEnd(s, i) == LowerEnd(s, i + 1);
          }
        }
        CamelFromPieces(s, e);
        forall k | 1 <= k < e - i ensures IsLower(s[i..e][k]) {
          if IsUpper(s[i]) {
            LowerEndLower(s, i + 1, i + k);
          } else {
            LowerEndLower(s, i, i + k);
          }
        }
        assert CamelPiece(s[i..e]);
      } else {
        CamelFromPieces(s, i + 1);
      }
    }
  }

  /** The ASCII letters of `s[i..]`, in order. */
  function LettersFrom(s: string, i: nat): string
    requires i <= |s|
    decreases |s| - i
  {
    if i == |s| then [] else (if IsAlpha(s[i]) then [s[i]] else []) + LettersFrom(s, i + 1)
  }

  lemma {:induction false} LettersOfLowerRun(s: string, i: nat, e: nat)
    requires i <= e <= |s|
    requires forall k :: i <= k < e ==> IsLower(s[k])
    ensures LettersFrom(s, i) == s[i..e] + LettersFrom(s, e)
    decreases e - i
  {
    if i < e {
      LettersOfLowerRun(s, i + 1, e);
      assert IsAlpha(s[i]);
      assert LettersFrom(s, i) == [s[i]] + LettersFrom(s, i + 1);
      assert s[i..e] == [s[i]] + s[i + 1..e];
      assert LettersFrom(s, i) == [s[i]] + (s[i + 1..e] + LettersFrom(s, e));
    }
  }

  lemma JoinEmptyCons(p: string, ps: seq<string>)
    ensures Join("", [p] + ps) == p + Join("", ps)
  {
    if ps != [] {
      assert ([p] + ps)[1..] == ps;
    }
  }

  /** One camel piece `s[i..e]`: its letters, then those after it. */
  lemma CamelPieceLetters(s: string, i: nat, e: nat)
    requires i < e <= |s| && IsAlpha(s[i])
    requires forall k :: i + 1 <= k < e ==> IsLower(s[k])
    ensures LettersFrom(s, i) == s[i..e] + LettersFrom(s, e)
  {
    LettersOfLowerRun(s, i + 1, e);
    assert s[i..e] == [s[i]] + s[i + 1..e];
  }

  /** The camel split keeps exactly the letters, in order: digits and other characters are dropped. */
  lemma {:induction false} CamelFromLetters(s: string, i: nat)
    requires i <= |s|
    ensures Join("", CamelFrom(s, i)) == LettersFrom(s, i)
    decreases |s| - i
  {
    if i < |s| {
      if IsUpper(s[i]) || IsLower(s[i]) {
        var e := if IsUpper(s[i]) then LowerEnd(s, i + 1) else LowerEnd(s, i);
        assert CamelFrom(s, i) == [s[i..e]] + CamelFrom(s, e);
        forall k | i + 1 <= k < e ensures IsLower(s[k]) {
          if IsUpper(s[i]) {
            LowerEndLower(s, i + 1, k);
          } else {
            LowerEndLower(s, i, k);
          }
        }
        assert e > i by {
          if IsLower(s[i]) {
            assert LowerEnd(s, i) == LowerEnd(s, i + 1);
          }
        }
        CamelFromLetters(s, e);
        CamelPieceLetters(s, i, e);
        JoinEmptyCons(s[i..e], CamelFrom(s, e));
      } else {
        CamelFromLetters(s, i + 1);
      }
    }
  }

  /**
   * `_split_name_into_parts`: split the stripped name on delimiter runs; a
   * name with no delimiter is split camel-style when that gives more than
   * one piece; empty pieces are dropped.
   */
  function SplitParts(name: string): seq<string> {
    var t := Strip(name);
    if HasDelimiter(t) || t == [] then Tokens(t, IsDelimiter)
    else if |CamelParts(name)| > 1 then CamelParts(name)
    else [t]
  }

  /** Every word of a split is non-empty and holds no delimiter. */
  lemma SplitPartsSpec(name: string)
    ensures forall j :: 0 <= j < |SplitParts(name)| ==>
      SplitParts(name)[j] != [] && Free(SplitParts(name)[j], IsDelimiter)
  {
    var t := Strip(name);
    if HasDelimiter(t) || t == [] {
      TokensFromSpec(t, 0, IsDelimiter);
    } else if |CamelParts(name)| > 1 {
      CamelFromPieces(name, 0);
      forall j | 0 <= j < |CamelParts(name)|
        ensures Free(CamelParts(name)[j], IsDelimiter)
      {
        var p := CamelParts(name)[j];
        assert CamelPiece(p);
        forall k | 0 <= k < |p| ensures !IsDelimiter(p[k]) {
          if k > 0 {
            assert IsLower(p[k]);
          }
        }
      }
    }
  }

  /** 'XMLParser' splits into its three capitals and 'Parser'. */
  lemma SplitAcronym()
    ensures SplitParts("XMLParser") == ["X", "M", "L", "Parser"]
  {
    var s := "XMLParser";
    assert Strip(s) == s;
    assert !HasDelimiter(s);
    LowerEndAt(s, 1, 1);
    LowerEndAt(s, 2, 2);
    LowerEndAt(s, 3, 3);
    LowerEndAt(s, 4, 9);
    assert CamelFrom(s, 9) == [];
    assert s[3..9] == "Parser" && s[2..3] == "L" && s[1..2] == "M" && s[0..1] == "X";
    assert CamelFrom(s, 3) == ["Parser"];
    assert CamelFrom(s, 2) == ["L", "Parser"];
    assert CamelFrom(s, 1) == ["M", "L", "Parser"];
    assert CamelFrom(s, 0) == ["X", "M", "L", "Parser"];
  }

  /** A single word whose camel split has one piece is kept whole, digits included. */
  lemma SplitKeepsDigits()
    ensures SplitParts("Button1") == ["Button1"]
  {
    var s := "Button1";
    assert Strip(s) == s;
    assert !HasDelimiter(s);
    LowerEndAt(s, 1, 6);
    assert CamelFrom(s, 6) == CamelFrom(s, 7) == [];
    assert s[0..6] == "Button";
    assert CamelFrom(s, 0) == ["Button"];
  }

  // ---------------------------------------------------------------------
  // str.replace and abbreviation processing

  /** `s.replace("", rep)`: `rep` before every character and at the end. */
  function Interleave(s: string, rep: string): string {
    if s == [] then rep else rep + [s[0]] + Interleave(s[1..], rep)
  }

  /** `s.replace(pat, rep)`, including the empty pattern. */
  function PyReplace(s: string, pat: string, rep: string): string {
    if pat == [] then Interleave(s, rep) else Escapes.Replace(s, pat, rep)
  }

  /** `for variation in variations: if variation in name: name = name.replace(variation, target)` */
  function ReplaceEach(name: string, variations: seq<string>, target: string): string {
    if variations == [] then name
    else
      var prev := ReplaceEach(name, variations[..|variations| - 1], target);
      var v := variations[|variations| - 1];
      if Contains(prev, v) then PyReplace(prev, v, target) else prev
  }

  function Variations(abbrev: string): seq<string> {
    [Upper(abbrev), Lower(abbrev), Capitalize(abbrev)]
  }

  /** `_adjust_abbreviation_for_camel_case` */
  function AdjustCamel(name: string, abbrev: string): string {
    ReplaceEach(name, Variations(abbrev), Upper(abbrev))
  }

  /** The words of `_adjust_abbreviation_for_title_case`. */
  function TitleWords(abbrev: string, words: seq<string>): (r: seq<string>)
    ensures |r| == |words|
  {
    if words == [] then []
    else
      var w := words[|words| - 1];
      TitleWords(abbrev, words[..|words| - 1]) + [if Upper(w) == Upper(abbrev) then Upper(abbrev) else w]
  }

  /** `_adjust_abbreviation_for_title_case`: words equal to the abbreviation up to case become upper case. */
  function AdjustTitle(name: string, abbrev: string): string {
    Join(" ", TitleWords(abbrev, Tokens(name, IsSpace)))
  }

  /**
   * One iteration of the loop of `_process_abbreviations`: the test looks
   * for the abbreviation in the upper-cased original name, the change
   * applies to the name processed so far.
   */
  function AbbrevStep(conv: Option<Convention>, name: string, processed: string, abbrev: string): string {
    if !Contains(Upper(name), abbrev) then processed
    else match conv
      case Some(PascalCase) => AdjustCamel(processed, abbrev)
      case Some(CamelCase) => AdjustCamel(processed, abbrev)
      case Some(SnakeCase) => PyReplace(PyReplace(processed, Upper(abbrev), Lower(abbrev)), Lower(abbrev), Lower(abbrev))
      case Some(KebabCase) => PyReplace(PyReplace(processed, Upper(abbrev), Lower(abbrev)), Lower(abbrev), Lower(abbrev))
      case Some(ScreamingSnakeCase) => Upper(processed)
      case Some(TitleCase) => AdjustTitle(processed, abbrev)
      case Some(LowerCase) => Lower(processed)
      case None => processed
  }

  /** The loop of `_process_abbreviations` over the abbreviations in `order`. */
  function Processed(conv: Option<Convention>, name: string, order: seq<string>): string {
    if order == [] then name
    else AbbrevStep(conv, name, Processed(conv, name, order[..|order| - 1]), order[|order| - 1])
  }

  /**
   * An abbreviation with a lower-case letter ('iOS', 'macOS') never occurs
   * in an upper-cased name, so it never changes anything.
   */
  lemma LowercaseAbbrevInert(conv: Option<Convention>, name: string, processed: string, abbrev: string, k: nat)
    requires k < |abbrev| && IsLower(abbrev[k])
    ensures AbbrevStep(conv, name, processed, abbrev) == processed
  {
  }

  /** Lower-casing forgets what upper-casing, capitalising or lower-casing did. */
  lemma LowerOfUpper(s: string)
    ensures Lower(Upper(s)) == Lower(s)
  {
    assert forall i :: 0 <= i < |s| ==> Lower(Upper(s))[i] == LowerChar(UpperChar(s[i]));
  }

  lemma LowerOfCapitalize(s: string)
    ensures Lower(Capitalize(s)) == Lower(s)
  {
    var c := Capitalize(s);
    forall i | 0 <= i < |s| ensures Lower(c)[i] == Lower(s)[i] {
      if i > 0 {
        assert c[i] == c[1..][i - 1] == Lower(s[1..])[i - 1];
      }
    }
  }

  lemma LowerOfLower(s: string)
    ensures Lower(Lower(s)) == Lower(s)
  {
    assert forall i :: 0 <= i < |s| ==> Lower(Lower(s))[i] == LowerChar(LowerChar(s[i]));
  }

  lemma InterleaveNothing(s: string)
    ensures Interleave(s, "") == s
  {
  }

  /** Replacing `pat` by a text that differs from it only in letter case changes only letter case. */
  lemma {:induction false} ReplaceCaseOnly(s: string, pat: string, rep: string)
    requires pat != [] && |rep| == |pat| && Lower(rep) == Lower(pat)
    ensures Lower(Escapes.Replace(s, pat, rep)) == Lower(s)
    decreases |s|
  {
    if StartsWith(s, pat) {
      ReplaceCaseOnly(s[|pat|..], pat, rep);
      LowerAppend(rep, Escapes.Replace(s[|pat|..], pat, rep));
      assert s == pat + s[|pat|..];
      LowerAppend(pat, s[|pat|..]);
    } else if s != [] {
      ReplaceCaseOnly(s[1..], pat, rep);
      LowerAppend([s[0]], Escapes.Replace(s[1..], pat, rep));
      assert s == [s[0]] + s[1..];
      LowerAppend([s[0]], s[1..]);
    }
  }

  lemma PyReplaceCaseOnly(s: string, pat: string, rep: string)
    requires |rep| == |pat| && Lower(rep) == Lower(pat)
    ensures Lower(PyReplace(s, pat, rep)) == Lower(s)
  {
    if pat == [] {
      InterleaveNothing(s);
    } else {
      ReplaceCaseOnly(s, pat, rep);
    }
  }

  lemma {:induction false} ReplaceEachCaseOnly(name: string, vs: seq<string>, target: string)
    requires forall j :: 0 <= j < |vs| ==> |vs[j]| == |target| && Lower(vs[j]) == Lower(target)
    ensures Lower(ReplaceEach(name, vs, target)) == Lower(name)
  {
    if vs != [] {
      ReplaceEachCaseOnly(name, vs[..|vs| - 1], target);
      var prev := ReplaceEach(name, vs[..|vs| - 1], target);
      if Contains(prev, vs[|vs| - 1]) {
        PyReplaceCaseOnly(prev, vs[|vs| - 1], target);
      }
    }
  }

  /** The two replacements of the snake and kebab branch. */
  lemma SnakeStepCaseOnly(processed: string, abbrev: string)
    ensures Lower(PyReplace(PyReplace(processed, Upper(abbrev), Lower(abbrev)), Lower(abbrev), Lower(abbrev))) == Lower(processed)
  {
    LowerOfUpper(abbrev);
    LowerOfLower(abbrev);
    PyReplaceCaseOnly(processed, Upper(abbrev), Lower(abbrev));
    PyReplaceCaseOnly(PyReplace(processed, Upper(abbrev), Lower(abbrev)), Lower(abbrev), Lower(abbrev));
  }

  lemma AdjustCamelCaseOnly(processed: string, abbrev: string)
    ensures Lower(AdjustCamel(processed, abbrev)) == Lower(processed)
  {
    LowerOfUpper(abbrev);
    LowerOfLower(abbrev);
    LowerOfCapitalize(abbrev);
    ReplaceEachCaseOnly(processed, Variations(abbrev), Upper(abbrev));
  }

  lemma AbbrevStepCaseOnly(conv: Option<Convention>, name: string, processed: string, abbrev: string)
    requires conv != Some(TitleCase)
    ensures Lower(AbbrevStep(conv, name, processed, abbrev)) == Lower(processed)
  {
    if Contains(Upper(name), abbrev) {
      match conv
      case Some(PascalCase) => AdjustCamelCaseOnly(processed, abbrev);
      case Some(CamelCase) => AdjustCamelCaseOnly(processed, abbrev);
      case Some(SnakeCase) => SnakeStepCaseOnly(processed, abbrev);
      case Some(KebabCase) => SnakeStepCaseOnly(processed, abbrev);
      case Some(ScreamingSnakeCase) => LowerOfUpper(processed);
      case Some(LowerCase) => LowerOfLower(processed);
      case None =>
    }
  }

  /**
   * Under every convention but Title Case, abbreviation processing only
   * changes the case of letters: the lower-cased name is unchanged.
   */
  lemma {:induction false} ProcessedCaseOnly(conv: Option<Convention>, name: string, order: seq<string>)
    requires conv != Some(TitleCase)
    ensures Lower(Processed(conv, name, order)) == Lower(name)
  {
    if order != [] {
      ProcessedCaseOnly(conv, name, order[..|order| - 1]);
      AbbrevStepCaseOnly(conv, name, Processed(conv, name, order[..|order| - 1]), order[|order| - 1]);
    }
  }

  /** With no abbreviation occurring in the upper-cased name, processing changes nothing. */
  lemma {:induction false} ProcessedIdle(conv: Option<Convention>, name: string, order: seq<string>)
    requires forall j :: 0 <= j < |order| ==> !Contains(Upper(name), order[j])
    ensures Processed(conv, name, order) == name
  {
    if order != [] {
      ProcessedIdle(conv, name, order[..|order| - 1]);
    }
  }

  // ---------------------------------------------------------------------
  // Case conversions (`_to_*_case`)

  /** A word of a Pascal, camel (after the first) or Title result. */
  function CapitalWord(abbrevs: set<string>, p: string): string {
    if Upper(p) in abbrevs then Upper(p) else Capitalize(p)
  }

  /** The first word of a camel result. */
  function FirstCamelWord(abbrevs: set<string>, p: string): string {
    if Upper(p) in abbrevs then Upper(p) else Lower(p)
  }

  function CapitalWords(abbrevs: set<string>, parts: seq<string>): (r: seq<string>)
    ensures |r| == |parts|
  {
    if parts == [] then [] else CapitalWords(abbrevs, parts[..|parts| - 1]) + [CapitalWord(abbrevs, parts[|parts| - 1])]
  }

  function LowerWords(parts: seq<string>): (r: seq<string>)
    ensures |r| == |parts|
  {
    if parts == [] then [] else LowerWords(parts[..|parts| - 1]) + [Lower(parts[|parts| - 1])]
  }

  lemma {:induction false} CapitalWordsSpec(abbrevs: set<string>, parts: seq<string>)
    ensures forall j :: 0 <= j < |parts| ==> CapitalWords(abbrevs, parts)[j] == CapitalWord(abbrevs, parts[j])
  {
    if parts != [] {
      CapitalWordsSpec(abbrevs, parts[..|parts| - 1]);
    }
  }

  lemma {:induction false} LowerWordsSpec(parts: seq<string>)
    ensures forall j :: 0 <= j < |parts| ==> LowerWords(parts)[j] == Lower(parts[j])
  {
    if parts != [] {
      LowerWordsSpec(parts[..|parts| - 1]);
    }
  }

  function ToPascal(abbrevs: set<string>, name: string): string {
    Join("", CapitalWords(abbrevs, SplitParts(name)))
  }

  function ToCamel(abbrevs: set<string>, name: string): string {
    var parts := SplitParts(name);
    if parts == [] then "" else Join("", [FirstCamelWord(abbrevs, parts[0])] + CapitalWords(abbrevs, parts[1..]))
  }

  function ToSnake(name: string): string {
    Join("_", LowerWords(SplitParts(name)))
  }

  function ToKebab(name: string): string {
    Join("-", LowerWords(SplitParts(name)))
  }

  function ToTitle(abbrevs: set<string>, name: string): string {
    Join(" ", CapitalWords(abbrevs, SplitParts(name)))
  }

  function ToLowerCase(name: string): string {
    Join(" ", LowerWords(SplitParts(name)))
  }

  /** The suggestion of `_suggest_name` for a predefined convention. */
  function Suggest(c: Convention, abbrevs: set<string>, name: string): string {
    match c
    case PascalCase => ToPascal(abbrevs, name)
    case CamelCase => ToCamel(abbrevs, name)
    case SnakeCase => ToSnake(name)
    case KebabCase => ToKebab(name)
    case ScreamingSnakeCase => Upper(ToSnake(name))
    case TitleCase => ToTitle(abbrevs, name)
    case LowerCase => ToLowerCase(name)
  }

  /** Every character of a join satisfies `P` when those of the separator and of every part do. */
  lemma {:induction false} JoinChars(sep: string, ps: seq<string>, P: char -> bool)
    requires forall k :: 0 <= k < |sep| ==> P(sep[k])
    requires forall j, k :: 0 <= j < |ps| && 0 <= k < |ps[j]| ==> P(ps[j][k])
    ensures forall i :: 0 <= i < |Join(sep, ps)| ==> P(Join(sep, ps)[i])
  {
    if |ps| > 1 {
      JoinChars(sep, ps[1..], P);
      var rest := Join(sep, ps[1..]);
      assert Join(sep, ps) == ps[0] + sep + rest;
      forall i | 0 <= i < |Join(sep, ps)| ensures P(Join(sep, ps)[i]) {
        if i < |ps[0]| {
          assert Join(sep, ps)[i] == ps[0][i];
        } else if i < |ps[0]| + |sep| {
          assert Join(sep, ps)[i] == sep[i - |ps[0]|];
        } else {
          assert Join(sep, ps)[i] == rest[i - |ps[0]| - |sep|];
        }
      }
    } else if |ps| == 1 {
      assert Join(sep, ps) == ps[0];
    }
  }

  lemma JoinFirst(sep: string, ps: seq<string>)
    requires |ps| > 0 && |ps[0]| > 0
    ensures |Join(sep, ps)| > 0 && Join(sep, ps)[0] == ps[0][0]
  {
    if |ps| > 1 {
      assert Join(sep, ps) == ps[0] + sep + Join(sep, ps[1..]);
    }
  }

  predicate IsAlphaChar(ch: char) { IsAlpha(ch) }

  /** The words of a name are made of letters and there is at least one. */
  predicate Alphabetic(name: string) {
    var parts := SplitParts(name);
    |parts| > 0 && forall j, k :: 0 <= j < |parts| && 0 <= k < |parts[j]| ==> IsAlpha(parts[j][k])
  }

  predicate SnakeChar(ch: char) { IsLower(ch) || ch == '_' }
  predicate KebabChar(ch: char) { IsLower(ch) || ch == '-' }
  predicate LowerSpaceChar(ch: char) { IsLower(ch) || IsSpace(ch) }

  lemma LowerWordsLetters(parts: seq<string>)
    requires forall j, k :: 0 <= j < |parts| && 0 <= k < |parts[j]| ==> IsAlpha(parts[j][k])
    ensures forall j, k :: 0 <= j < |parts| && 0 <= k < |LowerWords(parts)[j]| ==> IsLower(LowerWords(parts)[j][k])
    ensures forall j, k :: 0 <= j < |parts| && 0 <= k < |LowerWords(parts)[j]| ==> SnakeChar(LowerWords(parts)[j][k])
    ensures forall j, k :: 0 <= j < |parts| && 0 <= k < |LowerWords(parts)[j]| ==> KebabChar(LowerWords(parts)[j][k])
    ensures forall j, k :: 0 <= j < |parts| && 0 <= k < |LowerWords(parts)[j]| ==> LowerSpaceChar(LowerWords(parts)[j][k])
  {
    LowerWordsSpec(parts);
  }

  lemma CapitalWordsLetters(abbrevs: set<string>, parts: seq<string>)
    requires forall j, k :: 0 <= j < |parts| && 0 <= k < |parts[j]| ==> IsAlpha(parts[j][k])
    ensures forall j, k :: 0 <= j < |parts| && 0 <= k < |CapitalWords(abbrevs, parts)[j]| ==>
      IsAlphaChar(CapitalWords(abbrevs, parts)[j][k])
  {
    CapitalWordsSpec(abbrevs, parts);
    forall j, k | 0 <= j < |parts| && 0 <= k < |CapitalWords(abbrevs, parts)[j]|
      ensures IsAlphaChar(CapitalWords(abbrevs, parts)[j][k])
    {
      var p := parts[j];
      assert IsAlpha(p[k]);
      if k > 0 {
        assert Capitalize(p)[k] == Lower(p[1..])[k - 1] == LowerChar(p[k]);
      }
    }
  }

  /** For a name made of letters, the Pascal suggestion follows PascalCase. */
  lemma PascalSuggestionConforms(abbrevs: set<string>, name: string)
    requires Alphabetic(name)
    ensures Matches(PascalCase, true, Suggest(PascalCase, abbrevs, name))
  {
    var parts := SplitParts(name);
    SplitPartsSpec(name);
    var ws := CapitalWords(abbrevs, parts);
    CapitalWordsSpec(abbrevs, parts);
    CapitalWordsLetters(abbrevs, parts);
    JoinChars("", ws, IsAlphaChar);
    JoinFirst("", ws);
    assert Body(PascalCase, true, Join("", ws));
  }

  /** For a name made of letters, the snake and the SCREAMING suggestions follow their conventions. */
  lemma SnakeSuggestionConforms(abbrevs: set<string>, name: string)
    requires Alphabetic(name)
    ensures Matches(SnakeCase, true, Suggest(SnakeCase, abbrevs, name))
    ensures Matches(ScreamingSnakeCase, true, Suggest(ScreamingSnakeCase, abbrevs, name))
  {
    var parts := SplitParts(name);
    SplitPartsSpec(name);
    var ws := LowerWords(parts);
    LowerWordsSpec(parts);
    LowerWordsLetters(parts);
    JoinChars("_", ws, SnakeChar);
    JoinFirst("_", ws);
    var s := Join("_", ws);
    assert Body(SnakeCase, true, s);
    assert forall i :: 0 <= i < |s| ==> Upper(s)[i] == UpperChar(s[i]);
    assert Body(ScreamingSnakeCase, true, Upper(s));
  }

  /** For a name made of letters, the kebab suggestion follows kebab-case. */
  lemma KebabSuggestionConforms(abbrevs: set<string>, name: string)
    requires Alphabetic(name)
    ensures Matches(KebabCase, true, Suggest(KebabCase, abbrevs, name))
  {
    var parts := SplitParts(name);
    SplitPartsSpec(name);
    var ws := LowerWords(parts);
    LowerWordsSpec(parts);
    LowerWordsLetters(parts);
    JoinChars("-", ws, KebabChar);
    JoinFirst("-", ws);
    assert Body(KebabCase, true, Join("-", ws));
  }

  /** For a name made of letters, the lower case suggestion follows lower case. */
  lemma LowerCaseSuggestionConforms(abbrevs: set<string>, name: string)
    requires Alphabetic(name)
    ensures Matches(LowerCase, true, Suggest(LowerCase, abbrevs, name))
  {
    var parts := SplitParts(name);
    SplitPartsSpec(name);
    var ws := LowerWords(parts);
    LowerWordsSpec(parts);
    LowerWordsLetters(parts);
    JoinChars(" ", ws, LowerSpaceChar);
    JoinFirst(" ", ws);
    assert Body(LowerCase, true, Join(" ", ws));
  }

  /** The camel suggestion follows camelCase when its first word is not an abbreviation. */
  lemma CamelSuggestionConforms(abbrevs: set<string>, name: string)
    requires Alphabetic(name)
    requires Upper(SplitParts(name)[0]) !in abbrevs
    ensures Matches(CamelCase, true, Suggest(CamelCase, abbrevs, name))
  {
    var parts := SplitParts(name);
    SplitPartsSpec(name);
    var rest := CapitalWords(abbrevs, parts[1..]);
    CapitalWordsLetters(abbrevs, parts[1..]);
    var ws := [Lower(parts[0])] + rest;
    forall j, k | 0 <= j < |ws| && 0 <= k < |ws[j]| ensures IsAlphaChar(ws[j][k]) {
      if j == 0 {
        assert IsAlpha(parts[0][k]);
      } else {
        assert ws[j] == rest[j - 1];
      }
    }
    JoinChars("", ws, IsAlphaChar);
    JoinFirst("", ws);
    assert Body(CamelCase, true, Join("", ws));
  }

  /** A camel suggestion whose first word is an abbreviation starts with a capital and so breaks camelCase. */
  lemma CamelSuggestionAbbrevFirst(abbrevs: set<string>, name: string)
    requires Alphabetic(name)
    requires Upper(SplitParts(name)[0]) in abbrevs
    ensures !Matches(CamelCase, true, Suggest(CamelCase, abbrevs, name))
  {
    var parts := SplitParts(name);
    SplitPartsSpec(name);
    var ws := [Upper(parts[0])] + CapitalWords(abbrevs, parts[1..]);
    JoinFirst("", ws);
    var s := Join("", ws);
    assert IsUpper(s[0]);
    if |s| > 1 {
      assert s[..|s| - 1][0] == s[0];
    }
  }

  /** A Title Case word: a capital and lower-case letters. */
  predicate TitleWord(w: string) {
    |w| > 0 && IsUpper(w[0]) && forall k :: 1 <= k < |w| ==> IsLower(w[k])
  }

  lemma {:induction false} TitleJoin(ws: seq<string>)
    requires |ws| > 0 && forall j :: 0 <= j < |ws| ==> TitleWord(ws[j])
    ensures Body(TitleCase, true, Join(" ", ws))
  {
    if |ws| == 1 {
      var w := ws[0];
      assert Join(" ", ws) == w;
      forall i | 0 <= i < |w| - 1 ensures SpaceBeforeCapital(w, i) {
        assert IsLower(w[i + 1]);
      }
    } else {
      TitleJoin(ws[1..]);
      var w := ws[0];
      var rest := Join(" ", ws[1..]);
      var s := w + " " + rest;
      assert Join(" ", ws) == s;
      assert TitleShape(rest);
      forall i | 1 <= i < |s| ensures RestChar(TitleCase, true, s[i]) {
        if i < |w| {
          assert s[i] == w[i];
        } else if i > |w| {
          assert s[i] == rest[i - |w| - 1];
          if i - |w| - 1 > 0 {
            assert RestChar(TitleCase, true, rest[i - |w| - 1]);
          }
        }
      }
      forall i | 0 <= i < |s| - 1 ensures SpaceBeforeCapital(s, i) {
        if i < |w| - 1 {
          assert s[i] == w[i] && s[i + 1] == w[i + 1];
          assert IsLower(w[i + 1]);
        } else if i == |w| - 1 {
          assert s[i + 1] == ' ';
        } else if i == |w| {
          assert s[i + 1] == rest[0];
        } else {
          assert SpaceBeforeCapital(rest, i - |w| - 1);
          assert s[i] == rest[i - |w| - 1] && s[i + 1] == rest[i - |w|];
        }
      }
      assert s[|s| - 1] == rest[|rest| - 1];
    }
  }

  /** The Title Case suggestion follows Title Case when no word is an abbreviation. */
  lemma TitleSuggestionConforms(abbrevs: set<string>, name: string)
    requires Alphabetic(name)
    requires forall j :: 0 <= j < |SplitParts(name)| ==> Upper(SplitParts(name)[j]) !in abbrevs
    ensures Matches(TitleCase, true, Suggest(TitleCase, abbrevs, name))
  {
    var parts := SplitParts(name);
    SplitPartsSpec(name);
    var ws := CapitalWords(abbrevs, parts);
    CapitalWordsSpec(abbrevs, parts);
    forall j | 0 <= j < |ws| ensures TitleWord(ws[j]) {
      var p := parts[j];
      assert ws[j] == Capitalize(p);
      assert IsAlpha(p[0]);
      forall k | 1 <= k < |p| ensures IsLower(Capitalize(p)[k]) {
        assert IsAlpha(p[k]);
        assert Capitalize(p)[k] == Lower(p[1..])[k - 1];
      }
    }
    TitleJoin(ws);
  }
}
