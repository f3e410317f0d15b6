/**
 * Python `str` operations the linter relies on, written over `seq<char>`.
 * Case mapping and whitespace are ASCII only.
 */
module PyStr {

  /** `s.startswith(p)` */
  predicate StartsWith(s: string, p: string) {
    |p| <= |s| && s[..|p|] == p
  }

  /** `s.endswith(p)` */
  predicate EndsWith(s: string, p: string) {
    |p| <= |s| && s[|s| - |p|..] == p
  }

  /** `p` occurs in `s` starting at index `i`. */
  predicate OccursAt(s: string, p: string, i: int) {
    0 <= i && i + |p| <= |s| && s[i..i + |p|] == p
  }

  /** `p in s` */
  predicate Contains(s: string, p: string) {
    exists i :: 0 <= i <= |s| && OccursAt(s, p, i)
  }

  lemma StartsWithOccurs(s: string, p: string)
    ensures StartsWith(s, p) <==> OccursAt(s, p, 0)
  {
  }

  lemma EndsWithOccurs(s: string, p: string)
    ensures EndsWith(s, p) <==> OccursAt(s, p, |s| - |p|)
  {
  }

  /** `p` occurs in `s` at `i`, seen from a longer string `s + t`. */
  lemma OccursAtPrefix(s: string, t: string, p: string, i: int)
    requires OccursAt(s, p, i)
    ensures OccursAt(s + t, p, i)
  {
    assert (s + t)[i..i + |p|] == s[i..i + |p|];
  }

  /** An occurrence shifts with a prepended prefix. */
  lemma OccursAtShift(u: string, s: string, p: string, i: int)
    requires 0 <= i
    ensures OccursAt(s, p, i) <==> OccursAt(u + s, p, |u| + i)
  {
    if 0 <= i && i + |p| <= |s| {
      assert (u + s)[|u| + i..|u| + i + |p|] == s[i..i + |p|];
    }
  }

  /** Leftmost occurrence of `p` at an index `>= i`, or -1. */
  function FindFrom(s: string, p: string, i: nat): (r: int)
    decreases |s| - i
    ensures r == -1 || (i <= r && OccursAt(s, p, r))
  {
    if i + |p| > |s| then -1
    else if s[i..i + |p|] == p then i
    else FindFrom(s, p, i + 1)
  }

  /** No occurrence at or after `i` comes before the one found. */
  lemma {:induction false} FindFromLeftmost(s: string, p: string, i: nat)
    decreases |s| - i
    ensures FindFrom(s, p, i) == -1 ==> forall j :: i <= j ==> !OccursAt(s, p, j)
    ensures FindFrom(s, p, i) != -1 ==> forall j :: i <= j < FindFrom(s, p, i) ==> !OccursAt(s, p, j)
  {
    if i + |p| <= |s| && s[i..i + |p|] != p {
      FindFromLeftmost(s, p, i + 1);
    }
  }

  /** `s.find(p)` */
  function Find(s: string, p: string): (r: int)
    ensures r != -1 ==> OccursAt(s, p, r)
  {
    FindFrom(s, p, 0)
  }

  /** `find` fails exactly when `p` does not occur, and otherwise gives the first occurrence. */
  lemma FindSpec(s: string, p: string)
    ensures Find(s, p) == -1 <==> !Contains(s, p)
    ensures Find(s, p) != -1 ==> forall j :: 0 <= j < Find(s, p) ==> !OccursAt(s, p, j)
  {
    FindFromLeftmost(s, p, 0);
  }

  /** Rightmost occurrence of `p` at an index `<= i`, or -1. */
  function RFindAtMost(s: string, p: string, i: int): (r: int)
    decreases i + 1
    ensures r == -1 || (r <= i && OccursAt(s, p, r))
  {
    if i < 0 then -1
    else if OccursAt(s, p, i) then i
    else RFindAtMost(s, p, i - 1)
  }

  /** No occurrence at or before `i` comes after the one found. */
  lemma {:induction false} RFindAtMostRightmost(s: string, p: string, i: int)
    decreases i + 1
    ensures forall j :: RFindAtMost(s, p, i) < j <= i ==> !OccursAt(s, p, j)
  {
    if i >= 0 && !OccursAt(s, p, i) {
      RFindAtMostRightmost(s, p, i - 1);
    }
  }

  /** `s.rfind(p)` */
  function RFind(s: string, p: string): (r: int)
    ensures r != -1 ==> OccursAt(s, p, r)
  {
    RFindAtMost(s, p, |s| - |p|)
  }

  /** `rfind` fails exactly when `p` does not occur, and otherwise gives the last occurrence. */
  lemma RFindSpec(s: string, p: string)
    ensures RFind(s, p) == -1 <==> !Contains(s, p)
    ensures RFind(s, p) != -1 ==> forall j :: RFind(s, p) < j ==> !OccursAt(s, p, j)
  {
    RFindAtMostRightmost(s, p, |s| - |p|);
  }

  /** `s.split(sep)[0]`: the text before the first `sep`, or all of `s`. */
  function BeforeFirst(s: string, sep: string): (r: string)
    requires sep != []
    ensures StartsWith(s, r)
  {
    var k := Find(s, sep);
    if k == -1 then s else s[..k]
  }

  /** The text before the first `sep` is all of `s` when there is none, else ends at the first one. */
  lemma BeforeFirstSpec(s: string, sep: string)
    requires sep != []
    ensures !Contains(s, sep) ==> BeforeFirst(s, sep) == s
    ensures Contains(s, sep) ==> (OccursAt(s, sep, |BeforeFirst(s, sep)|)
      && forall j :: 0 <= j < |BeforeFirst(s, sep)| ==> !OccursAt(s, sep, j))
  {
    FindSpec(s, sep);
  }

  /** `s.rsplit(sep, 1)[0]`: the text before the last `sep`, or all of `s`. */
  function BeforeLast(s: string, sep: string): (r: string)
    requires sep != []
    ensures StartsWith(s, r)
  {
    var k := RFind(s, sep);
    if k == -1 then s else s[..k]
  }

  /** The text before the last `sep` is all of `s` when there is none, else ends at the last one. */
  lemma BeforeLastSpec(s: string, sep: string)
    requires sep != []
    ensures !Contains(s, sep) ==> BeforeLast(s, sep) == s
    ensures Contains(s, sep) ==> (OccursAt(s, sep, |BeforeLast(s, sep)|)
      && forall j :: |BeforeLast(s, sep)| < j ==> !OccursAt(s, sep, j))
  {
    RFindSpec(s, sep);
  }

  /** `s.rsplit(sep, 1)[-1]`, and `s.split(sep)[-1]` for a one-character `sep` (`SplitLast`). */
  function AfterLast(s: string, sep: string): (r: string)
    requires sep != []
    ensures EndsWith(s, r)
  {
    var k := RFind(s, sep);
    if k == -1 then s else s[k + |sep|..]
  }

  /** The text after the last `sep` is all of `s` when there is none, else starts past the last one. */
  lemma AfterLastSpec(s: string, sep: string)
    requires sep != []
    ensures !Contains(s, sep) ==> AfterLast(s, sep) == s
    ensures Contains(s, sep) ==> (OccursAt(s, sep, |s| - |AfterLast(s, sep)| - |sep|)
      && forall j :: |s| - |AfterLast(s, sep)| - |sep| < j ==> !OccursAt(s, sep, j))
  {
    RFindSpec(s, sep);
  }

  /** The last piece of a split holds no separator. */
  lemma AfterLastFree(s: string, sep: string)
    requires sep != []
    ensures !Contains(AfterLast(s, sep), sep)
  {
    var r := AfterLast(s, sep);
    AfterLastSpec(s, sep);
    var u := s[..|s| - |r|];
    assert s == u + r;
    forall k | 0 <= k <= |r|
      ensures !OccursAt(r, sep, k)
    {
      OccursAtShift(u, r, sep, k);
    }
  }

  /** When `s` ends with `suffix`, its last occurrence is that suffix. */
  lemma BeforeLastOfSuffix(s: string, suffix: string)
    requires suffix != [] && EndsWith(s, suffix)
    ensures BeforeLast(s, suffix) == s[..|s| - |suffix|]
  {
    assert OccursAt(s, suffix, |s| - |suffix|);
  }

  /** `s.split(sep)`: the pieces between occurrences of `sep`, found left to right without overlap. */
  function Split(s: string, sep: string): (r: seq<string>)
    requires sep != []
    ensures |r| >= 1 && r[0] == BeforeFirst(s, sep)
    decreases |s|
  {
    var k := Find(s, sep);
    if k == -1 then [s] else [s[..k]] + Split(s[k + |sep|..], sep)
  }

  /** There is a second piece exactly when the separator occurs. */
  lemma SplitPieces(s: string, sep: string)
    requires sep != []
    ensures |Split(s, sep)| >= 2 <==> Contains(s, sep)
  {
    FindSpec(s, sep);
  }

  /** `sep.join(parts)` */
  function Join(sep: string, parts: seq<string>): (r: string)
    ensures |parts| == 1 ==> r == parts[0]
  {
    if |parts| == 0 then ""
    else if |parts| == 1 then parts[0]
    else parts[0] + sep + Join(sep, parts[1..])
  }

  // ---------------------------------------------------------------------
  // Splitting on a one-character separator.

  /** An occurrence cuts the text into what precedes it, itself and what follows. */
  lemma OccursCut(s: string, p: string, i: int)
    requires OccursAt(s, p, i)
    ensures s == s[..i] + p + s[i + |p|..]
  {
    assert s[..i] + s[i..i + |p|] == s[..i + |p|];
    assert s[..i + |p|] + s[i + |p|..] == s;
  }

  /** With a one-character separator, an occurrence is that character. */
  lemma OccursChar(s: string, sep: string, i: int)
    requires |sep| == 1 && 0 <= i < |s|
    ensures OccursAt(s, sep, i) <==> s[i] == sep[0]
  {
    if s[i] == sep[0] {
      assert s[i..i + 1] == [s[i]];
    }
  }

  /** Past a one-character separator, occurrences are those of the text that follows. */
  lemma OccursPast(u: string, sep: string, r: string, j: int)
    requires |sep| == 1 && |u| < j
    ensures OccursAt(u + sep + r, sep, j) <==> OccursAt(r, sep, j - |u| - 1)
  {
    var s := u + sep + r;
    if j < |s| {
      assert s[j] == r[j - |u| - 1];
      OccursChar(s, sep, j);
      OccursChar(r, sep, j - |u| - 1);
    }
  }

  /** An occurrence with none after it is the one `AfterLast` cuts at. */
  lemma AfterLastAt(s: string, sep: string, q: int)
    requires sep != [] && OccursAt(s, sep, q)
    requires forall j :: q < j ==> !OccursAt(s, sep, j)
    ensures AfterLast(s, sep) == s[q + |sep|..]
  {
    RFindSpec(s, sep);
    assert Contains(s, sep);
  }

  /** The last piece after a separator is the last piece of what follows it. */
  lemma AfterLastConcat(u: string, sep: string, r: string)
    requires |sep| == 1
    ensures AfterLast(u + sep + r, sep) == AfterLast(r, sep)
  {
    var s := u + sep + r;
    AfterLastSpec(r, sep);
    var q := if Contains(r, sep) then |u| + 1 + (|r| - |AfterLast(r, sep)| - 1) else |u|;
    forall j | q < j ensures !OccursAt(s, sep, j) {
      OccursPast(u, sep, r, j);
    }
    if Contains(r, sep) {
      OccursPast(u, sep, r, q);
    } else {
      assert s[|u|..|u| + 1] == sep;
    }
    AfterLastAt(s, sep, q);
    assert s[|u| + 1..] == r;
    assert s[q + 1..] == r[q - |u|..];
  }

  /** The last piece of `s.split(sep)` is the text after the last `sep`. */
  lemma {:induction false} SplitLast(s: string, sep: string)
    requires |sep| == 1
    ensures Split(s, sep)[|Split(s, sep)| - 1] == AfterLast(s, sep)
    decreases |s|
  {
    var k := Find(s, sep);
    if k == -1 {
      FindSpec(s, sep);
      AfterLastSpec(s, sep);
    } else {
      var rest := s[k + 1..];
      var ps := Split(rest, sep);
      SplitLast(rest, sep);
      SplitStep(s, sep, k);
      AfterLastStep(s, sep, k);
      LastOfCons(s[..k], ps);
      assert Split(s, sep) == [s[..k]] + ps;
    }
  }

  /** The last element of a non-empty tail is the last element of the whole. */
  lemma LastOfCons<T>(x: T, xs: seq<T>)
    requires xs != []
    ensures ([x] + xs)[|xs|] == xs[|xs| - 1]
  {
  }

  /** Splitting at the first `sep` of a one-character separator. */
  lemma SplitStep(s: string, sep: string, k: int)
    requires |sep| == 1 && k == Find(s, sep) && k != -1
    ensures Split(s, sep) == [s[..k]] + Split(s[k + 1..], sep)
  {
  }

  /** The text after the last `sep` lies past the first one. */
  lemma AfterLastStep(s: string, sep: string, k: int)
    requires |sep| == 1 && k == Find(s, sep) && k != -1
    ensures AfterLast(s, sep) == AfterLast(s[k + 1..], sep)
  {
    OccursCut(s, sep, k);
    AfterLastConcat(s[..k], sep, s[k + 1..]);
  }

  /** The first separator of `a + sep + b` is the first in `a`, or the one added. */
  lemma FindConcat(a: string, sep: string, b: string)
    requires |sep| == 1
    ensures Find(a + sep + b, sep) == (if Find(a, sep) == -1 then |a| else Find(a, sep))
  {
    var s := a + sep + b;
    FindSpec(s, sep);
    FindSpec(a, sep);
    assert OccursAt(s, sep, |a|) by {
      assert s[|a|..|a| + 1] == sep;
    }
    forall i | 0 <= i < |a| ensures OccursAt(s, sep, i) <==> OccursAt(a, sep, i) {
      OccursChar(s, sep, i);
      OccursChar(a, sep, i);
    }
  }

  /** Splitting two texts joined by the separator joins their pieces. */
  lemma {:induction false} SplitConcat(a: string, sep: string, b: string)
    requires |sep| == 1
    ensures Split(a + sep + b, sep) == Split(a, sep) + Split(b, sep)
    decreases |a|
  {
    var s := a + sep + b;
    var k := Find(a, sep);
    FindConcat(a, sep, b);
    if k == -1 {
      assert s[..|a|] == a;
      assert s[|a| + 1..] == b;
      SplitStep(s, sep, |a|);
      assert Split(a, sep) == [a];
    } else {
      assert s[..k] == a[..k];
      assert s[k + 1..] == a[k + 1..] + sep + b;
      SplitConcat(a[k + 1..], sep, b);
      SplitStep(s, sep, k);
      SplitStep(a, sep, k);
    }
  }

  /** A text without the separator is a single piece. */
  lemma SplitWhole(s: string, sep: string)
    requires sep != [] && !Contains(s, sep)
    ensures Split(s, sep) == [s]
  {
    FindSpec(s, sep);
  }

  /** Joining the pieces of a split gives the text back. */
  lemma {:induction false} JoinSplit(s: string, sep: string)
    requires sep != []
    ensures Join(sep, Split(s, sep)) == s
    decreases |s|
  {
    var k := Find(s, sep);
    if k != -1 {
      var rest := s[k + |sep|..];
      JoinSplit(rest, sep);
      var ps := Split(s, sep);
      assert ps == [s[..k]] + Split(rest, sep);
      assert ps[1..] == Split(rest, sep);
      OccursCut(s, sep, k);
    }
  }

  /** Joining two non-empty lists of parts puts the separator between their joins. */
  lemma {:induction false} JoinConcat(sep: string, xs: seq<string>, ys: seq<string>)
    requires xs != [] && ys != []
    ensures Join(sep, xs + ys) == Join(sep, xs) + sep + Join(sep, ys)
    decreases |xs|
  {
    assert (xs + ys)[0] == xs[0];
    if |xs| == 1 {
      assert (xs + ys)[1..] == ys;
    } else {
      assert (xs + ys)[1..] == xs[1..] + ys;
      JoinConcat(sep, xs[1..], ys);
    }
  }

  predicate IsDigit(c: char) { '0' <= c <= '9' }
  predicate IsUpper(c: char) { 'A' <= c <= 'Z' }
  predicate IsLower(c: char) { 'a' <= c <= 'z' }
  predicate IsAlpha(c: char) { IsUpper(c) || IsLower(c) }

  /**
   * Whitespace as `[ \t\n\r\f\v]`, the set `re.ASCII` gives `\s`. Python's
   * `str.isspace`, `strip()`, `split()` and Unicode `\s` also count
   * `\x1c`-`\x1f`, `\x85` and the Unicode spaces; this predicate does not.
   */
  predicate IsSpace(c: char) {
    c == ' ' || c == '\t' || c == '\n' || c == '\r' || c == 11 as char || c == 12 as char
  }

  predicate AllDigits(s: string) {
    forall i :: 0 <= i < |s| ==> IsDigit(s[i])
  }

  function LowerChar(c: char): (r: char)
    ensures IsUpper(c) ==> IsLower(r)
    ensures !IsUpper(c) ==> r == c
  {
    if IsUpper(c) then (c as int + 32) as char else c
  }

  function UpperChar(c: char): (r: char)
    ensures IsLower(c) ==> IsUpper(r)
    ensures !IsLower(c) ==> r == c
  {
    if IsLower(c) then (c as int - 32) as char else c
  }

  /** `s.lower()` */
  function Lower(s: string): (r: string)
    ensures |r| == |s|
    ensures forall i :: 0 <= i < |s| ==> r[i] == LowerChar(s[i])
  {
    if s == [] then [] else [LowerChar(s[0])] + Lower(s[1..])
  }

  /** `s.upper()` */
  function Upper(s: string): (r: string)
    ensures |r| == |s|
    ensures forall i :: 0 <= i < |s| ==> r[i] == UpperChar(s[i])
  {
    if s == [] then [] else [UpperChar(s[0])] + Upper(s[1..])
  }

  /** `s.capitalize()`: first character upper-cased, the rest lower-cased. */
  function Capitalize(s: string): (r: string)
    ensures |r| == |s|
    ensures |s| > 0 ==> r[0] == UpperChar(s[0]) && r[1..] == Lower(s[1..])
  {
    if s == [] then [] else [UpperChar(s[0])] + Lower(s[1..])
  }

  lemma LowerAppend(a: string, b: string)
    ensures Lower(a + b) == Lower(a) + Lower(b)
  {
    assert forall i :: 0 <= i < |a + b| ==> Lower(a + b)[i] == (Lower(a) + Lower(b))[i];
  }

  lemma UpperAppend(a: string, b: string)
    ensures Upper(a + b) == Upper(a) + Upper(b)
  {
    assert forall i :: 0 <= i < |a + b| ==> Upper(a + b)[i] == (Upper(a) + Upper(b))[i];
  }

  /** `s.lower()` is `t` when `t` holds the lower case of each character of `s`. */
  lemma LowerEach(s: string, t: string)
    requires |s| == |t| && forall i :: 0 <= i < |s| ==> LowerChar(s[i]) == t[i]
    ensures Lower(s) == t
  {
  }

  /** `s` does not start with `p` when they differ at an index both have. */
  lemma DiffersAt(s: string, p: string, j: int)
    requires 0 <= j < |p| && j < |s| && s[j] != p[j]
    ensures !StartsWith(s, p)
  {
    if |p| <= |s| {
      assert s[..|p|][j] == s[j];
    }
  }

  /** A needle one of whose characters never occurs in `s` is not in `s`. */
  lemma AbsentChar(s: string, p: string, j: int)
    requires 0 <= j < |p| && p[j] !in s
    ensures !Contains(s, p)
  {
    forall i | 0 <= i <= |s|
      ensures !OccursAt(s, p, i)
    {
      if i + |p| <= |s| {
        assert s[i + j] in s;
        assert s[i..i + |p|][j] == s[i + j];
      }
    }
  }

  /** Lower-casing a string that already is lower case changes nothing. */
  lemma LowerIdempotent(s: string)
    ensures Lower(Lower(s)) == Lower(s)
  {
  }

  function DigitChar(d: nat): (c: char)
    requires d < 10
    ensures IsDigit(c)
  {
    ('0' as int + d) as char
  }

  function DigitValue(c: char): (d: nat)
    requires IsDigit(c)
    ensures d < 10
    ensures DigitChar(d) == c
  {
    c as int - '0' as int
  }

  /** Decimal text of a natural number (`str(n)` for `n >= 0`). */
  function NatToString(n: nat): (r: string)
    ensures |r| > 0 && AllDigits(r)
    ensures n > 0 ==> r[0] != '0'
    ensures n == 0 ==> r == "0"
  {
    if n < 10 then [DigitChar(n)] else NatToString(n / 10) + [DigitChar(n % 10)]
  }

  /** `str(n)` for any integer. */
  function IntToString(n: int): (r: string)
    ensures n >= 0 ==> r == NatToString(n)
    ensures n < 0 ==> r == "-" + NatToString(-n)
  {
    if n >= 0 then NatToString(n) else "-" + NatToString(-n)
  }

  /** `int(s)` for a run of ASCII digits (empty gives 0). */
  function DigitsValue(s: string): (n: nat)
    requires AllDigits(s)
  {
    if s == [] then 0 else DigitsValue(s[..|s| - 1]) * 10 + DigitValue(s[|s| - 1])
  }

  /** Parsing the decimal text of `n` gives back `n`. */
  lemma {:induction false} DigitsValueOfNatToString(n: nat)
    ensures DigitsValue(NatToString(n)) == n
  {
    if n >= 10 {
      var s := NatToString(n);
      assert s[..|s| - 1] == NatToString(n / 10);
      DigitsValueOfNatToString(n / 10);
    }
  }

  /** Leading zeros do not change the parsed value. */
  lemma {:induction false} DigitsValueLeadingZero(s: string)
    requires AllDigits(s)
    ensures DigitsValue("0" + s) == DigitsValue(s)
  {
    if s != [] {
      assert ("0" + s)[..|"0" + s| - 1] == "0" + s[..|s| - 1];
      DigitsValueLeadingZero(s[..|s| - 1]);
    }
  }

  predicate DigitSpan(s: string, j: nat, k: nat)
    requires j <= k <= |s|
  {
    forall m :: j <= m < k ==> IsDigit(s[m])
  }

  /** Past the greedy run of ASCII digits (`\d*`) that starts at `b`. */
  function DigitsEnd(s: string, b: nat): (c: nat)
    requires b <= |s|
    ensures b <= c <= |s| && DigitSpan(s, b, c)
    ensures c < |s| ==> !IsDigit(s[c])
    decreases |s| - b
  {
    if b < |s| && IsDigit(s[b]) then DigitsEnd(s, b + 1) else b
  }

  /** `s.strip()` is empty exactly when `s` is all (ASCII) whitespace. */
  predicate IsBlank(s: string) {
    forall i :: 0 <= i < |s| ==> IsSpace(s[i])
  }

  /** `s.strip()` */
  function Strip(s: string): (r: string)
    ensures |r| <= |s|
    decreases |s|
  {
    if |s| > 0 && IsSpace(s[0]) then Strip(s[1..])
    else if |s| > 0 && IsSpace(s[|s| - 1]) then Strip(s[..|s| - 1])
    else s
  }

  /** What follows a prefix is the rest of the concatenation. */
  lemma DropPrefix(s: string, u: string, x: string)
    requires s == u + x
    ensures |s| == |u| + |x| && s[|u|..] == x && s[|u|..|s|] == x
  {
  }

  /** The characters `str.splitlines` breaks at; `\r\n` counts as one break. */
  predicate IsLineBreak(c: char) {
    c == '\n' || c == '\r' || c == 11 as char || c == 12 as char || c == 28 as char || c == 29 as char
    || c == 30 as char || c == 133 as char || c == 0x2028 as char || c == 0x2029 as char
  }

  predicate BreakFree(s: string) {
    forall i :: 0 <= i < |s| ==> !IsLineBreak(s[i])
  }

  /** The first line break at or after `i`, or `|s|`. */
  function BreakFrom(s: string, i: nat): (k: nat)
    requires i <= |s|
    ensures i <= k <= |s| && (k < |s| ==> IsLineBreak(s[k]))
    ensures forall j :: i <= j < k ==> !IsLineBreak(s[j])
    decreases |s| - i
  {
    if i == |s| || IsLineBreak(s[i]) then i else BreakFrom(s, i + 1)
  }

  /** Past the break at `k`: two characters for `\r\n`, otherwise one. */
  function PastBreak(s: string, k: nat): (n: nat)
    requires k < |s|
    ensures k < n <= |s|
  {
    if s[k] == '\r' && k + 1 < |s| && s[k + 1] == '\n' then k + 2 else k + 1
  }

  /** `s.splitlines()`: the lines without their breaks, and no empty line after a final break. */
  function SplitLines(s: string): (r: seq<string>)
    decreases |s|
  {
    if s == [] then []
    else
      var k := BreakFrom(s, 0);
      if k == |s| then [s] else [s[..k]] + SplitLines(s[PastBreak(s, k)..])
  }

  /** No line holds a break. */
  lemma {:induction false} SplitLinesFree(s: string)
    ensures forall l :: l in SplitLines(s) ==> BreakFree(l)
    decreases |s|
  {
    if s != [] {
      var k := BreakFrom(s, 0);
      if k < |s| {
        SplitLinesFree(s[PastBreak(s, k)..]);
      }
    }
  }

  /** A text without a break, followed by a break character, then the rest. */
  lemma SplitLinesCons(a: string, b: string, t: string)
    requires BreakFree(a) && (t == "\n" || t == "\r\n")
    ensures SplitLines(a + t + b) == [a] + SplitLines(b)
  {
    var s := a + t + b;
    assert s[|a|] == t[0];
    var k := BreakFrom(s, 0);
    assert forall j :: 0 <= j < |a| ==> s[j] == a[j];
    assert k == |a|;
    assert s[..k] == a;
    assert PastBreak(s, k) == |a| + |t| by {
      if t == "\r\n" {
        assert s[|a| + 1] == '\n';
      }
    }
    assert s[|a| + |t|..] == b;
  }

  /** A non-empty text without a break is one line. */
  lemma SplitLinesOfLine(a: string)
    requires a != [] && BreakFree(a)
    ensures SplitLines(a) == [a]
  {
    assert BreakFrom(a, 0) == |a|;
  }

  /** `''.join(l + '\n' for l in ls)` */
  function Terminated(ls: seq<string>): string {
    if ls == [] then "" else ls[0] + "\n" + Terminated(ls[1..])
  }

  /** Lines without breaks, each ended by a newline, split back into themselves. */
  lemma {:induction false} SplitLinesTerminated(ls: seq<string>)
    requires forall i :: 0 <= i < |ls| ==> BreakFree(ls[i])
    ensures SplitLines(Terminated(ls)) == ls
  {
    if ls != [] {
      SplitLinesTerminated(ls[1..]);
      SplitLinesCons(ls[0], Terminated(ls[1..]), "\n");
    }
  }

  /** Python `s[:n]`. */
  function Take(s: string, n: nat): (r: string)
    ensures |r| == if n < |s| then n else |s|
    ensures StartsWith(s, r)
  {
    if n < |s| then s[..n] else s
  }

  /** Number of `'\n'` characters (`s.count('\n')`). */
  function CountNewlines(s: string): (n: nat)
    ensures n <= |s|
  {
    if s == [] then 0 else (if s[0] == '\n' then 1 else 0) + CountNewlines(s[1..])
  }

  lemma {:induction false} CountNewlinesAppend(a: string, b: string)
    ensures CountNewlines(a + b) == CountNewlines(a) + CountNewlines(b)
  {
    if a != [] {
      assert (a + b)[0] == a[0];
      assert (a + b)[1..] == a[1..] + b;
      CountNewlinesAppend(a[1..], b);
    } else {
      assert a + b == b;
    }
  }
}
