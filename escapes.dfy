/**
 * The placeholder substitution applied to a view's JSON text before it is
 * parsed (flatten_json.py, `preserve_unicode_escapes` and
 * `restore_unicode_escapes`). Five `\uXXXX` escapes of RFC 8259 section 7
 * are swapped for the words `UNICODE_LT` ... and back.
 */
module Escapes {
  import opened PyStr

  /**
   * `s.replace(pat, rep)`; also `re.sub(pat, rep, s)` for a pattern that
   * matches one literal text. Occurrences are taken leftmost first and do
   * not overlap.
   */
  function Replace(s: string, pat: string, rep: string): (r: string)
    requires pat != []
    decreases |s|
  {
    if StartsWith(s, pat) then rep + Replace(s[|pat|..], pat, rep)
    else if s == [] then []
    else [s[0]] + Replace(s[1..], pat, rep)
  }

  /** Text without an occurrence of `pat` is left as it is. */
  lemma {:induction false} ReplaceAbsent(s: string, pat: string, rep: string)
    requires pat != [] && !Contains(s, pat)
    ensures Replace(s, pat, rep) == s
  {
    if s != [] {
      assert !OccursAt(s, pat, 0);
      forall i | 0 <= i <= |s[1..]| ensures !OccursAt(s[1..], pat, i) {
        assert s == [s[0]] + s[1..];
        OccursAtShift([s[0]], s[1..], pat, i);
      }
      ReplaceAbsent(s[1..], pat, rep);
    }
  }

  type Stage = (string, string)

  /**
   * The regex-source keys of `UNICODE_REPLACEMENTS` are `\\u003c` ...; as
   * regular expressions they match the six characters backslash, `u`,
   * `0`, `0` and two hex digits, which is also what the restoring loop
   * writes back (`escape.replace('\\\\', '\\')`).
   */
  const Escapes: seq<string> := ["\\u003c", "\\u003e", "\\u0026", "\\u003d", "\\u0027"]
  const Placeholders: seq<string> := ["UNICODE_LT", "UNICODE_GT", "UNICODE_AMP", "UNICODE_EQ", "UNICODE_APOS"]

  /** The stages `(a[0], b[0]), (a[1], b[1]), ...` */
  function Zip(a: seq<string>, b: seq<string>): (r: seq<Stage>)
    requires |a| == |b|
    ensures |r| == |a| && forall i :: 0 <= i < |a| ==> r[i] == (a[i], b[i])
  {
    seq(|a|, i requires 0 <= i < |a| => (a[i], b[i]))
  }

  /** The replacement loop of `preserve_unicode_escapes`, in dictionary order. */
  const PreserveStages: seq<Stage> := Zip(Escapes, Placeholders)

  /** The loop of `restore_unicode_escapes`, the inverted dictionary in the same order. */
  const RestoreStages: seq<Stage> := Zip(Placeholders, Escapes)

  predicate PatternsNonEmpty(st: seq<Stage>) {
    forall k :: 0 <= k < |st| ==> st[k].0 != []
  }

  /** The text after running the first `|st|` replacements of a loop, one after the other. */
  function Apply(s: string, st: seq<Stage>): string
    requires PatternsNonEmpty(st)
  {
    if st == [] then s
    else Replace(Apply(s, st[..|st| - 1]), st[|st| - 1].0, st[|st| - 1].1)
  }

  function PreserveText(s: string): string {
    StagesAreWords();
    Apply(s, PreserveStages)
  }

  function RestoreText(s: string): string {
    StagesAreWords();
    Apply(s, RestoreStages)
  }

  /** `preserve_unicode_escapes`: the loop reassigning `text`. */
  method Preserve(text: string) returns (r: string)
    ensures r == PreserveText(text)
  {
    StagesAreWords();
    r := text;
    var i := 0;
    while i < |PreserveStages|
      invariant 0 <= i <= |PreserveStages|
      invariant r == Apply(text, PreserveStages[..i])
    {
      var (escape, placeholder) := PreserveStages[i];
      r := Replace(r, escape, placeholder);
      assert PreserveStages[..i + 1][..i] == PreserveStages[..i];
      i := i + 1;
    }
    assert PreserveStages[..i] == PreserveStages;
  }

  /** `restore_unicode_escapes`: the loop reassigning `text`. */
  method Restore(text: string) returns (r: string)
    ensures r == RestoreText(text)
  {
    StagesAreWords();
    r := text;
    var i := 0;
    while i < |RestoreStages|
      invariant 0 <= i <= |RestoreStages|
      invariant r == Apply(text, RestoreStages[..i])
    {
      var (placeholder, escape) := RestoreStages[i];
      r := Replace(r, placeholder, escape);
      assert RestoreStages[..i + 1][..i] == RestoreStages[..i];
      i := i + 1;
    }
    assert RestoreStages[..i] == RestoreStages;
  }

  // ---------------------------------------------------------------------
  // Words. Every escape and placeholder starts with a "special" character
  // (a backslash or `U`) and has no special character after the first, so
  // an occurrence of one can only start at the first character of another.

  predicate Special(c: char) { c == '\\' || c == 'U' }

  predicate NoSpecial(w: string) {
    forall i :: 0 <= i < |w| ==> !Special(w[i])
  }

  predicate Word(w: string) {
    |w| > 0 && Special(w[0]) && NoSpecial(w[1..])
  }

  /** `a` and `b` disagree at some index below both lengths. */
  predicate Differ(a: string, b: string) {
    exists i :: 0 <= i < |a| && i < |b| && a[i] != b[i]
  }

  /** `NoSpecial(w[i..])`, written so that it can be evaluated on a literal. */
  predicate NoSpecialFrom(w: string, i: nat)
    decreases |w| - i
  {
    i >= |w| || (!Special(w[i]) && NoSpecialFrom(w, i + 1))
  }

  /** `Differ(a[i..], b[i..])`, written so that it can be evaluated on literals. */
  predicate DifferFrom(a: string, b: string, i: nat)
    decreases |a| - i
  {
    i < |a| && i < |b| && (a[i] != b[i] || DifferFrom(a, b, i + 1))
  }

  lemma {:induction false} NoSpecialFromChars(w: string, i: nat, j: int)
    requires NoSpecialFrom(w, i) && i <= j < |w|
    ensures !Special(w[j])
    decreases |w| - i
  {
    if i < j {
      NoSpecialFromChars(w, i + 1, j);
    }
  }

  lemma WordOfLiteral(w: string)
    requires |w| > 0 && Special(w[0]) && NoSpecialFrom(w, 1)
    ensures Word(w)
  {
    forall i | 0 <= i < |w[1..]| ensures !Special(w[1..][i]) {
      NoSpecialFromChars(w, 1, i + 1);
    }
  }

  lemma {:induction false} DifferOfLiteral(a: string, b: string, i: nat)
    requires DifferFrom(a, b, i)
    ensures Differ(a, b)
    decreases |a| - i
  {
    if a[i] == b[i] {
      DifferOfLiteral(a, b, i + 1);
    }
  }

  lemma DifferSymmetric(a: string, b: string)
    requires Differ(a, b)
    ensures Differ(b, a)
  {
    var i :| 0 <= i < |a| && i < |b| && a[i] != b[i];
    assert b[i] != a[i];
  }

  /** A word that differs from `p` cannot start a text that starts with `p`. */
  lemma DifferNotPrefix(a: string, t: string, p: string)
    requires Differ(a, p)
    ensures !StartsWith(a + t, p)
  {
    var i :| 0 <= i < |a| && i < |p| && a[i] != p[i];
    assert (a + t)[i] == a[i];
    if |p| <= |a + t| {
      assert (a + t)[..|p|][i] == a[i];
    }
  }

  // ---------------------------------------------------------------------
  // How one replacement treats the front of a text.

  lemma ReplaceKeep(s: string, p: string, r: string)
    requires p != []
    ensures s != [] && !StartsWith(s, p) ==> Replace(s, p, r) == [s[0]] + Replace(s[1..], p, r)
  {
  }

  lemma ReplaceHit(s: string, p: string, r: string)
    requires p != []
    ensures StartsWith(s, p) ==> Replace(s, p, r) == r + Replace(s[|p|..], p, r)
  {
  }

  lemma ReplaceFirst(s: string, p: string, r: string)
    requires p != [] && r != []
    ensures StartsWith(s, p) ==> Replace(s, p, r) != [] && Replace(s, p, r)[0] == r[0]
  {
  }

  /** Characters that cannot start the pattern pass through unchanged. */
  lemma {:induction false} ReplacePlainPrefix(w: string, t: string, p: string, r: string)
    requires Word(p) && NoSpecial(w)
    ensures Replace(w + t, p, r) == w + Replace(t, p, r)
    decreases |w|
  {
    if w == [] {
      assert w + t == t;
    } else {
      var s := w + t;
      assert s[0] == w[0] && !Special(w[0]);
      assert |p| <= |s| ==> s[..|p|][0] == s[0];
      ReplaceKeep(s, p, r);
      assert s[1..] == w[1..] + t;
      assert NoSpecial(w[1..]) by {
        forall i | 0 <= i < |w[1..]| ensures !Special(w[1..][i]) {
          assert w[1..][i] == w[i + 1];
        }
      }
      ReplacePlainPrefix(w[1..], t, p, r);
      assert [w[0]] + w[1..] == w;
    }
  }

  /** A text starting with a word: the word is replaced whole or kept whole. */
  lemma ReplaceWord(x: string, t: string, p: string, r: string)
    requires Word(p) && Word(x) && (x == p || Differ(x, p))
    ensures Replace(x + t, p, r) == (if x == p then r else x) + Replace(t, p, r)
  {
    var s := x + t;
    if x == p {
      assert s[..|p|] == p;
      ReplaceHit(s, p, r);
      assert s[|p|..] == t;
    } else {
      DifferNotPrefix(x, t, p);
      ReplaceKeep(s, p, r);
      assert s[1..] == x[1..] + t;
      ReplacePlainPrefix(x[1..], t, p, r);
      assert [x[0]] + x[1..] == x;
    }
  }

  /** A replacement inserts special characters only, so a plain front of its output was already there. */
  lemma {:induction false} ReplaceBack(t: string, p: string, r: string, w: string)
    requires p != [] && Word(r) && NoSpecial(w)
    requires StartsWith(Replace(t, p, r), w)
    ensures StartsWith(t, w)
    decreases |t|
  {
    if w != [] {
      assert !Special(w[0]);
      ReplaceFirst(t, p, r);
      if t == [] {
        assert false;
      } else {
        ReplaceKeep(t, p, r);
        assert Replace(t, p, r)[1..] == Replace(t[1..], p, r);
        assert NoSpecial(w[1..]) by {
          forall i | 0 <= i < |w[1..]| ensures !Special(w[1..][i]) {
            assert w[1..][i] == w[i + 1];
          }
        }
        assert StartsWith(Replace(t[1..], p, r), w[1..]) by {
          assert Replace(t, p, r)[..|w|] == w;
          assert Replace(t[1..], p, r)[..|w| - 1] == Replace(t, p, r)[1..|w|];
        }
        ReplaceBack(t[1..], p, r, w[1..]);
        assert t[..|w|] == [t[0]] + t[1..][..|w| - 1];
      }
    }
  }

  // ---------------------------------------------------------------------
  // Loops of replacements whose patterns and replacement texts are words.

  predicate WordStages(st: seq<Stage>) {
    forall k :: 0 <= k < |st| ==> Word(st[k].0) && Word(st[k].1)
  }

  lemma WordStagesPrefix(st: seq<Stage>, n: nat)
    requires WordStages(st) && n <= |st|
    ensures WordStages(st[..n]) && PatternsNonEmpty(st[..n])
  {
  }

  lemma {:induction false} ApplyConcat(s: string, a: seq<Stage>, b: seq<Stage>)
    requires PatternsNonEmpty(a) && PatternsNonEmpty(b)
    ensures PatternsNonEmpty(a + b)
    ensures Apply(s, a + b) == Apply(Apply(s, a), b)
    decreases |b|
  {
    if b == [] {
      assert a + b == a;
    } else {
      var b' := b[..|b| - 1];
      assert (a + b)[..|a + b| - 1] == a + b';
      ApplyConcat(s, a, b');
    }
  }

  lemma {:induction false} ApplyEmpty(st: seq<Stage>)
    requires PatternsNonEmpty(st)
    ensures Apply([], st) == []
  {
    if st != [] {
      ApplyEmpty(st[..|st| - 1]);
    }
  }

  lemma {:induction false} ApplyBack(t: string, st: seq<Stage>, w: string)
    requires WordStages(st) && PatternsNonEmpty(st) && NoSpecial(w)
    requires StartsWith(Apply(t, st), w)
    ensures StartsWith(t, w)
  {
    if st != [] {
      var st' := st[..|st| - 1];
      WordStagesPrefix(st, |st| - 1);
      ReplaceBack(Apply(t, st'), st[|st| - 1].0, st[|st| - 1].1, w);
      ApplyBack(t, st', w);
    }
  }

  /** A first character that starts none of the patterns survives every replacement. */
  lemma {:induction false} ApplyHeadChar(c: char, t: string, st: seq<Stage>)
    requires WordStages(st) && PatternsNonEmpty(st)
    requires forall k :: 0 <= k < |st| ==> !StartsWith([c] + t, st[k].0)
    ensures Apply([c] + t, st) == [c] + Apply(t, st)
  {
    if st != [] {
      var st' := st[..|st| - 1];
      var (p, r) := st[|st| - 1];
      WordStagesPrefix(st, |st| - 1);
      ApplyHeadChar(c, t, st');
      var u := Apply(t, st');
      if StartsWith([c] + u, p) {
        assert u[..|p| - 1] == ([c] + u)[1..|p|];
        assert StartsWith(u, p[1..]);
        ApplyBack(t, st', p[1..]);
        assert false;
      }
      assert ([c] + u)[1..] == u;
    }
  }

  /** Distinct words, each first character special and the rest plain. */
  predicate WordList(a: seq<string>) {
    (forall i :: 0 <= i < |a| ==> Word(a[i])) &&
    (forall i, j :: 0 <= i < |a| && 0 <= j < |a| && i != j ==> Differ(a[i], a[j]))
  }

  /**
   * Running the stages `st` in turn: a text that starts with the pattern of
   * stage `k` ends up starting with that stage's replacement, and the rest
   * of the text is processed as if the word were not there.
   */
  lemma {:induction false} ApplyStagesWord(st: seq<Stage>, k: nat, t: string, n: nat)
    requires k < |st| && n <= |st| && WordStages(st)
    requires forall i :: 0 <= i < |st| && i != k ==> Differ(st[k].0, st[i].0)
    requires forall i :: 0 <= i < |st| ==> Differ(st[k].1, st[i].0)
    ensures PatternsNonEmpty(st[..n])
    ensures Apply(st[k].0 + t, st[..n]) == (if n > k then st[k].1 else st[k].0) + Apply(t, st[..n])
  {
    WordStagesPrefix(st, n);
    if n > 0 {
      var m := n - 1;
      ApplyStagesWord(st, k, t, m);
      assert st[..n][..m] == st[..m];
      assert st[..n][m] == st[m];
      var y := if m > k then st[k].1 else st[k].0;
      assert Word(y) && Word(st[m].0);
      assert y == st[m].0 || Differ(y, st[m].0);
      ReplaceWord(y, Apply(t, st[..m]), st[m].0, st[m].1);
    }
  }

  lemma WordAt(k: nat)
    requires k < 5
    ensures Word(Escapes[k]) && Word(Placeholders[k]) && Escapes[k][0] == '\\' && Placeholders[k][0] == 'U'
  {
    if k == 0 {
      WordOfLiteral("\\u003c"); WordOfLiteral("UNICODE_LT");
    } else if k == 1 {
      WordOfLiteral("\\u003e"); WordOfLiteral("UNICODE_GT");
    } else if k == 2 {
      WordOfLiteral("\\u0026"); WordOfLiteral("UNICODE_AMP");
    } else if k == 3 {
      WordOfLiteral("\\u003d"); WordOfLiteral("UNICODE_EQ");
    } else if k == 4 {
      WordOfLiteral("\\u0027"); WordOfLiteral("UNICODE_APOS");
    }
  }

  /** The five escapes are pairwise different. */
  lemma EscapesDiffer(i: nat, j: nat)
    requires i < 5 && j < 5 && i != j
    ensures Differ(Escapes[i], Escapes[j])
  {
    if i == 0 {
      if j == 1 { DifferOfLiteral("\\u003c", "\\u003e", 0); }
      if j == 2 { DifferOfLiteral("\\u003c", "\\u0026", 0); }
      if j == 3 { DifferOfLiteral("\\u003c", "\\u003d", 0); }
      if j == 4 { DifferOfLiteral("\\u003c", "\\u0027", 0); }
    } else if i == 1 {
      if j == 0 { DifferOfLiteral("\\u003e", "\\u003c", 0); }
      if j == 2 { DifferOfLiteral("\\u003e", "\\u0026", 0); }
      if j == 3 { DifferOfLiteral("\\u003e", "\\u003d", 0); }
      if j == 4 { DifferOfLiteral("\\u003e", "\\u0027", 0); }
    } else if i == 2 {
      if j == 0 { DifferOfLiteral("\\u0026", "\\u003c", 0); }
      if j == 1 { DifferOfLiteral("\\u0026", "\\u003e", 0); }
      if j == 3 { DifferOfLiteral("\\u0026", "\\u003d", 0); }
      if j == 4 { DifferOfLiteral("\\u0026", "\\u0027", 0); }
    } else if i == 3 {
      if j == 0 { DifferOfLiteral("\\u003d", "\\u003c", 0); }
      if j == 1 { DifferOfLiteral("\\u003d", "\\u003e", 0); }
      if j == 2 { DifferOfLiteral("\\u003d", "\\u0026", 0); }
      if j == 4 { DifferOfLiteral("\\u003d", "\\u0027", 0); }
    } else if i == 4 {
      if j == 0 { DifferOfLiteral("\\u0027", "\\u003c", 0); }
      if j == 1 { DifferOfLiteral("\\u0027", "\\u003e", 0); }
      if j == 2 { DifferOfLiteral("\\u0027", "\\u0026", 0); }
      if j == 3 { DifferOfLiteral("\\u0027", "\\u003d", 0); }
    }
  }

  /** The five placeholder words are pairwise different. */
  lemma PlaceholdersDiffer(i: nat, j: nat)
    requires i < 5 && j < 5 && i != j
    ensures Differ(Placeholders[i], Placeholders[j])
  {
    if i == 0 {
      if j == 1 { DifferOfLiteral("UNICODE_LT", "UNICODE_GT", 0); }
      if j == 2 { DifferOfLiteral("UNICODE_LT", "UNICODE_AMP", 0); }
      if j == 3 { DifferOfLiteral("UNICODE_LT", "UNICODE_EQ", 0); }
      if j == 4 { DifferOfLiteral("UNICODE_LT", "UNICODE_APOS", 0); }
    } else if i == 1 {
      if j == 0 { DifferOfLiteral("UNICODE_GT", "UNICODE_LT", 0); }
      if j == 2 { DifferOfLiteral("UNICODE_GT", "UNICODE_AMP", 0); }
      if j == 3 { DifferOfLiteral("UNICODE_GT", "UNICODE_EQ", 0); }
      if j == 4 { DifferOfLiteral("UNICODE_GT", "UNICODE_APOS", 0); }
    } else if i == 2 {
      if j == 0 { DifferOfLiteral("UNICODE_AMP", "UNICODE_LT", 0); }
      if j == 1 { DifferOfLiteral("UNICODE_AMP", "UNICODE_GT", 0); }
      if j == 3 { DifferOfLiteral("UNICODE_AMP", "UNICODE_EQ", 0); }
      if j == 4 { DifferOfLiteral("UNICODE_AMP", "UNICODE_APOS", 0); }
    } else if i == 3 {
      if j == 0 { DifferOfLiteral("UNICODE_EQ", "UNICODE_LT", 0); }
      if j == 1 { DifferOfLiteral("UNICODE_EQ", "UNICODE_GT", 0); }
      if j == 2 { DifferOfLiteral("UNICODE_EQ", "UNICODE_AMP", 0); }
      if j == 4 { DifferOfLiteral("UNICODE_EQ", "UNICODE_APOS", 0); }
    } else if i == 4 {
      if j == 0 { DifferOfLiteral("UNICODE_APOS", "UNICODE_LT", 0); }
      if j == 1 { DifferOfLiteral("UNICODE_APOS", "UNICODE_GT", 0); }
      if j == 2 { DifferOfLiteral("UNICODE_APOS", "UNICODE_AMP", 0); }
      if j == 3 { DifferOfLiteral("UNICODE_APOS", "UNICODE_EQ", 0); }
    }
  }

  lemma StagesAreWords()
    ensures WordList(Escapes) && WordList(Placeholders)
    ensures forall i, j :: 0 <= i < 5 && 0 <= j < 5 ==> Differ(Escapes[i], Placeholders[j]) && Differ(Placeholders[j], Escapes[i])
    ensures WordStages(PreserveStages) && WordStages(RestoreStages)
    ensures PatternsNonEmpty(PreserveStages) && PatternsNonEmpty(RestoreStages)
  {
    forall k | 0 <= k < 5 ensures Word(Escapes[k]) && Word(Placeholders[k]) && Escapes[k][0] == '\\' && Placeholders[k][0] == 'U' {
      WordAt(k);
    }
    forall i, j | 0 <= i < 5 && 0 <= j < 5 && i != j ensures Differ(Escapes[i], Escapes[j]) && Differ(Placeholders[i], Placeholders[j]) {
      EscapesDiffer(i, j);
      PlaceholdersDiffer(i, j);
    }
  }

  /** `preserve_unicode_escapes` turns a leading escape into its placeholder and goes on with the rest. */
  lemma PreserveEscape(k: nat, t: string)
    requires k < 5
    ensures PreserveText(Escapes[k] + t) == Placeholders[k] + PreserveText(t)
  {
    StagesAreWords();
    ApplyStagesWord(PreserveStages, k, t, 5);
    assert PreserveStages[..5] == PreserveStages;
  }

  /** `restore_unicode_escapes` turns a leading placeholder back into its escape and goes on with the rest. */
  lemma RestorePlaceholder(k: nat, t: string)
    requires k < 5
    ensures RestoreText(Placeholders[k] + t) == Escapes[k] + RestoreText(t)
  {
    StagesAreWords();
    ApplyStagesWord(RestoreStages, k, t, 5);
    assert RestoreStages[..5] == RestoreStages;
  }

  /** A leading character that starts no escape passes through `preserve_unicode_escapes`. */
  lemma PreserveChar(s: string)
    requires s != [] && forall k :: 0 <= k < 5 ==> !StartsWith(s, Escapes[k])
    ensures PreserveText(s) == [s[0]] + PreserveText(s[1..])
  {
    StagesAreWords();
    assert s == [s[0]] + s[1..];
    ApplyHeadChar(s[0], s[1..], PreserveStages);
  }

  /** The five escapes and five placeholders, one loop after the other. */
  const RoundTripStages: seq<Stage> := PreserveStages + RestoreStages

  /** A leading escape is turned into its placeholder and back again. */
  lemma RoundTripEscape(k: nat, t: string)
    requires k < 5
    ensures PatternsNonEmpty(RoundTripStages)
    ensures Apply(Escapes[k] + t, RoundTripStages) == Escapes[k] + Apply(t, RoundTripStages)
  {
    StagesAreWords();
    ApplyConcat(Escapes[k] + t, PreserveStages, RestoreStages);
    ApplyConcat(t, PreserveStages, RestoreStages);
    PreserveEscape(k, t);
    RestorePlaceholder(k, Apply(t, PreserveStages));
  }

  /** A leading character that starts no escape and no placeholder is kept. */
  lemma RoundTripChar(s: string)
    requires s != []
    requires forall k :: 0 <= k < 5 ==> !StartsWith(s, Escapes[k]) && !StartsWith(s, Placeholders[k])
    ensures PatternsNonEmpty(RoundTripStages)
    ensures Apply(s, RoundTripStages) == [s[0]] + Apply(s[1..], RoundTripStages)
  {
    StagesAreWords();
    var all := RoundTripStages;
    assert s == [s[0]] + s[1..];
    forall k | 0 <= k < |all| ensures !StartsWith([s[0]] + s[1..], all[k].0) {
      if k >= 5 {
        assert all[k].0 == Placeholders[k - 5];
      }
    }
    ApplyHeadChar(s[0], s[1..], all);
  }

  /** The round trip: restoring after preserving gives the original text back, provided the text does not already contain a placeholder word. */
  lemma {:induction false} RestorePreserve(s: string)
    requires forall k :: 0 <= k < |Placeholders| ==> !Contains(s, Placeholders[k])
    ensures RestoreText(PreserveText(s)) == s
    decreases |s|
  {
    StagesAreWords();
    ApplyConcat(s, PreserveStages, RestoreStages);
    RoundTrip(s);
  }

  lemma RoundTripStagesNonEmpty()
    ensures PatternsNonEmpty(RoundTripStages)
  {
    StagesAreWords();
    ApplyConcat([], PreserveStages, RestoreStages);
  }

  lemma {:induction false} RoundTrip(s: string)
    requires forall k :: 0 <= k < |Placeholders| ==> !Contains(s, Placeholders[k])
    ensures PatternsNonEmpty(RoundTripStages)
    ensures Apply(s, RoundTripStages) == s
    decreases |s|
  {
    RoundTripStagesNonEmpty();
    if s == [] {
      ApplyEmpty(RoundTripStages);
    } else {
      var escaped := exists k :: 0 <= k < 5 && StartsWith(s, Escapes[k]);
      var t := if escaped then s[6..] else s[1..];
      forall k | 0 <= k < |Placeholders| ensures !Contains(t, Placeholders[k]) {
        NoOccurrenceInSuffix(s, |s| - |t|, Placeholders[k]);
      }
      RoundTrip(t);
      if escaped {
        var k :| 0 <= k < 5 && StartsWith(s, Escapes[k]);
        assert s == Escapes[k] + t;
        RoundTripEscape(k, t);
      } else {
        forall k | 0 <= k < 5 ensures !StartsWith(s, Placeholders[k]) {
          assert !OccursAt(s, Placeholders[k], 0);
        }
        RoundTripChar(s);
      }
    }
  }

  lemma NoOccurrenceInSuffix(s: string, n: nat, p: string)
    requires n <= |s| && !Contains(s, p)
    ensures !Contains(s[n..], p)
  {
    forall i | 0 <= i <= |s[n..]| ensures !OccursAt(s[n..], p, i) {
      assert s == s[..n] + s[n..];
      OccursAtShift(s[..n], s[n..], p, i);
    }
  }
}
