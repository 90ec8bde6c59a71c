/**
 * `preprocess_text` of the PowerPoint processors (code/ppt_processor.py and
 * code/shinhan_ppt_processor.py carry identical copies): a chain of regular
 * expression substitutions followed by `strip()`, with `None` for a result that
 * is empty.
 */
module Normalize {
  import opened Outcomes
  import opened Text

  /** Length of the whitespace run at the start of `s`. */
  function SpaceRun(s: string): (k: nat)
    ensures k <= |s| && AllSpace(s[..k])
    ensures k == |s| || !IsSpace(s[k])
  {
    |s| - |LStrip(s)|
  }

  /** Index of the last newline of `w`, if any. */
  function LastNewline(w: string): (r: Option<nat>)
    ensures r.Some? ==> r.value < |w| && w[r.value] == '\n'
    ensures r.None? ==> '\n' !in w
  {
    if w == [] then None
    else if w[|w| - 1] == '\n' then Some(|w| - 1)
    else
      assert w == w[..|w| - 1] + [w[|w| - 1]];
      LastNewline(w[..|w| - 1])
  }

  /** The end of a match of `\n\s*\n` at the start of `s`: the greedy `\s*` takes the
      whole whitespace run after the first newline and backs off to its last newline. */
  function NewlineMatch(s: string): (e: Option<nat>)
    ensures e.Some? ==> 2 <= e.value <= |s| && AllSpace(s[..e.value])
    ensures e.Some? ==> s[0] == '\n' && s[e.value - 1] == '\n'
  {
    if s == [] || s[0] != '\n' then None
    else
      var k := SpaceRun(s[1..]);
      match LastNewline(s[1..][..k])
      case None => None
      case Some(j) =>
        RunPrefix(s, k, j);
        Some(j + 2)
  }

  /** A newline followed by a whitespace run is whitespace up to any point of the run. */
  lemma {:induction false} RunPrefix(s: string, k: nat, j: nat)
    requires s != [] && s[0] == '\n' && k <= |s| - 1 && AllSpace(s[1..][..k]) && j < k
    ensures AllSpace(s[..j + 2])
  {
    var p, run := s[..j + 2], s[1..][..k];
    forall i | 0 <= i < |p|
      ensures IsSpace(p[i])
    {
      if i > 0 {
        assert p[i] == run[i - 1];
      }
    }
  }

  /** `re.sub(r'\n\s*\n', '\n', s)`: scanning from the left, each match is replaced by
      one newline and the scan resumes after it. */
  function BlankLines(s: string): (r: string)
    ensures s != [] ==> r != [] && r[0] == s[0]
    decreases |s|
  {
    if s == [] then []
    else match NewlineMatch(s)
      case Some(e) => "\n" + BlankLines(s[e..])
      case None => [s[0]] + BlankLines(s[1..])
  }

  /** The substitution keeps every character it does not drop from a whitespace run:
      nothing new appears and no visible character is lost. */
  lemma {:induction false} BlankLinesChars(s: string)
    ensures forall x :: x in BlankLines(s) ==> x in s
    ensures forall x :: x in s && !IsSpace(x) ==> x in BlankLines(s)
    decreases |s|
  {
    if s != [] {
      match NewlineMatch(s)
      case Some(e) =>
        BlankLinesChars(s[e..]);
        KeepsChars(s, e, "\n", BlankLines(s[e..]));
      case None =>
        BlankLinesChars(s[1..]);
        KeepsChars(s, 1, [s[0]], BlankLines(s[1..]));
    }
  }

  /** Replacing a leading run of `s` by `head` keeps the characters of `s`, but for
      whitespace dropped from the run, when `rest` keeps those of what follows. */
  lemma {:induction false} KeepsChars(s: string, e: nat, head: string, rest: string)
    requires 1 <= e <= |s| && |head| == 1 && head[0] == s[0]
    requires e > 1 ==> AllSpace(s[..e]) && head == "\n"
    requires forall x :: x in rest ==> x in s[e..]
    requires forall x :: x in s[e..] && !IsSpace(x) ==> x in rest
    ensures forall x :: x in head + rest ==> x in s
    ensures forall x :: x in s && !IsSpace(x) ==> x in head + rest
  {
    assert s == s[..e] + s[e..];
    RunChars(s, e);
    assert head + rest == [s[0]] + rest;
  }

  /** A run that is whitespace after its first character holds no other
      non-whitespace character. */
  lemma {:induction false} RunChars(s: string, e: nat)
    requires 1 <= e <= |s| && (e > 1 ==> AllSpace(s[..e]))
    ensures forall x :: x in s[..e] ==> x == s[0] || IsSpace(x)
  {
    forall x | x in s[..e]
      ensures x == s[0] || IsSpace(x)
    {
      var i :| 0 <= i < e && s[..e][i] == x;
      if i > 0 {
        assert IsSpace(s[..e][i]);
      }
    }
  }

  /** Dropping a whitespace prefix does not change what `lstrip()` leaves. */
  lemma {:induction false} LStripSkip(s: string, k: nat)
    requires k <= |s| && AllSpace(s[..k])
    ensures LStrip(s) == LStrip(s[k..])
    decreases k
  {
    if k > 0 {
      assert AllSpace(s[..k - 1]) by {
        assert forall i :: 0 <= i < k - 1 ==> s[..k - 1][i] == s[..k][i];
      }
      LStripSkip(s, k - 1);
      assert s[..k][k - 1] == s[k - 1];
      assert s[k - 1..][1..] == s[k..];
    }
  }

  /** The first substitution only shortens whitespace runs without emptying any, so
      the whitespace collapse that follows makes it invisible: steps one and two of
      the chain give what step two alone gives. The second conjunct, for the text
      after a whitespace run, carries the induction. */
  lemma {:induction false} BlankLinesInvisible(s: string)
    ensures CollapseSpaces(BlankLines(s)) == CollapseSpaces(s)
    ensures CollapseSpaces(LStrip(BlankLines(s))) == CollapseSpaces(LStrip(s))
    decreases |s|
  {
    if s == [] {
      return;
    }
    match NewlineMatch(s)
    case Some(e) =>
      var t := s[e..];
      BlankLinesInvisible(t);
      BlankLinesAt(s);
      LStripSkip(s, e);
      SpaceStep('\n', BlankLines(t), t);
      SpaceHead('\n', t);
      SameAfterSpace(s, "\n" + t);
    case None =>
      var t := s[1..];
      BlankLinesInvisible(t);
      BlankLinesAt(s);
      assert s == [s[0]] + t;
      if IsSpace(s[0]) {
        SpaceStep(s[0], BlankLines(t), t);
      } else {
        WordStep(s[0], BlankLines(t), t);
      }
  }

  /** One step of the substitution. */
  lemma {:induction false} BlankLinesAt(s: string)
    requires s != []
    ensures NewlineMatch(s).Some? ==> BlankLines(s) == "\n" + BlankLines(s[NewlineMatch(s).value..])
    ensures NewlineMatch(s).None? ==> BlankLines(s) == [s[0]] + BlankLines(s[1..])
  {
  }

  lemma {:induction false} SpaceHead(c: char, t: string)
    requires IsSpace(c)
    ensures LStrip([c] + t) == LStrip(t)
  {
    assert ([c] + t)[1..] == t;
  }

  /** Two texts that agree after a leading whitespace character agree with it. */
  lemma {:induction false} SpaceStep(c: char, x: string, y: string)
    requires IsSpace(c) && CollapseSpaces(LStrip(x)) == CollapseSpaces(LStrip(y))
    ensures CollapseSpaces([c] + x) == CollapseSpaces([c] + y)
    ensures CollapseSpaces(LStrip([c] + x)) == CollapseSpaces(LStrip([c] + y))
  {
    SpaceHead(c, x);
    SpaceHead(c, y);
  }

  lemma {:induction false} WordStep(c: char, x: string, y: string)
    requires !IsSpace(c) && CollapseSpaces(x) == CollapseSpaces(y)
    ensures CollapseSpaces([c] + x) == CollapseSpaces([c] + y)
    ensures CollapseSpaces(LStrip([c] + x)) == CollapseSpaces(LStrip([c] + y))
  {
    assert ([c] + x)[1..] == x;
    assert ([c] + y)[1..] == y;
  }

  /** Texts that start with whitespace and agree after it collapse alike. */
  lemma {:induction false} SameAfterSpace(u: string, v: string)
    requires u != [] && v != [] && IsSpace(u[0]) && IsSpace(v[0]) && LStrip(u) == LStrip(v)
    ensures CollapseSpaces(u) == CollapseSpaces(v)
    ensures CollapseSpaces(LStrip(u)) == CollapseSpaces(LStrip(v))
  {
  }

  /** The `\w` class, on ASCII letters and digits, the underscore and Hangul
      (syllables, jamo and compatibility jamo). */
  predicate IsWordChar(c: char) {
    || ('a' <= c <= 'z') || ('A' <= c <= 'Z') || ('0' <= c <= '9') || c == '_'
    || ('\U{ac00}' <= c <= '\U{d7a3}')
    || ('\U{1100}' <= c <= '\U{11ff}')
    || ('\U{3131}' <= c <= '\U{318e}')
  }

  /** The characters that the class `[^\w\s\.,!?\/\-\(\)\[\]\{\}:;\'\"]` does not match. */
  predicate IsKept(c: char) {
    IsWordChar(c) || IsSpace(c) || c in ".,!?/-()[]{}:;'\""
  }

  /** The third substitution: every character outside the kept class is deleted. */
  function KeepAllowed(s: string): (r: string)
    ensures forall x :: x in r <==> x in s && IsKept(x)
  {
    if s == [] then []
    else
      assert s == [s[0]] + s[1..];
      (if IsKept(s[0]) then [s[0]] else []) + KeepAllowed(s[1..])
  }

  /** What is left after the run of `c` at the start of `s`. */
  function DropRun(s: string, c: char): (r: string)
    ensures |r| <= |s| && r == s[|s| - |r|..]
    ensures forall i :: 0 <= i < |s| - |r| ==> s[i] == c
    ensures r == [] || r[0] != c
  {
    if s != [] && s[0] == c then DropRun(s[1..], c) else s
  }

  /** Two adjacent copies of `c` occur nowhere in `s`. */
  predicate NoDouble(s: string, c: char) {
    |s| < 2 || (!(s[0] == c && s[1] == c) && NoDouble(s[1..], c))
  }

  /** `re.sub('[c]{2,}', c, s)`: every run of `c` becomes a single `c`. */
  function CollapseRun(s: string, c: char): (r: string)
    ensures s != [] ==> r != [] && r[0] == s[0]
    ensures forall x :: x in r <==> x in s
    ensures NoDouble(r, c)
    decreases |s|
  {
    if s == [] then []
    else if s[0] == c then
      var d := DropRun(s, c);
      assert s == s[..|s| - |d|] + d;
      [c] + CollapseRun(d, c)
    else
      assert s == [s[0]] + s[1..];
      [s[0]] + CollapseRun(s[1..], c)
  }

  lemma {:induction false} NoDoubleSuffix(s: string, c: char, k: nat)
    requires k <= |s| && NoDouble(s, c)
    ensures NoDouble(s[k..], c)
    decreases k
  {
    if k > 0 {
      NoDoubleSuffix(s[1..], c, k - 1);
      assert s[1..][k - 1..] == s[k..];
    }
  }

  lemma {:induction false} NoDoublePrefix(s: string, c: char, k: nat)
    requires k <= |s| && NoDouble(s, c)
    ensures NoDouble(s[..k], c)
    decreases k
  {
    if k >= 2 {
      NoDoublePrefix(s[1..], c, k - 1);
      assert s[1..][..k - 1] == s[..k][1..];
    }
  }

  /** Collapsing the runs of one character never joins two copies of another. */
  lemma {:induction false} CollapseRunKeepsNoDouble(s: string, c: char, d: char)
    requires c != d && NoDouble(s, d)
    ensures NoDouble(CollapseRun(s, c), d)
    decreases |s|
  {
    if s != [] {
      if s[0] == c {
        var t := DropRun(s, c);
        NoDoubleSuffix(s, d, |s| - |t|);
        CollapseRunKeepsNoDouble(t, c, d);
        assert ([c] + CollapseRun(t, c))[1..] == CollapseRun(t, c);
      } else {
        NoDoubleSuffix(s, d, 1);
        CollapseRunKeepsNoDouble(s[1..], c, d);
        assert ([s[0]] + CollapseRun(s[1..], c))[1..] == CollapseRun(s[1..], c);
      }
    }
  }

  /** The recursive `NoDouble` is Python's `c * 2 not in s`. */
  lemma {:induction false} NoDoubleContains(s: string, c: char)
    ensures NoDouble(s, c) <==> !Contains(s, [c, c])
    decreases |s|
  {
    if |s| >= 2 {
      NoDoubleContains(s[1..], c);
      assert StartsWith(s, [c, c]) <==> s[0] == c && s[1] == c;
    } else if s != [] {
      assert s[1..] == [];
    }
  }

  /** The substitutions of `preprocess_text`, before its final `strip()`: blank lines,
      whitespace runs, special characters, then runs of `.`, `!` and `?`. */
  function Cleaned(text: string): (r: string)
    ensures '\n' !in r
    ensures NoDouble(r, '.') && NoDouble(r, '!') && NoDouble(r, '?')
  {
    var collapsed := CollapseSpaces(BlankLines(text));
    var kept := KeepAllowed(collapsed);
    var dots := CollapseRun(kept, '.');
    var bangs := CollapseRun(dots, '!');
    CollapseRunKeepsNoDouble(dots, '!', '.');
    CollapseRunKeepsNoDouble(bangs, '?', '.');
    CollapseRunKeepsNoDouble(bangs, '?', '!');
    CollapseSpacesNoNewline(BlankLines(text));
    CollapseRun(bangs, '?')
  }

  /** A character survives the substitutions, or appears in their result, exactly
      when it is in the input and in the kept class, whitespace aside. */
  lemma {:induction false} CleanedChars(text: string, c: char)
    requires !IsSpace(c)
    ensures c in Cleaned(text) <==> c in text && IsKept(c)
  {
    var b := BlankLines(text);
    BlankLinesChars(text);
    if c in text && IsKept(c) {
      CollapseSpacesKeeps(b, c);
    }
    if c in CollapseSpaces(b) {
      CollapseSpacesFrom(b, c);
    }
  }

  /** Removing both ends keeps a string free of doubled characters. */
  lemma {:induction false} StripNoDouble(s: string, c: char)
    requires NoDouble(s, c)
    ensures NoDouble(Strip(s), c)
  {
    var l := LStrip(s);
    NoDoubleSuffix(s, c, |s| - |l|);
    NoDoublePrefix(l, c, |Strip(s)|);
  }

  /** `preprocess_text(text)`. */
  function Preprocess(text: string): Option<string> {
    var t := Strip(Cleaned(text));
    if t == [] || AllSpace(t) then None else Some(t)
  }

  /** A result is stripped, holds no newline and no `..`, `!!` or `??`. */
  lemma {:induction false} PreprocessShape(text: string)
    ensures Preprocess(text).Some? ==> var t := Preprocess(text).value;
      && t != [] && !IsSpace(t[0]) && !IsSpace(t[|t| - 1])
      && '\n' !in t
      && !Contains(t, "..") && !Contains(t, "!!") && !Contains(t, "??")
  {
    var single := Cleaned(text);
    var t := Strip(single);
    StripSpec(single);
    StripNoDouble(single, '.');
    StripNoDouble(single, '!');
    StripNoDouble(single, '?');
    NoDoubleContains(t, '.');
    NoDoubleContains(t, '!');
    NoDoubleContains(t, '?');
    StripKeeps(single, '\n');
  }

  /** `preprocess_text` yields a text exactly when the input holds a character that
      is neither whitespace nor deleted by the special-character filter. */
  lemma {:induction false} PreprocessSomeIff(text: string)
    ensures Preprocess(text).Some? <==>
      exists i :: 0 <= i < |text| && IsKept(text[i]) && !IsSpace(text[i])
  {
    var single := Cleaned(text);
    var t := Strip(single);
    if exists i :: 0 <= i < |text| && IsKept(text[i]) && !IsSpace(text[i]) {
      var i :| 0 <= i < |text| && IsKept(text[i]) && !IsSpace(text[i]);
      var c := text[i];
      CleanedChars(text, c);
      StripKeeps(single, c);
      assert !AllSpace(t) by {
        var j :| 0 <= j < |t| && t[j] == c;
      }
    }
    if Preprocess(text).Some? {
      var j :| 0 <= j < |t| && !IsSpace(t[j]);
      var c := t[j];
      StripKeeps(single, c);
      CleanedChars(text, c);
      var i :| 0 <= i < |text| && text[i] == c;
    }
  }
}
