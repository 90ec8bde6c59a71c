/**
 * Python string primitives that the preprocessing and retrieval scripts use:
 * whitespace and `strip`, `split`/`join`, substring search, `splitlines`,
 * ASCII case mapping, and the int <-> decimal-string conversions of `str()`
 * and `int()`.
 */
module Text {
  import opened Outcomes

  /** `str.isspace()` on one character; also the `\s` class of `re` on str patterns. */
  predicate IsSpace(c: char) {
    || c == ' '
    || ('\t' <= c <= '\r')
    || ('\U{1c}' <= c <= '\U{1f}')
    || c == '\U{85}' || c == '\U{a0}' || c == '\U{1680}'
    || ('\U{2000}' <= c <= '\U{200a}')
    || c == '\U{2028}' || c == '\U{2029}' || c == '\U{202f}' || c == '\U{205f}' || c == '\U{3000}'
  }

  predicate AllSpace(s: string) {
    forall i :: 0 <= i < |s| ==> IsSpace(s[i])
  }

  /** `str.lstrip()`: what is left after the leading whitespace run. */
  function LStrip(s: string): (r: string)
    ensures |r| <= |s| && r == s[|s| - |r|..]
    ensures AllSpace(s[..|s| - |r|])
    ensures |r| == 0 || !IsSpace(r[0])
  {
    if |s| > 0 && IsSpace(s[0]) then
      var r := LStrip(s[1..]);
      assert s[|s| - |r|..] == s[1..][|s| - 1 - |r|..];
      AllSpaceCons(s[0], s[1..][..|s| - 1 - |r|]);
      assert s[..|s| - |r|] == [s[0]] + s[1..][..|s| - 1 - |r|];
      r
    else s
  }

  lemma {:induction false} AllSpaceCons(c: char, t: string)
    requires IsSpace(c) && AllSpace(t)
    ensures AllSpace([c] + t)
  {
    forall i | 0 <= i < |[c] + t|
      ensures IsSpace(([c] + t)[i])
    {
      if i > 0 {
        assert ([c] + t)[i] == t[i - 1];
      }
    }
  }

  lemma {:induction false} AllSpaceSnoc(t: string, c: char)
    requires IsSpace(c) && AllSpace(t)
    ensures AllSpace(t + [c])
  {
    forall i | 0 <= i < |t + [c]|
      ensures IsSpace((t + [c])[i])
    {
      if i < |t| {
        assert (t + [c])[i] == t[i];
      }
    }
  }

  /** `str.rstrip()`: what is left before the trailing whitespace run. */
  function RStrip(s: string): (r: string)
    ensures |r| <= |s| && r == s[..|r|]
    ensures AllSpace(s[|r|..])
    ensures |r| == 0 || !IsSpace(r[|r| - 1])
  {
    if |s| > 0 && IsSpace(s[|s| - 1]) then
      var pre := s[..|s| - 1];
      var r := RStrip(pre);
      assert pre[..|r|] == s[..|r|];
      AllSpaceSnoc(pre[|r|..], s[|s| - 1]);
      assert s[|r|..] == pre[|r|..] + [s[|s| - 1]];
      r
    else s
  }

  /** `str.strip()`. */
  function Strip(s: string): string {
    RStrip(LStrip(s))
  }

  /** A non-empty result of `strip()` starts and ends with a non-whitespace character. */
  lemma {:induction false} StripEnds(s: string)
    ensures Strip(s) != [] ==> !IsSpace(Strip(s)[0]) && !IsSpace(Strip(s)[|Strip(s)| - 1])
  {
  }

  /** `strip()` removes exactly the whitespace at both ends: the result is a slice of `s`
      that neither starts nor ends in whitespace, and everything cut off is whitespace.
      In particular the result is empty exactly when `s` is all whitespace. */
  lemma {:induction false} StripSpec(s: string)
    ensures var r := Strip(s);
      exists a :: 0 <= a <= |s| - |r| && r == s[a..a + |r|]
        && AllSpace(s[..a]) && AllSpace(s[a + |r|..])
    ensures Strip(s) != [] ==> !IsSpace(Strip(s)[0]) && !IsSpace(Strip(s)[|Strip(s)| - 1])
    ensures Strip(s) == [] <==> AllSpace(s)
  {
    StripSlice(s);
    StripEnds(s);
    StripEmpty(s);
  }

  /** The result of `strip()` is the slice of `s` between its whitespace ends. */
  lemma {:induction false} StripSlice(s: string)
    ensures var r := Strip(s);
      var a := |s| - |LStrip(s)|;
      0 <= a <= |s| - |r| && r == s[a..a + |r|] && AllSpace(s[..a]) && AllSpace(s[a + |r|..])
  {
    var l := LStrip(s);
    var r := RStrip(l);
    SliceCompose(s, |s| - |l|, l, r);
  }

  /** A prefix of a suffix is a middle slice; what follows the prefix is a suffix of the whole. */
  lemma {:induction false} SliceCompose(z: string, a: nat, y: string, x: string)
    requires a <= |z| && y == z[a..] && |x| <= |y| && x == y[..|x|]
    ensures a + |x| <= |z| && x == z[a..a + |x|] && y[|x|..] == z[a + |x|..]
  {
  }

  /** `strip()` gives the empty string exactly for an all-whitespace string. */
  lemma {:induction false} StripEmpty(s: string)
    ensures Strip(s) == [] <==> AllSpace(s)
  {
    var l := LStrip(s);
    var a := |s| - |l|;
    if |RStrip(l)| == 0 {
      assert l[0..] == l;
      AllSpaceConcat(s[..a], l);
      assert s == s[..a] + l;
    }
  }

  lemma {:induction false} AllSpaceConcat(t: string, u: string)
    requires AllSpace(t) && AllSpace(u)
    ensures AllSpace(t + u)
  {
    forall i | 0 <= i < |t + u|
      ensures IsSpace((t + u)[i])
    {
      if i < |t| {
        assert (t + u)[i] == t[i];
      } else {
        assert (t + u)[i] == u[i - |t|];
      }
    }
  }

  /** `strip()` leaves a string without surrounding whitespace unchanged. */
  lemma {:induction false} StripNoop(s: string)
    requires s != [] ==> !IsSpace(s[0]) && !IsSpace(s[|s| - 1])
    ensures Strip(s) == s
  {
  }

  /** `str.strip(chars)` with an explicit set of characters. */
  function StripChars(s: string, cs: set<char>): (r: string)
    ensures r == [] || (r[0] !in cs && r[|r| - 1] !in cs)
    decreases |s|
  {
    if s != [] && s[0] in cs then StripChars(s[1..], cs)
    else if s != [] && s[|s| - 1] in cs then StripChars(s[..|s| - 1], cs)
    else s
  }

  predicate StartsWith(s: string, p: string) {
    |p| <= |s| && s[..|p|] == p
  }

  predicate EndsWith(s: string, p: string) {
    |p| <= |s| && s[|s| - |p|..] == p
  }

  /** `s.find(p)` as an option: the first index at which `p` occurs in `s`. */
  function Find(s: string, p: string): (r: Option<nat>)
    ensures r.Some? ==> r.value <= |s| && StartsWith(s[r.value..], p)
    decreases |s|
  {
    if StartsWith(s, p) then Some(0)
    else if s == [] then None
    else
      match Find(s[1..], p)
      case None => None
      case Some(k) =>
        assert s[k + 1..] == s[1..][k..];
        Some(k + 1)
  }

  /** `Find` gives the first occurrence, and `None` only when there is none. */
  lemma {:induction false} FindFirst(s: string, p: string)
    ensures Find(s, p).Some? ==> forall j :: 0 <= j < Find(s, p).value ==> !StartsWith(s[j..], p)
    ensures Find(s, p).None? ==> forall j :: 0 <= j <= |s| ==> !StartsWith(s[j..], p)
    decreases |s|
  {
    if !StartsWith(s, p) && s != [] {
      FindFirst(s[1..], p);
      assert forall j :: 1 <= j <= |s| ==> s[j..] == s[1..][j - 1..];
    }
  }

  /** Python's `p in s` for strings. */
  predicate Contains(s: string, p: string) {
    Find(s, p).Some?
  }

  /** An occurrence of `p` anywhere in `s` makes `p in s` true. */
  lemma {:induction false} ContainsAt(s: string, p: string, j: nat)
    requires j + |p| <= |s| && s[j..j + |p|] == p
    ensures Contains(s, p)
  {
    assert StartsWith(s[j..], p);
    FindFirst(s, p);
  }

  /** An occurrence of `p` inside a slice of `s` is an occurrence in `s`. */
  lemma {:induction false} ContainsSlice(s: string, a: nat, b: nat, p: string)
    requires a <= b <= |s| && Contains(s[a..b], p)
    ensures Contains(s, p)
  {
    var t := s[a..b];
    var j := Find(t, p).value;
    assert t[j..][..|p|] == s[a + j..a + j + |p|];
    ContainsAt(s, p, a + j);
  }

  /** `s.split(sep)` for a non-empty separator: the pieces between the leftmost
      non-overlapping occurrences of `sep`. */
  function SplitOn(s: string, sep: string): (parts: seq<string>)
    requires sep != []
    ensures |parts| >= 1
    decreases |s|
  {
    match Find(s, sep)
    case None => [s]
    case Some(i) => [s[..i]] + SplitOn(s[i + |sep|..], sep)
  }

  /** `sep.join(parts)`. */
  function Join(parts: seq<string>, sep: string): string {
    if parts == [] then []
    else if |parts| == 1 then parts[0]
    else parts[0] + sep + Join(parts[1..], sep)
  }

  /** A join starts with its first part. */
  lemma {:induction false} JoinHead(parts: seq<string>, sep: string)
    requires parts != []
    ensures |Join(parts, sep)| >= |parts[0]| && Join(parts, sep)[..|parts[0]|] == parts[0]
  {
    if |parts| > 1 {
      assert Join(parts, sep) == parts[0] + (sep + Join(parts[1..], sep));
    }
  }

  /** Every part occurs in the join. */
  lemma {:induction false} JoinHas(parts: seq<string>, sep: string, k: nat)
    requires k < |parts|
    ensures Contains(Join(parts, sep), parts[k])
    decreases k
  {
    var j := Join(parts, sep);
    if k == 0 {
      JoinHead(parts, sep);
      ContainsAt(j, parts[0], 0);
    } else {
      var rest := Join(parts[1..], sep);
      JoinHas(parts[1..], sep, k - 1);
      assert j == parts[0] + sep + rest;
      var a := |parts[0] + sep|;
      assert j[a..a + |rest|] == rest;
      ContainsSlice(j, a, a + |rest|, parts[k]);
    }
  }

  /** An occurrence in `s` is one in `s + t`. */
  lemma {:induction false} ContainsRight(s: string, t: string, p: string)
    requires Contains(s, p)
    ensures Contains(s + t, p)
  {
    assert (s + t)[0..|s|] == s;
    ContainsSlice(s + t, 0, |s|, p);
  }

  /** An occurrence in `t` is one in `s + t`. */
  lemma {:induction false} ContainsLeft(s: string, t: string, p: string)
    requires Contains(t, p)
    ensures Contains(s + t, p)
  {
    assert (s + t)[|s|..|s| + |t|] == t;
    ContainsSlice(s + t, |s|, |s| + |t|, p);
  }

  /** An occurrence in the middle piece is an occurrence in the whole. */
  lemma {:induction false} ContainsMiddle(a: string, m: string, b: string, p: string)
    requires Contains(m, p)
    ensures Contains(a + m + b, p)
  {
    var s := a + m + b;
    assert s[|a|..|a| + |m|] == m;
    ContainsSlice(s, |a|, |a| + |m|, p);
  }

  /** Joining one more part adds the separator and the part at the end. */
  lemma {:induction false} JoinSnoc(parts: seq<string>, part: string, sep: string)
    requires parts != []
    ensures Join(parts + [part], sep) == Join(parts, sep) + sep + part
    decreases |parts|
  {
    if |parts| == 1 {
      assert (parts + [part])[1..] == [part];
    } else {
      JoinSnoc(parts[1..], part, sep);
      assert (parts + [part])[1..] == parts[1..] + [part];
    }
  }

  /** Joining the pieces of a split with the same separator gives back the string. */
  lemma {:induction false} JoinSplit(s: string, sep: string)
    requires sep != []
    ensures Join(SplitOn(s, sep), sep) == s
    decreases |s|
  {
    var f := Find(s, sep);
    if f.Some? {
      var i := f.value;
      var rest := s[i + |sep|..];
      JoinSplit(rest, sep);
      var tail := SplitOn(rest, sep);
      assert SplitOn(s, sep) == [s[..i]] + tail;
      JoinCons(s[..i], tail, sep);
      FoundAround(s, sep, i);
    }
  }

  /** Joining a part in front of a non-empty list puts the separator between them. */
  lemma {:induction false} JoinCons(part: string, tail: seq<string>, sep: string)
    requires tail != []
    ensures Join([part] + tail, sep) == part + sep + Join(tail, sep)
  {
    assert ([part] + tail)[1..] == tail;
  }

  /** A string is cut around an occurrence of `p` into what precedes, `p`, and what follows. */
  lemma {:induction false} FoundAround(s: string, p: string, i: nat)
    requires i <= |s| && StartsWith(s[i..], p)
    ensures s == s[..i] + p + s[i + |p|..]
  {
    assert s[i..][..|p|] == p;
    assert s[i..i + |p|] == p;
    assert s == s[..i] + s[i..i + |p|] + s[i + |p|..];
  }

  /** Splitting a join of pieces free of the one-character separator gives the
      pieces back. */
  lemma {:induction false} SplitJoin(parts: seq<string>, c: char)
    requires parts != [] && forall k :: 0 <= k < |parts| ==> c !in parts[k]
    ensures SplitOn(Join(parts, [c]), [c]) == parts
  {
    if |parts| == 1 {
      SplitOnAbsent(parts[0], c);
    } else {
      var rest := Join(parts[1..], [c]);
      SplitJoin(parts[1..], c);
      assert Join(parts, [c]) == parts[0] + [c] + rest;
      SplitOnFirst(parts[0], c, rest);
      assert parts == [parts[0]] + parts[1..];
    }
  }

  /** No piece of a split contains the separator. */
  lemma {:induction false} SplitPiecesFree(s: string, sep: string)
    requires sep != []
    ensures forall k :: 0 <= k < |SplitOn(s, sep)| ==> !Contains(SplitOn(s, sep)[k], sep)
    decreases |s|
  {
    var f := Find(s, sep);
    FindFirst(s, sep);
    if f.Some? {
      var i := f.value;
      var tail := SplitOn(s[i + |sep|..], sep);
      SplitPiecesFree(s[i + |sep|..], sep);
      assert SplitOn(s, sep) == [s[..i]] + tail;
      NoOccurrenceBefore(s, sep, i);
    } else {
      NoOccurrenceBefore(s, sep, |s|);
      assert s[..|s|] == s;
    }
  }

  /** A prefix that ends before the first occurrence of `p` does not contain `p`. */
  lemma {:induction false} NoOccurrenceBefore(s: string, p: string, i: nat)
    requires p != [] && i <= |s|
    requires forall j :: 0 <= j < i ==> !StartsWith(s[j..], p)
    ensures !Contains(s[..i], p)
  {
    var f := Find(s[..i], p);
    if f.Some? {
      StartsWithWithin(s, p, i, f.value);
    }
  }

  /** An occurrence inside a prefix is an occurrence in the whole string. */
  lemma {:induction false} StartsWithWithin(s: string, p: string, i: nat, j: nat)
    requires j <= i <= |s| && StartsWith(s[..i][j..], p)
    ensures StartsWith(s[j..], p)
  {
    assert s[..i][j..][..|p|] == s[j..][..|p|];
  }

  /** For a one-character pattern, `p in s` is membership of the character. */
  lemma {:induction false} ContainsChar(s: string, c: char)
    ensures Contains(s, [c]) <==> c in s
    decreases |s|
  {
    if s != [] {
      ContainsChar(s[1..], c);
      assert StartsWith(s, [c]) <==> s[0] == c;
      assert s == [s[0]] + s[1..];
    }
  }

  /** Splitting on a character at its first occurrence. */
  lemma {:induction false} SplitOnFirst(a: string, c: char, b: string)
    requires c !in a
    ensures SplitOn(a + [c] + b, [c]) == [a] + SplitOn(b, [c])
  {
    var s := a + [c] + b;
    assert s[|a|..][..1] == [c];
    FindFirst(s, [c]);
    forall j | 0 <= j < |a|
      ensures !StartsWith(s[j..], [c])
    {
      assert s[j..][0] == a[j];
    }
    assert Find(s, [c]) == Some(|a|);
    assert s[..|a|] == a && s[|a| + 1..] == b;
  }

  /** A string without the separator character splits into itself. */
  lemma {:induction false} SplitOnAbsent(s: string, c: char)
    requires c !in s
    ensures SplitOn(s, [c]) == [s]
  {
    ContainsChar(s, c);
  }

  /** `len(s.split(c)) == s.count(c) + 1`. */
  lemma {:induction false} SplitOnCount(s: string, c: char)
    ensures |SplitOn(s, [c])| == multiset(s)[c] + 1
    decreases |s|
  {
    match Find(s, [c])
    case None =>
      ContainsChar(s, c);
    case Some(i) =>
      assert s[i..][..1] == [c];
      FindFirst(s, [c]);
      NoOccurrenceBefore(s, [c], i);
      ContainsChar(s[..i], c);
      SplitOnCount(s[i + 1..], c);
      FoundAround(s, [c], i);
      assert SplitOn(s, [c]) == [s[..i]] + SplitOn(s[i + 1..], [c]);
  }

  predicate IsDigit(c: char) {
    '0' <= c <= '9'
  }

  /** `str.isdigit()` on ASCII text: non-empty and all digits. */
  predicate IsDigits(s: string) {
    s != [] && forall i :: 0 <= i < |s| ==> IsDigit(s[i])
  }

  function DigitsValue(s: string): nat
    requires forall i :: 0 <= i < |s| ==> IsDigit(s[i])
  {
    if s == [] then 0
    else
      assert IsDigit(s[|s| - 1]);
      DigitsValue(s[..|s| - 1]) * 10 + (s[|s| - 1] as int - '0' as int)
  }

  function DigitChar(d: nat): (c: char)
    requires d < 10
    ensures IsDigit(c) && c as int - '0' as int == d
  {
    ('0' as int + d) as char
  }

  /** `str(n)` for a natural number. */
  function NatToString(n: nat): (s: string)
    ensures IsDigits(s)
  {
    if n < 10 then [DigitChar(n)] else NatToString(n / 10) + [DigitChar(n % 10)]
  }

  lemma {:induction false} NatToStringValue(n: nat)
    ensures DigitsValue(NatToString(n)) == n
  {
    if n >= 10 {
      NatToStringValue(n / 10);
      var s := NatToString(n);
      assert s[..|s| - 1] == NatToString(n / 10);
    }
  }

  /** `str(i)` for an integer. */
  function IntToString(i: int): string {
    if i < 0 then "-" + NatToString(-i) else NatToString(i)
  }

  /** Digits with single underscores between them, the numeral shape `int()` accepts. */
  predicate IsNumeral(s: string) {
    && s != [] && IsDigit(s[0]) && IsDigit(s[|s| - 1])
    && (forall i :: 0 <= i < |s| ==> IsDigit(s[i]) || s[i] == '_')
    && !Contains(s, "__")
  }

  function DropUnderscores(s: string): (r: string)
    requires forall i :: 0 <= i < |s| ==> IsDigit(s[i]) || s[i] == '_'
    ensures forall i :: 0 <= i < |r| ==> IsDigit(r[i])
  {
    if s == [] then [] else (if s[0] == '_' then [] else [s[0]]) + DropUnderscores(s[1..])
  }

  function NumeralValue(s: string): nat
    requires IsNumeral(s)
  {
    DigitsValue(DropUnderscores(s))
  }

  /** `int(s)` on a str: surrounding whitespace, an optional sign and an ASCII numeral;
      anything else raises `ValueError`. */
  function ParseInt(s: string): Result<int> {
    var t := Strip(s);
    if t != [] && (t[0] == '-' || t[0] == '+') then
      if IsNumeral(t[1..]) then
        var v: int := NumeralValue(t[1..]);
        Ok(if t[0] == '-' then -v else v)
      else Err(ValueError)
    else if IsNumeral(t) then
      var v: int := NumeralValue(t);
      Ok(v)
    else Err(ValueError)
  }

  lemma {:induction false} DropUnderscoresDigits(s: string)
    requires forall i :: 0 <= i < |s| ==> IsDigit(s[i])
    ensures DropUnderscores(s) == s
  {
    if s != [] {
      DropUnderscoresDigits(s[1..]);
    }
  }

  /** A plain digit string is a numeral whose value is its digits' value. */
  lemma {:induction false} DigitsNumeral(d: string)
    requires IsDigits(d)
    ensures IsNumeral(d) && NumeralValue(d) == DigitsValue(d)
  {
    DropUnderscoresDigits(d);
  }

  /** `int(str(i)) == i`. */
  lemma {:induction false} ParseIntToString(i: int)
    ensures ParseInt(IntToString(i)) == Ok(i)
  {
    var n: nat := if i < 0 then -i else i;
    var d := NatToString(n);
    NatToStringValue(n);
    DigitsNumeral(d);
    if i < 0 {
      ParseIntNegative(d);
    } else {
      ParseIntNumeral(d);
    }
  }

  /** A bare numeral parses to its value. */
  lemma {:induction false} ParseIntNumeral(d: string)
    requires IsNumeral(d)
    ensures ParseInt(d) == Ok(NumeralValue(d))
  {
    StripNoop(d);
  }

  /** A numeral after a minus sign parses to its negated value. */
  lemma {:induction false} ParseIntNegative(d: string)
    requires IsNumeral(d)
    ensures ParseInt("-" + d) == Ok(-(NumeralValue(d) as int))
  {
    var t := "-" + d;
    assert t[|t| - 1] == d[|d| - 1];
    StripNoop(t);
    assert t[1..] == d;
  }

  /** The line boundaries of `str.splitlines()`. */
  predicate IsLineBoundary(c: char) {
    || c == '\n' || c == '\r' || c == '\U{b}' || c == '\U{c}'
    || ('\U{1c}' <= c <= '\U{1e}')
    || c == '\U{85}' || c == '\U{2028}' || c == '\U{2029}'
  }

  function FirstBoundary(s: string): (r: Option<nat>)
    ensures r.Some? ==> r.value < |s| && IsLineBoundary(s[r.value])
    ensures r.Some? ==> forall j :: 0 <= j < r.value ==> !IsLineBoundary(s[j])
    ensures r.None? ==> forall j :: 0 <= j < |s| ==> !IsLineBoundary(s[j])
  {
    if s == [] then None
    else if IsLineBoundary(s[0]) then Some(0)
    else match FirstBoundary(s[1..]) case None => None case Some(k) => Some(k + 1)
  }

  /** `str.splitlines()`: pieces between line boundaries, `\r\n` counting as one,
      and no empty piece after a final boundary. */
  function SplitLines(s: string): (lines: seq<string>)
    ensures forall k, j :: 0 <= k < |lines| && 0 <= j < |lines[k]| ==> !IsLineBoundary(lines[k][j])
    decreases |s|
  {
    if s == [] then []
    else match FirstBoundary(s)
      case None => [s]
      case Some(i) =>
        var w := if s[i] == '\r' && i + 1 < |s| && s[i + 1] == '\n' then 2 else 1;
        [s[..i]] + SplitLines(s[i + w..])
  }

  /** `re.sub(r'\s+', ' ', s)`: every whitespace run becomes one space. */
  function CollapseSpaces(s: string): (r: string)
    ensures forall i :: 0 <= i < |r| && IsSpace(r[i]) ==> r[i] == ' '
    ensures s != [] && !IsSpace(s[0]) ==> r != [] && r[0] == s[0]
    ensures s != [] && IsSpace(s[0]) ==> r != [] && r[0] == ' '
    ensures forall i :: 0 <= i < |r| - 1 ==> !(r[i] == ' ' && r[i + 1] == ' ')
    decreases |s|
  {
    if s == [] then []
    else if IsSpace(s[0]) then " " + CollapseSpaces(LStrip(s))
    else [s[0]] + CollapseSpaces(s[1..])
  }

  /** Every non-whitespace character of `s` survives `CollapseSpaces`. */
  lemma {:induction false} CollapseSpacesKeeps(s: string, c: char)
    requires c in s && !IsSpace(c)
    ensures c in CollapseSpaces(s)
    decreases |s|
  {
    if s[0] != c {
      if IsSpace(s[0]) {
        var l := LStrip(s);
        assert s == s[..|s| - |l|] + l;
        assert c !in s[..|s| - |l|];
        CollapseSpacesKeeps(l, c);
      } else {
        assert s == [s[0]] + s[1..];
        CollapseSpacesKeeps(s[1..], c);
      }
    }
  }

  /** `CollapseSpaces` introduces no character other than the space. */
  lemma {:induction false} CollapseSpacesFrom(s: string, c: char)
    requires c in CollapseSpaces(s) && !IsSpace(c)
    ensures c in s
    decreases |s|
  {
    if IsSpace(s[0]) {
      var l := LStrip(s);
      assert c in CollapseSpaces(l);
      CollapseSpacesFrom(l, c);
    } else if c != s[0] {
      assert c in CollapseSpaces(s[1..]);
      CollapseSpacesFrom(s[1..], c);
    }
  }

  /** No newline survives `CollapseSpaces`. */
  lemma {:induction false} CollapseSpacesNoNewline(s: string)
    ensures '\n' !in CollapseSpaces(s)
  {
  }

  /** `strip()` keeps every non-whitespace character and introduces none. */
  lemma {:induction false} StripKeeps(s: string, c: char)
    ensures c in Strip(s) ==> c in s
    ensures c in s && !IsSpace(c) ==> c in Strip(s)
  {
    LStripKeeps(s, c);
    RStripKeeps(LStrip(s), c);
  }

  lemma {:induction false} LStripKeeps(s: string, c: char)
    ensures c in LStrip(s) ==> c in s
    ensures c in s && !IsSpace(c) ==> c in LStrip(s)
  {
    var l := LStrip(s);
    var cut := s[..|s| - |l|];
    assert s == cut + l;
    if c in s && !IsSpace(c) {
      assert c !in cut;
    }
  }

  lemma {:induction false} RStripKeeps(s: string, c: char)
    ensures c in RStrip(s) ==> c in s
    ensures c in s && !IsSpace(c) ==> c in RStrip(s)
  {
    var r := RStrip(s);
    var cut := s[|r|..];
    assert s == r + cut;
    if c in s && !IsSpace(c) {
      assert c !in cut;
    }
  }

  function LowerChar(c: char): char {
    if 'A' <= c <= 'Z' then (c as int + 32) as char else c
  }

  function UpperChar(c: char): char {
    if 'a' <= c <= 'z' then (c as int - 32) as char else c
  }

  /** `str.lower()` on ASCII letters; other characters are kept. */
  function Lower(s: string): (r: string)
    ensures |r| == |s| && forall i :: 0 <= i < |s| ==> r[i] == LowerChar(s[i])
  {
    if s == [] then [] else [LowerChar(s[0])] + Lower(s[1..])
  }

  /** `str.upper()` on ASCII letters; other characters are kept. */
  function Upper(s: string): (r: string)
    ensures |r| == |s| && forall i :: 0 <= i < |s| ==> r[i] == UpperChar(s[i])
  {
    if s == [] then [] else [UpperChar(s[0])] + Upper(s[1..])
  }

  /** `c * n` for a one-character string `c`. */
  function Repeat(c: char, n: nat): (r: string)
    ensures |r| == n && forall i :: 0 <= i < n ==> r[i] == c
  {
    if n == 0 then [] else [c] + Repeat(c, n - 1)
  }

  /** The texts `block` gives for the items, one after another. */
  function Blocks<T>(items: seq<T>, block: T -> string): string {
    if items == [] then [] else Blocks(items[..|items| - 1], block) + block(items[|items| - 1])
  }

  lemma {:induction false} BlocksSnoc<T>(items: seq<T>, i: nat, block: T -> string)
    requires i < |items|
    ensures Blocks(items[..i + 1], block) == Blocks(items[..i], block) + block(items[i])
  {
    assert items[..i + 1][..i] == items[..i];
  }

  /** The blocks of two runs of items are the first's blocks followed by the
      second's, so each item's block stands in item order. */
  lemma {:induction false} BlocksAppend<T>(a: seq<T>, b: seq<T>, block: T -> string)
    ensures Blocks(a + b, block) == Blocks(a, block) + Blocks(b, block)
    decreases |b|
  {
    if b == [] {
      assert a + b == a;
    } else {
      var pre := b[..|b| - 1];
      BlocksAppend(a, pre, block);
      assert (a + b)[..|a + b| - 1] == a + pre;
    }
  }

  /** A line as written to a text file: the text and a newline. */
  function Line(s: string): string {
    s + "\n"
  }

  /** Lines written one after another are the lines joined by newlines, with a
      final newline. */
  lemma {:induction false} LinesJoin(lines: seq<string>)
    ensures Blocks(lines, Line) == Join(lines + [""], "\n")
    decreases |lines|
  {
    if lines != [] {
      var pre := lines[..|lines| - 1];
      var x := lines[|lines| - 1];
      LinesJoin(pre);
      assert lines + [""] == pre + [x] + [""];
      if pre == [] {
        assert [x] + [""] == [x, ""];
        assert Join([x, ""], "\n") == x + "\n" + Join([""], "\n");
      } else {
        JoinSnoc(pre + [x], "", "\n");
        JoinSnoc(pre, x, "\n");
        JoinSnoc(pre, "", "\n");
      }
    }
  }

  /** Text written as lines free of newlines splits back into those lines, with
      an empty piece after the final newline. */
  lemma {:induction false} LinesSplit(lines: seq<string>)
    requires forall k :: 0 <= k < |lines| ==> '\n' !in lines[k]
    ensures SplitOn(Blocks(lines, Line), "\n") == lines + [""]
  {
    LinesJoin(lines);
    var parts := lines + [""];
    assert forall k :: 0 <= k < |parts| ==> '\n' !in parts[k] by {
      forall k | 0 <= k < |parts|
        ensures '\n' !in parts[k]
      {
        if k < |lines| {
          assert parts[k] == lines[k];
        }
      }
    }
    SplitJoin(parts, '\n');
  }

  /** The elements of the lists `f` gives for the items, in order. */
  function FlatMap<T, U>(xs: seq<T>, f: T -> seq<U>): seq<U> {
    if xs == [] then [] else FlatMap(xs[..|xs| - 1], f) + f(xs[|xs| - 1])
  }

  /** A property every item's list holds of its elements holds of the whole list. */
  lemma {:induction false} FlatMapAll<T, U>(xs: seq<T>, f: T -> seq<U>, p: U -> bool)
    requires forall k, j :: 0 <= k < |xs| && 0 <= j < |f(xs[k])| ==> p(f(xs[k])[j])
    ensures forall j :: 0 <= j < |FlatMap(xs, f)| ==> p(FlatMap(xs, f)[j])
    decreases |xs|
  {
    if xs != [] {
      var pre := xs[..|xs| - 1];
      assert forall k :: 0 <= k < |pre| ==> pre[k] == xs[k];
      FlatMapAll(pre, f, p);
    }
  }

  /** The lists of two runs of items, one after the other. */
  lemma {:induction false} FlatMapAppend<T, U>(xs: seq<T>, ys: seq<T>, f: T -> seq<U>)
    ensures FlatMap(xs + ys, f) == FlatMap(xs, f) + FlatMap(ys, f)
    decreases |ys|
  {
    if ys == [] {
      assert xs + ys == xs;
    } else {
      var pre := ys[..|ys| - 1];
      assert (xs + ys)[..|xs + ys| - 1] == xs + pre;
      FlatMapAppend(xs, pre, f);
    }
  }

  /** The first element comes from the first item whose list is not empty. */
  lemma {:induction false} FlatMapHead<T, U>(xs: seq<T>, f: T -> seq<U>)
    requires FlatMap(xs, f) != []
    ensures exists k :: 0 <= k < |xs| && f(xs[k]) != [] && FlatMap(xs, f)[0] == f(xs[k])[0]
                     && forall j :: 0 <= j < k ==> f(xs[j]) == []
    decreases |xs|
  {
    var pre := xs[..|xs| - 1];
    if FlatMap(pre, f) == [] {
      FlatMapEmpty(pre, f);
      assert forall j :: 0 <= j < |pre| ==> pre[j] == xs[j];
    } else {
      FlatMapHead(pre, f);
      var k :| 0 <= k < |pre| && f(pre[k]) != [] && FlatMap(pre, f)[0] == f(pre[k])[0]
               && forall j :: 0 <= j < k ==> f(pre[j]) == [];
      assert pre[k] == xs[k];
      assert forall j :: 0 <= j < k ==> pre[j] == xs[j];
    }
  }

  /** The flattening is empty exactly when every item's list is. */
  lemma {:induction false} FlatMapEmpty<T, U>(xs: seq<T>, f: T -> seq<U>)
    ensures FlatMap(xs, f) == [] <==> forall k :: 0 <= k < |xs| ==> f(xs[k]) == []
  {
    if xs != [] {
      var pre := xs[..|xs| - 1];
      FlatMapEmpty(pre, f);
      assert forall k :: 0 <= k < |pre| ==> pre[k] == xs[k];
    }
  }

  /** One more item adds its lines at the end. */
  lemma {:induction false} FlatMapSnoc<T, U>(xs: seq<T>, k: nat, f: T -> seq<U>)
    requires k < |xs|
    ensures FlatMap(xs[..k + 1], f) == FlatMap(xs[..k], f) + f(xs[k])
  {
    assert xs[..k + 1][..k] == xs[..k];
  }

  /** The same step after a prefix already written. */
  lemma {:induction false} FlatMapSnocAfter<T, U>(acc: seq<U>, xs: seq<T>, k: nat, f: T -> seq<U>)
    requires k < |xs|
    ensures acc + FlatMap(xs[..k + 1], f) == (acc + FlatMap(xs[..k], f)) + f(xs[k])
  {
    FlatMapSnoc(xs, k, f);
  }

  /** The item and the position in its list that an element of a flattening
      comes from. */
  lemma {:induction false} FlatMapAt<T, U>(xs: seq<T>, f: T -> seq<U>, k: nat) returns (i: nat, j: nat)
    requires k < |FlatMap(xs, f)|
    ensures i < |xs| && j < |f(xs[i])| && FlatMap(xs, f)[k] == f(xs[i])[j]
    decreases |xs|
  {
    var pre := xs[..|xs| - 1];
    assert FlatMap(xs, f) == FlatMap(pre, f) + f(xs[|xs| - 1]);
    if k < |FlatMap(pre, f)| {
      i, j := FlatMapAt(pre, f, k);
      assert pre[i] == xs[i];
    } else {
      i, j := |xs| - 1, k - |FlatMap(pre, f)|;
    }
  }

  /** The positions of the items that satisfy `p`, in order. */
  function Positions<T>(xs: seq<T>, p: T -> bool): seq<nat> {
    if xs == [] then []
    else Positions(xs[..|xs| - 1], p) + (if p(xs[|xs| - 1]) then [|xs| - 1] else [])
  }

  /** The positions are those of the satisfying items, each once, in increasing
      order. */
  lemma {:induction false} PositionsSpec<T>(xs: seq<T>, p: T -> bool)
    ensures var ks := Positions(xs, p);
      && (forall j :: 0 <= j < |ks| ==> ks[j] < |xs| && p(xs[ks[j]]))
      && (forall i, j :: 0 <= i < j < |ks| ==> ks[i] < ks[j])
      && (forall k :: 0 <= k < |xs| ==> (p(xs[k]) <==> k in ks))
  {
    PositionsOrdered(xs, p);
    PositionsMembers(xs, p);
  }

  lemma {:induction false} PositionsOrdered<T>(xs: seq<T>, p: T -> bool)
    ensures forall j :: 0 <= j < |Positions(xs, p)| ==> Positions(xs, p)[j] < |xs|
    ensures forall j :: 0 <= j < |Positions(xs, p)| ==> p(xs[Positions(xs, p)[j]])
    ensures forall i, j :: 0 <= i < j < |Positions(xs, p)| ==> Positions(xs, p)[i] < Positions(xs, p)[j]
    decreases |xs|
  {
    if xs != [] {
      var n := |xs| - 1;
      var pre := xs[..n];
      PositionsOrdered(pre, p);
      assert forall k :: 0 <= k < n ==> pre[k] == xs[k];
      var ks0 := Positions(pre, p);
      var tail: seq<nat> := if p(xs[n]) then [n] else [];
      assert Positions(xs, p) == ks0 + tail;
      assert forall j :: 0 <= j < |ks0| ==> ks0[j] < n;
    }
  }

  lemma {:induction false} PositionsMembers<T>(xs: seq<T>, p: T -> bool)
    ensures forall k :: 0 <= k < |xs| ==> (p(xs[k]) <==> k in Positions(xs, p))
    decreases |xs|
  {
    if xs != [] {
      var n := |xs| - 1;
      var pre := xs[..n];
      PositionsMembers(pre, p);
      PositionsOrdered(pre, p);
      var ks0 := Positions(pre, p);
      var tail: seq<nat> := if p(xs[n]) then [n] else [];
      assert Positions(xs, p) == ks0 + tail;
      forall k | 0 <= k < |xs|
        ensures p(xs[k]) <==> k in Positions(xs, p)
      {
        if k < n {
          assert pre[k] == xs[k];
          assert k !in tail;
        } else {
          assert forall j :: 0 <= j < |ks0| ==> ks0[j] < n;
          assert n !in ks0;
        }
      }
    }
  }

  /** A flattening in which each item gives one value when it satisfies `p` and
      none otherwise is an order-keeping filter: its values are those of the
      satisfying items, at increasing positions, each satisfying item once. */
  lemma {:induction false} FilterMapSpec<T, U>(xs: seq<T>, p: T -> bool, g: T -> U, f: T -> seq<U>)
    requires forall x :: f(x) == (if p(x) then [g(x)] else [])
    ensures var ks := Positions(xs, p);
      && |FlatMap(xs, f)| == |ks|
      && (forall j :: 0 <= j < |ks| ==> ks[j] < |xs| && p(xs[ks[j]]) && FlatMap(xs, f)[j] == g(xs[ks[j]]))
      && (forall i, j :: 0 <= i < j < |ks| ==> ks[i] < ks[j])
      && (forall k :: 0 <= k < |xs| ==> (p(xs[k]) <==> k in ks))
  {
    FilterMapValues(xs, p, g, f);
    PositionsSpec(xs, p);
  }

  lemma {:induction false} FilterMapValues<T, U>(xs: seq<T>, p: T -> bool, g: T -> U, f: T -> seq<U>)
    requires forall x :: f(x) == (if p(x) then [g(x)] else [])
    ensures var ks := Positions(xs, p);
      && |FlatMap(xs, f)| == |ks|
      && (forall j :: 0 <= j < |ks| ==> ks[j] < |xs| && FlatMap(xs, f)[j] == g(xs[ks[j]]))
    decreases |xs|
  {
    if xs != [] {
      var n := |xs| - 1;
      var pre := xs[..n];
      FilterMapValues(pre, p, g, f);
      assert forall k :: 0 <= k < n ==> pre[k] == xs[k];
      assert FlatMap(xs, f) == FlatMap(pre, f) + f(xs[n]);
    }
  }

  /** The lists of the items at the indices `lo..hi` that lie within `xs`, in
      index order; `each` sees the item and its index. */
  function FlatMapRange<T, U>(xs: seq<T>, lo: nat, hi: nat, each: (T, nat) -> seq<U>): seq<U>
    decreases hi + 1 - lo
  {
    if lo > hi then []
    else (if lo < |xs| then each(xs[lo], lo) else []) + FlatMapRange(xs, lo + 1, hi, each)
  }

  /** One step of a loop over `lo..hi`: what the index `lo` gives moves from the
      rest of the range onto the accumulated prefix. */
  lemma {:induction false} FlatMapRangeStep<T, U>(xs: seq<T>, lo: nat, hi: nat, each: (T, nat) -> seq<U>,
                                                  acc: seq<U>, found: seq<U>)
    requires lo <= hi
    requires found == (if lo < |xs| then each(xs[lo], lo) else [])
    ensures acc + FlatMapRange(xs, lo, hi, each) == (acc + found) + FlatMapRange(xs, lo + 1, hi, each)
  {
    assert FlatMapRange(xs, lo, hi, each) == found + FlatMapRange(xs, lo + 1, hi, each);
  }

  /** A property of every element of every list of the range holds of the whole. */
  lemma {:induction false} FlatMapRangeAll<T, U>(xs: seq<T>, lo: nat, hi: nat, each: (T, nat) -> seq<U>, p: U -> bool)
    requires forall i, j :: lo <= i <= hi && i < |xs| && 0 <= j < |each(xs[i], i)| ==> p(each(xs[i], i)[j])
    ensures forall j :: 0 <= j < |FlatMapRange(xs, lo, hi, each)| ==> p(FlatMapRange(xs, lo, hi, each)[j])
    decreases hi + 1 - lo
  {
    if lo <= hi {
      FlatMapRangeAll(xs, lo + 1, hi, each, p);
    }
  }

  /** An index of the range whose list is not empty makes the whole not empty. */
  lemma {:induction false} FlatMapRangeHas<T, U>(xs: seq<T>, lo: nat, hi: nat, i: nat, each: (T, nat) -> seq<U>)
    requires lo <= i <= hi && i < |xs| && each(xs[i], i) != []
    ensures FlatMapRange(xs, lo, hi, each) != []
    decreases i - lo
  {
    if lo < i {
      FlatMapRangeHas(xs, lo + 1, hi, i, each);
    }
  }

  /** The whole is empty when every index of the range gives an empty list. */
  lemma {:induction false} FlatMapRangeNone<T, U>(xs: seq<T>, lo: nat, hi: nat, each: (T, nat) -> seq<U>)
    requires forall i :: lo <= i <= hi && i < |xs| ==> each(xs[i], i) == []
    ensures FlatMapRange(xs, lo, hi, each) == []
    decreases hi + 1 - lo
  {
    if lo <= hi {
      FlatMapRangeNone(xs, lo + 1, hi, each);
    }
  }

  /** The number of indices `lo..hi` below `n`. */
  function Existing(lo: nat, hi: nat, n: nat): nat {
    if lo > hi || lo >= n then 0
    else if hi < n then hi - lo + 1
    else n - lo
  }

  /** When every index gives exactly one item, the range gives one item per
      existing index, in index order. */
  lemma {:induction false} FlatMapRangeOnes<T, U>(xs: seq<T>, lo: nat, hi: nat, each: (T, nat) -> seq<U>, g: (T, nat) -> U)
    requires forall x, i :: each(x, i) == [g(x, i)]
    ensures |FlatMapRange(xs, lo, hi, each)| == Existing(lo, hi, |xs|)
    ensures forall j :: 0 <= j < |FlatMapRange(xs, lo, hi, each)| ==>
      lo + j < |xs| && FlatMapRange(xs, lo, hi, each)[j] == g(xs[lo + j], lo + j)
    decreases hi + 1 - lo
  {
    if lo <= hi {
      FlatMapRangeOnes(xs, lo + 1, hi, each, g);
      var rest := FlatMapRange(xs, lo + 1, hi, each);
      var all := FlatMapRange(xs, lo, hi, each);
      if lo < |xs| {
        assert all == [g(xs[lo], lo)] + rest;
        forall j | 0 <= j < |all|
          ensures lo + j < |xs| && all[j] == g(xs[lo + j], lo + j)
        {
          if j > 0 {
            assert all[j] == rest[j - 1];
          }
        }
      } else {
        assert all == rest;
      }
    }
  }

  /** Writing each item as its lines writes all their lines. */
  lemma {:induction false} BlocksFlatMap<T>(xs: seq<T>, block: T -> string, lines: T -> seq<string>)
    requires forall k :: 0 <= k < |xs| ==> block(xs[k]) == Blocks(lines(xs[k]), Line)
    ensures Blocks(xs, block) == Blocks(FlatMap(xs, lines), Line)
    decreases |xs|
  {
    if xs != [] {
      var pre := xs[..|xs| - 1];
      assert forall k :: 0 <= k < |pre| ==> pre[k] == xs[k];
      BlocksFlatMap(pre, block, lines);
      BlocksAppend(FlatMap(pre, lines), lines(xs[|xs| - 1]), Line);
    }
  }
}
