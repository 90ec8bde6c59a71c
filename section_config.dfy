/**
 * The section configuration of code/ppt_processor.py: `get_section_and_subsection`
 * reads `data/config/<stem>_section_data.txt`, a text of blank-line separated
 * blocks, each a `[Section]` header followed by `range:Subsection` lines, where a
 * range is `a-b` (inclusive) or a single page number.
 */
module SectionConfig {
  import opened Outcomes
  import opened Text

  const Other := "Other"

  /** One body line against a page: `Some(subsection)` when the line's range holds
      the page, `None` when it does not, `ValueError` when the line does not unpack
      into a range and a name or a bound is not an integer. */
  function ParseLine(line: string, page: int): (r: Result<Option<string>>)
    ensures multiset(line)[':'] != 1 ==> r == Err(ValueError)
  {
    SplitOnCount(line, ':');
    var parts := SplitOn(line, ":");
    if |parts| != 2 then Err(ValueError)
    else
      var range := parts[0];
      if Contains(range, "-") then
        var ends := SplitOn(range, "-");
        if |ends| != 2 then Err(ValueError)
        else
          match (ParseInt(ends[0]), ParseInt(ends[1]))
          case (Ok(lo), Ok(hi)) => Ok(if lo <= page <= hi then Some(parts[1]) else None)
          case _ => Err(ValueError)
      else
        match ParseInt(range)
        case Ok(n) => Ok(if n == page then Some(parts[1]) else None)
        case Err(e) => Err(e)
  }

  /** `not line.strip()`: the line is whitespace only (see `Text.StripSpec`). */
  predicate Blank(line: string) {
    AllSpace(line)
  }

  /** The body-line parser for one page, as a value the scans are generic in. */
  function LineParser(page: int): string -> Result<Option<string>> {
    line => ParseLine(line, page)
  }

  /** The inner loop over a block's body lines: blank lines are skipped, the first
      line that `parse` finds holding the page ends the scan, a malformed line
      raises. */
  function ScanLines(lines: seq<string>, parse: string -> Result<Option<string>>): Result<Option<string>> {
    if lines == [] then Ok(None)
    else if Blank(lines[0]) then ScanLines(lines[1..], parse)
    else
      match parse(lines[0])
      case Err(e) => Err(e)
      case Ok(Some(sub)) => Ok(Some(sub))
      case Ok(None) => ScanLines(lines[1..], parse)
  }

  /** The section name of a block's header line: `[` and `]` stripped from both ends. */
  function HeaderName(header: string): string {
    StripChars(header, {'[', ']'})
  }

  /** A block's verdict: `Some((section, subsection))` when one of its lines holds
      the page; a blank block says nothing. */
  function ScanBlock(block: string, page: int): Result<Option<(string, string)>> {
    if Blank(block) then Ok(None)
    else
      var lines := SplitOn(Strip(block), "\n");
      match ScanLines(lines[1..], LineParser(page))
      case Err(e) => Err(e)
      case Ok(None) => Ok(None)
      case Ok(Some(sub)) => Ok(Some((HeaderName(lines[0]), sub)))
  }

  function BlockScanner(page: int): string -> Result<Option<(string, string)>> {
    block => ScanBlock(block, page)
  }

  /** The outer loop: every block is scanned, a later verdict replaces `current`. */
  function ScanBlocks(blocks: seq<string>, scan: string -> Result<Option<(string, string)>>,
                      current: (string, string)): Result<(string, string)> {
    if blocks == [] then Ok(current)
    else
      match scan(blocks[0])
      case Err(e) => Err(e)
      case Ok(None) => ScanBlocks(blocks[1..], scan, current)
      case Ok(Some(found)) => ScanBlocks(blocks[1..], scan, found)
  }

  /** `get_section_and_subsection(page_num, ppt_name)` given the configuration text,
      `None` when the file is missing. */
  function Lookup(config: Option<string>, page: int): Result<(string, string)> {
    match config
    case None => Ok((Other, Other))
    case Some(text) => ScanBlocks(SplitOn(text, "\n\n"), BlockScanner(page), (Other, Other))
  }

  /** The source's nested loops, with the inner `break`. */
  method GetSectionAndSubsection(config: Option<string>, page: int)
    returns (r: Result<(string, string)>)
    ensures r == Lookup(config, page)
    ensures config.None? ==> r == Ok((Other, Other))
  {
    if config.None? {
      return Ok((Other, Other));
    }
    var blocks := SplitOn(config.value, "\n\n");
    var current := (Other, Other);
    for i := 0 to |blocks|
      invariant ScanBlocks(blocks, BlockScanner(page), (Other, Other))
        == ScanBlocks(blocks[i..], BlockScanner(page), current)
    {
      assert blocks[i..][1..] == blocks[i + 1..];
      var block := blocks[i];
      if Blank(block) {
        continue;
      }
      var lines := SplitOn(Strip(block), "\n");
      var sectionName := HeaderName(lines[0]);
      var j := 1;
      var found: Option<string> := None;
      while j < |lines|
        invariant 1 <= j <= |lines|
        invariant ScanLines(lines[1..], LineParser(page)) == ScanLines(lines[j..], LineParser(page))
        invariant found.None?
        decreases |lines| - j
      {
        assert lines[j..][1..] == lines[j + 1..];
        var line := lines[j];
        if !Blank(line) {
          var m := ParseLine(line, page);
          if m.Err? {
            return Err(m.error);
          }
          if m.value.Some? {
            found := m.value;
            break;
          }
        }
        j := j + 1;
      }
      assert ScanLines(lines[1..], LineParser(page)) == Ok(found);
      assert ScanBlock(block, page) == if found.Some? then Ok(Some((sectionName, found.value))) else Ok(None);
      if found.Some? {
        current := (sectionName, found.value);
      }
    }
    r := Ok(current);
  }

  /** Within a block the first line that holds the page decides: the scan finds
      `sub` exactly when some non-blank line yields `sub` and every non-blank line
      before it parses and misses the page. */
  lemma {:induction false} FirstLineWins(lines: seq<string>, parse: string -> Result<Option<string>>, sub: string)
    ensures ScanLines(lines, parse) == Ok(Some(sub)) <==>
      exists j :: 0 <= j < |lines| && !Blank(lines[j]) && parse(lines[j]) == Ok(Some(sub))
        && forall i :: 0 <= i < j ==> Blank(lines[i]) || parse(lines[i]) == Ok(None)
  {
    if lines == [] {
      return;
    }
    FirstLineWins(lines[1..], parse, sub);
    if Blank(lines[0]) || parse(lines[0]) == Ok(None) {
      assert ScanLines(lines, parse) == ScanLines(lines[1..], parse);
      if ScanLines(lines, parse) == Ok(Some(sub)) {
        var j :| 0 <= j < |lines[1..]| && !Blank(lines[1..][j])
          && parse(lines[1..][j]) == Ok(Some(sub))
          && forall i :: 0 <= i < j ==> Blank(lines[1..][i]) || parse(lines[1..][i]) == Ok(None);
        SkipPrefix(lines, parse, j);
        assert lines[j + 1] == lines[1..][j];
      }
      if exists j :: (0 <= j < |lines| && !Blank(lines[j]) && parse(lines[j]) == Ok(Some(sub))
        && (forall i :: 0 <= i < j ==> Blank(lines[i]) || parse(lines[i]) == Ok(None)))
      {
        var j :| 0 <= j < |lines| && !Blank(lines[j]) && parse(lines[j]) == Ok(Some(sub))
          && (forall i :: 0 <= i < j ==> Blank(lines[i]) || parse(lines[i]) == Ok(None));
        DropPrefix(lines, parse, sub, j);
      }
    }
  }

  /** A winning line after a skipped first line wins in the rest. */
  lemma {:induction false} DropPrefix(lines: seq<string>, parse: string -> Result<Option<string>>, sub: string, j: nat)
    requires j < |lines| && !Blank(lines[j]) && parse(lines[j]) == Ok(Some(sub))
    requires Blank(lines[0]) || parse(lines[0]) == Ok(None)
    requires forall i :: 0 <= i < j ==> Blank(lines[i]) || parse(lines[i]) == Ok(None)
    ensures j > 0
    ensures !Blank(lines[1..][j - 1]) && parse(lines[1..][j - 1]) == Ok(Some(sub))
    ensures forall i :: 0 <= i < j - 1 ==> Blank(lines[1..][i]) || parse(lines[1..][i]) == Ok(None)
  {
    assert j > 0;
    assert lines[1..][j - 1] == lines[j];
    assert forall i :: 0 <= i < j - 1 ==> lines[1..][i] == lines[i + 1];
  }

  lemma {:induction false} SkipPrefix(lines: seq<string>, parse: string -> Result<Option<string>>, j: nat)
    requires lines != [] && j < |lines| - 1
    requires Blank(lines[0]) || parse(lines[0]) == Ok(None)
    requires forall i :: 0 <= i < j ==> Blank(lines[1..][i]) || parse(lines[1..][i]) == Ok(None)
    ensures forall i :: 0 <= i < j + 1 ==> Blank(lines[i]) || parse(lines[i]) == Ok(None)
  {
    forall i | 0 <= i < j + 1
      ensures Blank(lines[i]) || parse(lines[i]) == Ok(None)
    {
      if i > 0 {
        assert lines[i] == lines[1..][i - 1];
      }
    }
  }

  /** The verdict of the last block that holds the page, or `initial`. */
  function LastVerdict(blocks: seq<string>, scan: string -> Result<Option<(string, string)>>,
                       initial: (string, string)): (string, string)
    requires forall k :: 0 <= k < |blocks| ==> scan(blocks[k]).Ok?
  {
    if blocks == [] then initial
    else
      match scan(blocks[|blocks| - 1]).value
      case Some(found) => found
      case None => LastVerdict(blocks[..|blocks| - 1], scan, initial)
  }

  lemma {:induction false} LastVerdictFirst(blocks: seq<string>, scan: string -> Result<Option<(string, string)>>,
                                             initial: (string, string))
    requires blocks != []
    requires forall k :: 0 <= k < |blocks| ==> scan(blocks[k]).Ok?
    ensures LastVerdict(blocks, scan, initial) == LastVerdict(blocks[1..], scan,
      match scan(blocks[0]).value case Some(found) => found case None => initial)
    decreases |blocks|
  {
    if |blocks| > 1 {
      var pre := blocks[..|blocks| - 1];
      LastVerdictFirst(pre, scan, initial);
      assert pre[1..] == blocks[1..][..|blocks[1..]| - 1];
    }
  }

  /** A later block overrides an earlier one: when every block parses, the result
      is the verdict of the last block holding the page, `initial` when none does;
      a malformed line in a scanned block makes the whole lookup fail. */
  lemma {:induction false} LastBlockWins(blocks: seq<string>, scan: string -> Result<Option<(string, string)>>,
                                          initial: (string, string))
    ensures (forall k :: 0 <= k < |blocks| ==> scan(blocks[k]).Ok?) ==>
      ScanBlocks(blocks, scan, initial) == Ok(LastVerdict(blocks, scan, initial))
    ensures (exists k :: 0 <= k < |blocks| && scan(blocks[k]).Err?) ==>
      ScanBlocks(blocks, scan, initial).Err?
    decreases |blocks|
  {
    if blocks != [] {
      var next := match scan(blocks[0]) case Ok(Some(found)) => found case _ => initial;
      LastBlockWins(blocks[1..], scan, next);
      assert forall k :: 1 <= k < |blocks| ==> blocks[k] == blocks[1..][k - 1];
      if forall k :: 0 <= k < |blocks| ==> scan(blocks[k]).Ok? {
        LastVerdictFirst(blocks, scan, initial);
      }
    }
  }

  /** Stripping the brackets of a `[Name]` header gives back `Name`. */
  lemma {:induction false} BracketedHeader(name: string)
    requires name == [] || (name[0] !in {'[', ']'} && name[|name| - 1] !in {'[', ']'})
    ensures HeaderName("[" + name + "]") == name
  {
    var h := "[" + name + "]";
    var cs := {'[', ']'};
    assert h[0] == '[' && h[1..] == name + "]";
    StripCharsFront(h, cs);
    var t := name + "]";
    if name == [] {
      StripCharsFront(t, cs);
      assert t[1..] == [];
    } else {
      assert t[0] == name[0] && t[|t| - 1] == ']' && t[..|t| - 1] == name;
      StripCharsBack(t, cs);
    }
    StripCharsKeeps(name, cs);
  }

  lemma {:induction false} StripCharsFront(s: string, cs: set<char>)
    requires s != [] && s[0] in cs
    ensures StripChars(s, cs) == StripChars(s[1..], cs)
  {
  }

  lemma {:induction false} StripCharsBack(s: string, cs: set<char>)
    requires s != [] && s[0] !in cs && s[|s| - 1] in cs
    ensures StripChars(s, cs) == StripChars(s[..|s| - 1], cs)
  {
  }

  lemma {:induction false} StripCharsKeeps(s: string, cs: set<char>)
    requires s == [] || (s[0] !in cs && s[|s| - 1] !in cs)
    ensures StripChars(s, cs) == s
  {
  }

  /** A decimal numeral holds neither separator of a body line. */
  lemma {:induction false} NumeralFree(n: nat)
    ensures ':' !in NatToString(n) && '-' !in NatToString(n)
  {
    var a := NatToString(n);
    assert forall i :: 0 <= i < |a| ==> IsDigit(a[i]);
  }

  /** The unpacking of `range:sub` when `sub` holds no colon. */
  lemma {:induction false} SplitColon(range: string, sub: string)
    requires ':' !in range && ':' !in sub
    ensures SplitOn(range + ":" + sub, ":") == [range, sub]
  {
    SplitOnFirst(range, ':', sub);
    SplitOnAbsent(sub, ':');
    assert range + ":" + sub == range + [':'] + sub;
  }

  /** A line `a-b:Name` holds exactly the pages from `a` to `b`. */
  lemma {:induction false} RangeLine(lo: nat, hi: nat, sub: string, page: int)
    requires ':' !in sub
    ensures ParseLine(NatToString(lo) + "-" + NatToString(hi) + ":" + sub, page)
      == Ok(if lo <= page <= hi then Some(sub) else None)
  {
    var a := NatToString(lo);
    var b := NatToString(hi);
    NumeralFree(lo);
    NumeralFree(hi);
    var range := a + "-" + b;
    assert range == a + ['-'] + b;
    SplitColon(range, sub);
    ContainsChar(range, '-');
    SplitOnFirst(a, '-', b);
    SplitOnAbsent(b, '-');
    assert SplitOn(range, "-") == [a, b];
    ParseIntToString(lo);
    ParseIntToString(hi);
    ParseRangeParts(range + ":" + sub, range, sub, a, b, page);
  }

  lemma {:induction false} ParseRangeParts(line: string, range: string, sub: string, a: string, b: string, page: int)
    requires SplitOn(line, ":") == [range, sub] && Contains(range, "-")
    requires SplitOn(range, "-") == [a, b] && ParseInt(a).Ok? && ParseInt(b).Ok?
    ensures ParseLine(line, page)
      == Ok(if ParseInt(a).value <= page <= ParseInt(b).value then Some(sub) else None)
  {
  }

  /** A line `n:Name` holds exactly page `n`. */
  lemma {:induction false} BareLine(n: nat, sub: string, page: int)
    requires ':' !in sub
    ensures ParseLine(NatToString(n) + ":" + sub, page) == Ok(if n == page then Some(sub) else None)
  {
    var a := NatToString(n);
    NumeralFree(n);
    SplitColon(a, sub);
    ContainsChar(a, '-');
    ParseIntToString(n);
  }
}
