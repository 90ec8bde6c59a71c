/**
 * code/cj_freshway_preprocess.py: the page-range syntax of the category file
 * (`3-9,11,13-15`), the category map it yields, the per-slide record with the
 * printed PDF page number taken from the slide text, and the plain-text dump.
 */
module CjFreshway {
  import opened Outcomes
  import opened Text

  /** Strictly increasing, hence free of duplicates. */
  predicate Increasing(xs: seq<int>) {
    forall i, j :: 0 <= i < j < |xs| ==> xs[i] < xs[j]
  }

  /** Every integer from `lo` to `hi`, none when `lo > hi`: `range(lo, hi + 1)`. */
  function Span(lo: int, hi: int): (r: set<int>)
    ensures forall n :: n in r <==> lo <= n <= hi
    decreases hi - lo
  {
    if lo > hi then {} else {lo} + Span(lo + 1, hi)
  }

  /** The pages one comma-separated part names: `a-b` every page from `a` to `b`,
      a bare number itself, a blank part nothing; a part that does not unpack
      into two ends, or whose numbers do not parse, raises `ValueError`. */
  function PartPages(part: string): (r: Result<set<int>>)
    ensures r.Err? ==> r.error == ValueError
  {
    var p := Strip(part);
    if Contains(p, "-") then
      var ends := SplitOn(p, "-");
      if |ends| != 2 then Err(ValueError)
      else
        var lo := ParseInt(ends[0]);
        var hi := ParseInt(ends[1]);
        if lo.Ok? && hi.Ok? then Ok(Span(lo.value, hi.value)) else Err(ValueError)
    else if |p| > 0 then
      var n := ParseInt(p);
      if n.Ok? then Ok({n.value}) else Err(ValueError)
    else Ok({})
  }

  /** The union of what `f` gives for each part; the first failing part makes it
      fail. */
  function UnionOf(parts: seq<string>, f: string -> Result<set<int>>): Result<set<int>> {
    if parts == [] then Ok({})
    else
      match UnionOf(parts[..|parts| - 1], f)
      case Err(e) => Err(e)
      case Ok(pages) =>
        match f(parts[|parts| - 1])
        case Err(e) => Err(e)
        case Ok(more) => Ok(pages + more)
  }

  /** The set of pages `parse_page_ranges(s)` collects. */
  function PageSet(s: string): Result<set<int>> {
    UnionOf(SplitOn(s, ","), PartPages)
  }

  /** A failure stops the fold: the parts after it do not matter. */
  lemma {:induction false} UnionOfStops(parts: seq<string>, f: string -> Result<set<int>>, n: nat)
    requires n <= |parts| && UnionOf(parts[..n], f).Err?
    ensures UnionOf(parts, f) == UnionOf(parts[..n], f)
    decreases |parts| - n
  {
    if n < |parts| {
      assert parts[..n + 1][..n] == parts[..n];
      UnionOfStops(parts, f, n + 1);
    } else {
      assert parts[..n] == parts;
    }
  }

  /** One more part: the fold so far joined with what that part gives. */
  lemma {:induction false} UnionOfSnoc(parts: seq<string>, f: string -> Result<set<int>>, i: nat, pages: set<int>)
    requires i < |parts| && UnionOf(parts[..i], f) == Ok(pages)
    ensures UnionOf(parts[..i + 1], f) == match f(parts[i]) case Err(e) => Err(e) case Ok(more) => Ok(pages + more)
  {
    assert parts[..i + 1][..i] == parts[..i];
  }

  /** The fold fails exactly when some part fails. */
  lemma {:induction false} UnionOfErr(parts: seq<string>, f: string -> Result<set<int>>)
    ensures UnionOf(parts, f).Err? <==> exists k :: 0 <= k < |parts| && f(parts[k]).Err?
  {
    if parts != [] {
      var pre := parts[..|parts| - 1];
      UnionOfErr(pre, f);
      assert forall k :: 0 <= k < |pre| ==> pre[k] == parts[k];
    }
  }

  /** The pages are the union of what the parts contribute. */
  lemma {:induction false} UnionOfMembers(parts: seq<string>, f: string -> Result<set<int>>, n: int)
    requires UnionOf(parts, f).Ok?
    ensures n in UnionOf(parts, f).value <==>
      exists k :: 0 <= k < |parts| && f(parts[k]).Ok? && n in f(parts[k]).value
  {
    if parts != [] {
      var pre := parts[..|parts| - 1];
      UnionOfMembers(pre, f, n);
      assert forall k :: 0 <= k < |pre| ==> pre[k] == parts[k];
    }
  }

  /** `x` put into its place in an increasing list, unless already there. */
  function Insert(ys: seq<int>, x: int): (r: seq<int>)
    requires Increasing(ys)
    ensures Increasing(r)
    ensures forall n :: n in r <==> n in ys || n == x
  {
    if ys == [] then [x]
    else if x < ys[0] then [x] + ys
    else if x == ys[0] then ys
    else
      assert Increasing(ys[1..]) by { IncreasingTail(ys); }
      var rest := Insert(ys[1..], x);
      assert forall n :: n in rest ==> ys[0] < n;
      ConsIncreasing(ys[0], rest);
      [ys[0]] + rest
  }

  lemma {:induction false} IncreasingTail(ys: seq<int>)
    requires Increasing(ys) && ys != []
    ensures Increasing(ys[1..])
  {
    forall i, j | 0 <= i < j < |ys| - 1
      ensures ys[1..][i] < ys[1..][j]
    {
      assert ys[1..][i] == ys[i + 1] && ys[1..][j] == ys[j + 1];
    }
  }

  lemma {:induction false} ConsIncreasing(h: int, t: seq<int>)
    requires Increasing(t) && forall n :: n in t ==> h < n
    ensures Increasing([h] + t)
  {
    var r := [h] + t;
    forall i, j | 0 <= i < j < |r|
      ensures r[i] < r[j]
    {
      assert r[j] == t[j - 1];
      if i > 0 {
        assert r[i] == t[i - 1];
      } else {
        assert t[j - 1] in t;
      }
    }
  }

  /** `sorted(pages)`: the pages inserted one by one into an increasing list. */
  method SortedPages(pages: seq<int>) returns (xs: seq<int>)
    ensures Increasing(xs)
    ensures forall n :: n in xs <==> n in pages
  {
    xs := [];
    for i := 0 to |pages|
      invariant Increasing(xs)
      invariant forall n :: n in xs <==> n in pages[..i]
    {
      assert pages[..i + 1] == pages[..i] + [pages[i]];
      xs := Insert(xs, pages[i]);
    }
    assert pages[..|pages|] == pages;
  }

  /** `pages.update(range(lo, hi + 1))`, the set held as a list without repeats. */
  method AddRange(pages: seq<int>, lo: int, hi: int) returns (r: seq<int>)
    ensures forall n :: n in r <==> n in pages || n in Span(lo, hi)
  {
    r := pages;
    if lo <= hi {
      for n := lo to hi + 1
        invariant forall m :: m in r <==> m in pages || lo <= m < n
      {
        if n !in r {
          r := r + [n];
        }
      }
    }
  }

  /** One part of `parse_page_ranges`, added to the pages collected so far. */
  method AddPart(pages: seq<int>, part: string) returns (r: Result<seq<int>>)
    ensures PartPages(part).Err? <==> r.Err?
    ensures r.Err? ==> r.error == ValueError
    ensures r.Ok? ==> forall n :: n in r.value <==> n in pages || n in PartPages(part).value
  {
    var p := Strip(part);
    if Contains(p, "-") {
      var ends := SplitOn(p, "-");
      if |ends| != 2 {
        return Err(ValueError);
      }
      var lo := ParseInt(ends[0]);
      var hi := ParseInt(ends[1]);
      if lo.Err? || hi.Err? {
        return Err(ValueError);
      }
      var added := AddRange(pages, lo.value, hi.value);
      return Ok(added);
    } else if |p| > 0 {
      var n := ParseInt(p);
      if n.Err? {
        return Err(ValueError);
      }
      return Ok(if n.value in pages then pages else pages + [n.value]);
    }
    return Ok(pages);
  }

  /** `parse_page_ranges(page_range_str)`: the pages as a sorted list, or the
      `ValueError` of the first malformed part. */
  method ParsePageRanges(s: string) returns (r: Result<seq<int>>)
    ensures PageSet(s).Err? <==> r.Err?
    ensures r.Err? ==> r.error == ValueError
    ensures r.Ok? ==> Increasing(r.value)
    ensures r.Ok? ==> forall n :: n in r.value <==> n in PageSet(s).value
  {
    var parts := SplitOn(s, ",");
    var pages: seq<int> := [];
    for i := 0 to |parts|
      invariant UnionOf(parts[..i], PartPages).Ok?
      invariant forall n :: n in pages <==> n in UnionOf(parts[..i], PartPages).value
    {
      var added := AddPart(pages, parts[i]);
      UnionOfSnoc(parts, PartPages, i, UnionOf(parts[..i], PartPages).value);
      if added.Err? {
        UnionOfStops(parts, PartPages, i + 1);
        return Err(ValueError);
      }
      pages := added.value;
    }
    assert parts[..|parts|] == parts;
    var sorted := SortedPages(pages);
    return Ok(sorted);
  }

  /** `int(str(n)) == n` for a natural number. */
  lemma {:induction false} NatToStringParses(n: nat)
    ensures ParseInt(NatToString(n)) == Ok(n as int)
  {
    ParseIntToString(n);
    assert IntToString(n) == NatToString(n);
  }

  lemma {:induction false} NoDash(n: nat)
    ensures '-' !in NatToString(n)
  {
    var a := NatToString(n);
    assert forall i :: 0 <= i < |a| ==> IsDigit(a[i]);
  }

  /** `a-b` splits on its one dash into `a` and `b`. */
  lemma {:induction false} TwoEnds(a: string, b: string)
    requires '-' !in a && '-' !in b
    ensures Contains(a + "-" + b, "-")
    ensures SplitOn(a + "-" + b, "-") == [a, b]
  {
    var p := a + "-" + b;
    assert p == a + ['-'] + b;
    assert p[|a|] == '-';
    ContainsChar(p, '-');
    SplitOnFirst(a, '-', b);
    SplitOnAbsent(b, '-');
  }

  /** The part `a-b` names every page from `a` to `b`, and none when `a > b`. */
  lemma {:induction false} RangePart(lo: nat, hi: nat)
    ensures PartPages(NatToString(lo) + "-" + NatToString(hi)) == Ok(Span(lo, hi))
    ensures lo > hi ==> PartPages(NatToString(lo) + "-" + NatToString(hi)) == Ok({})
  {
    var a := NatToString(lo);
    var b := NatToString(hi);
    var p := a + "-" + b;
    NoDash(lo);
    NoDash(hi);
    assert p[0] == a[0] && p[|p| - 1] == b[|b| - 1];
    StripNoop(p);
    TwoEnds(a, b);
    NatToStringParses(lo);
    NatToStringParses(hi);
    RangePartOf(p, a, b, lo, hi);
  }

  lemma {:induction false} RangePartOf(p: string, a: string, b: string, lo: int, hi: int)
    requires Strip(p) == p && Contains(p, "-") && SplitOn(p, "-") == [a, b]
    requires ParseInt(a) == Ok(lo) && ParseInt(b) == Ok(hi)
    ensures PartPages(p) == Ok(Span(lo, hi))
  {
  }

  /** A bare number names itself, and a blank part names nothing. */
  lemma {:induction false} BarePart(n: nat, blank: string)
    requires AllSpace(blank)
    ensures PartPages(NatToString(n)) == Ok({n as int})
    ensures PartPages(blank) == Ok({})
  {
    var a := NatToString(n);
    NoDash(n);
    StripNoop(a);
    ContainsChar(a, '-');
    NatToStringParses(n);
    StripSpec(blank);
    ContainsChar([], '-');
  }

  /** The set of a sequence's elements. */
  lemma {:induction false} ElementSet(xs: seq<int>, s: set<int>)
    requires forall n :: n in xs <==> n in s
    ensures (set n | n in xs) == s
  {
    var t := set n | n in xs;
    forall n ensures n in t <==> n in s {
    }
    assert t <= s && s <= t;
  }

  /** The category a page gets: `main_category` and `sub_category(page_range)`. */
  datatype Category = Category(main: string, sub: string)

  /** A line of the category file that is read: not blank, not a `#` comment. */
  predicate IsEntry(line: string) {
    !AllSpace(line) && !StartsWith(line, "#")
  }

  /** The entry a category line defines: its pages and the category they get, or
      `ValueError` when it does not hold exactly three `|` fields or its page
      ranges do not parse. */
  function LineEntry(line: string): Result<(set<int>, Category)> {
    var fields := SplitOn(Strip(line), "|");
    if |fields| != 3 then Err(ValueError)
    else
      var pages := PageSet(fields[2]);
      if pages.Err? then Err(ValueError)
      else Ok((pages.value, Category(fields[0], fields[1] + "(" + fields[2] + ")")))
  }

  /** `m` with every page of `pages` (re)assigned `c`. */
  function Assign(m: map<int, Category>, pages: set<int>, c: Category): (r: map<int, Category>)
    ensures r.Keys == m.Keys + pages
    ensures forall p :: p in pages ==> r[p] == c
    ensures forall p :: p in m && p !in pages ==> r[p] == m[p]
  {
    map p | p in m.Keys + pages :: if p in pages then c else m[p]
  }

  /** The map after the lines, each entry read by `entry`; the first failing entry
      makes it fail. */
  function Entries(lines: seq<string>, entry: string -> Result<(set<int>, Category)>): Result<map<int, Category>> {
    if lines == [] then Ok(map[])
    else
      match Entries(lines[..|lines| - 1], entry)
      case Err(e) => Err(e)
      case Ok(m) =>
        var line := lines[|lines| - 1];
        if !IsEntry(line) then Ok(m)
        else
          match entry(line)
          case Err(e) => Err(e)
          case Ok(en) => Ok(Assign(m, en.0, en.1))
  }

  /** `category_map` as `get_category_metadata` builds it. */
  function CategoryMap(lines: seq<string>): Result<map<int, Category>> {
    Entries(lines, LineEntry)
  }

  lemma {:induction false} EntriesStop(lines: seq<string>, entry: string -> Result<(set<int>, Category)>, n: nat)
    requires n <= |lines| && Entries(lines[..n], entry).Err?
    ensures Entries(lines, entry) == Entries(lines[..n], entry)
    decreases |lines| - n
  {
    if n < |lines| {
      assert lines[..n + 1][..n] == lines[..n];
      EntriesStop(lines, entry, n + 1);
    } else {
      assert lines[..n] == lines;
    }
  }

  /** The inner loop of `get_category_metadata`: each listed page gets `c`. */
  method AssignPages(m: map<int, Category>, pages: seq<int>, c: Category) returns (r: map<int, Category>)
    ensures r == Assign(m, (set p | p in pages), c)
  {
    r := m;
    for j := 0 to |pages|
      invariant forall p :: p in r <==> p in m || p in pages[..j]
      invariant forall p :: p in r ==> r[p] == if p in pages[..j] then c else m[p]
    {
      assert pages[..j + 1] == pages[..j] + [pages[j]];
      r := r[pages[j] := c];
    }
    assert pages[..|pages|] == pages;
    var named := set p | p in pages;
    var a := Assign(m, named, c);
    forall p ensures p in r <==> p in a {
    }
    forall p | p in r ensures r[p] == a[p] {
    }
    assert r.Keys <= a.Keys && a.Keys <= r.Keys;
  }

  /** The map after one more line: unchanged for a skipped line, updated by an entry
      that reads, and the entry's error otherwise. */
  function EntryStep(m: map<int, Category>, line: string, entry: string -> Result<(set<int>, Category)>): Result<map<int, Category>> {
    if !IsEntry(line) then Ok(m)
    else
      match entry(line)
      case Err(e) => Err(e)
      case Ok(en) => Ok(Assign(m, en.0, en.1))
  }

  lemma {:induction false} EntriesSnoc(lines: seq<string>, entry: string -> Result<(set<int>, Category)>, i: nat, m: map<int, Category>)
    requires i < |lines| && Entries(lines[..i], entry) == Ok(m)
    ensures Entries(lines[..i + 1], entry) == EntryStep(m, lines[i], entry)
  {
    assert lines[..i + 1][..i] == lines[..i];
  }

  /** One turn of the loop of `get_category_metadata`. */
  method ReadCategoryLine(m: map<int, Category>, line: string) returns (r: Result<map<int, Category>>)
    ensures r == EntryStep(m, line, LineEntry)
  {
    if AllSpace(line) || StartsWith(line, "#") {
      return Ok(m);
    }
    var fields := SplitOn(Strip(line), "|");
    if |fields| != 3 {
      return Err(ValueError);
    }
    var pages := ParsePageRanges(fields[2]);
    if pages.Err? {
      return Err(ValueError);
    }
    var category := Category(fields[0], fields[1] + "(" + fields[2] + ")");
    var updated := AssignPages(m, pages.value, category);
    ElementSet(pages.value, PageSet(fields[2]).value);
    assert LineEntry(line) == Ok((PageSet(fields[2]).value, category));
    return Ok(updated);
  }

  /** `get_category_metadata`, the file given as its lines. */
  method GetCategoryMetadata(lines: seq<string>) returns (r: Result<map<int, Category>>)
    ensures r == CategoryMap(lines)
  {
    var categoryMap: map<int, Category> := map[];
    for i := 0 to |lines|
      invariant Entries(lines[..i], LineEntry) == Ok(categoryMap)
    {
      var step := ReadCategoryLine(categoryMap, lines[i]);
      EntriesSnoc(lines, LineEntry, i, categoryMap);
      if step.Err? {
        EntriesStop(lines, LineEntry, i + 1);
        return step;
      }
      categoryMap := step.value;
    }
    assert lines[..|lines|] == lines;
    return Ok(categoryMap);
  }

  /** `line` is an entry that reads and names `page`. */
  predicate Names(line: string, entry: string -> Result<(set<int>, Category)>, page: int) {
    IsEntry(line) && entry(line).Ok? && page in entry(line).value.0
  }

  /** A line after line `k` names `page`. */
  predicate NamedAfter(lines: seq<string>, entry: string -> Result<(set<int>, Category)>, page: int, k: int) {
    exists j :: k < j < |lines| && 0 <= j && Names(lines[j], entry, page)
  }

  /** Line `k` is the last line naming `page`. */
  predicate LastNaming(lines: seq<string>, entry: string -> Result<(set<int>, Category)>, page: int, k: int) {
    0 <= k < |lines| && Names(lines[k], entry, page) && !NamedAfter(lines, entry, page, k)
  }

  /** The entry of the last line naming a page decides its category; a page no
      entry names is absent; and every entry read parses. */
  lemma {:induction false} LaterLineWins(lines: seq<string>, entry: string -> Result<(set<int>, Category)>, page: int)
    requires Entries(lines, entry).Ok?
    ensures forall k :: 0 <= k < |lines| && IsEntry(lines[k]) ==> entry(lines[k]).Ok?
    ensures page in Entries(lines, entry).value <==>
      exists k :: 0 <= k < |lines| && Names(lines[k], entry, page)
    ensures forall k :: LastNaming(lines, entry, page, k) ==> Entries(lines, entry).value[page] == entry(lines[k]).value.1
  {
    EntriesRead(lines, entry);
    EntriesHas(lines, entry, page);
    EntriesLast(lines, entry, page);
  }

  lemma {:induction false} EntriesRead(lines: seq<string>, entry: string -> Result<(set<int>, Category)>)
    requires Entries(lines, entry).Ok?
    ensures forall k :: 0 <= k < |lines| && IsEntry(lines[k]) ==> entry(lines[k]).Ok?
  {
    if lines != [] {
      var pre := lines[..|lines| - 1];
      EntriesRead(pre, entry);
      assert forall k :: 0 <= k < |pre| ==> pre[k] == lines[k];
    }
  }

  lemma {:induction false} EntriesHas(lines: seq<string>, entry: string -> Result<(set<int>, Category)>, page: int)
    requires Entries(lines, entry).Ok?
    ensures page in Entries(lines, entry).value <==>
      exists k :: 0 <= k < |lines| && Names(lines[k], entry, page)
  {
    if lines != [] {
      var pre := lines[..|lines| - 1];
      EntriesHas(pre, entry, page);
      assert forall k :: 0 <= k < |pre| ==> pre[k] == lines[k];
    }
  }

  lemma {:induction false} EntriesLast(lines: seq<string>, entry: string -> Result<(set<int>, Category)>, page: int)
    requires Entries(lines, entry).Ok?
    ensures forall k :: LastNaming(lines, entry, page, k) ==>
      page in Entries(lines, entry).value && Entries(lines, entry).value[page] == entry(lines[k]).value.1
  {
    EntriesHas(lines, entry, page);
    if lines != [] {
      var n := |lines| - 1;
      var pre := lines[..n];
      assert forall k :: 0 <= k < |pre| ==> pre[k] == lines[k];
      var m := Entries(pre, entry).value;
      EntriesLast(pre, entry, page);
      forall k | LastNaming(lines, entry, page, k)
        ensures page in Entries(lines, entry).value && Entries(lines, entry).value[page] == entry(lines[k]).value.1
      {
        if k < n {
          assert !Names(lines[n], entry, page);
          assert !NamedAfter(pre, entry, page, k);
          assert LastNaming(pre, entry, page, k);
          EntriesHas(pre, entry, page);
        }
      }
    }
  }

  /** A read line that does not hold exactly two `|` makes the whole file fail. */
  lemma {:induction false} MalformedLine(lines: seq<string>, k: nat)
    requires k < |lines| && IsEntry(lines[k]) && multiset(Strip(lines[k]))['|'] != 2
    ensures CategoryMap(lines).Err?
  {
    SplitOnCount(Strip(lines[k]), '|');
    assert LineEntry(lines[k]).Err?;
    EntriesFail(lines, LineEntry, k, k + 1);
    EntriesStop(lines, LineEntry, k + 1);
  }

  lemma {:induction false} EntriesFail(lines: seq<string>, entry: string -> Result<(set<int>, Category)>, k: nat, n: nat)
    requires k < n <= |lines| && IsEntry(lines[k]) && entry(lines[k]).Err?
    ensures Entries(lines[..n], entry).Err?
    decreases n
  {
    assert lines[..n][..n - 1] == lines[..n - 1];
    if n > k + 1 {
      EntriesFail(lines, entry, k, n - 1);
    }
  }

  /** `clean_text` of one line without its NFKC normalisation: whitespace runs
      become one space, then `strip()`. */
  function CleanText(s: string): (r: string)
    ensures |r| > 0 ==> !IsSpace(r[0]) && !IsSpace(r[|r| - 1])
    ensures '\n' !in r
  {
    var c := CollapseSpaces(s);
    CollapseSpacesNoNewline(s);
    StripKeeps(c, '\n');
    StripEnds(c);
    Strip(c)
  }

  /** `clean_text` keeps exactly the non-whitespace characters of the line, leaves
      only single spaces between them, and gives the empty string exactly for a
      blank line. */
  lemma {:induction false} CleanTextSpec(s: string)
    ensures forall c :: !IsSpace(c) ==> (c in CleanText(s) <==> c in s)
    ensures SingleSpaced(CleanText(s))
    ensures CleanText(s) == [] <==> AllSpace(s)
  {
    CleanChars(s);
    CollapsedSingle(s);
    CleanSpaces(CollapseSpaces(s));
    CleanBlank(s);
  }

  /** Every whitespace character is a plain space, and no two are adjacent. */
  predicate SingleSpaced(s: string) {
    && (forall i :: 0 <= i < |s| && IsSpace(s[i]) ==> s[i] == ' ')
    && (forall i :: 0 <= i < |s| - 1 ==> !(IsSpace(s[i]) && IsSpace(s[i + 1])))
  }

  /** Collapsing and stripping neither adds nor drops a visible character. */
  lemma {:induction false} CleanChars(s: string)
    ensures forall c :: !IsSpace(c) ==> (c in CleanText(s) <==> c in s)
  {
    var c := CollapseSpaces(s);
    forall x | !IsSpace(x)
      ensures x in Strip(c) <==> x in s
    {
      StripKeeps(c, x);
      if x in s {
        CollapseSpacesKeeps(s, x);
      }
      if x in c {
        CollapseSpacesFrom(s, x);
      }
    }
  }

  /** `CollapseSpaces` leaves single plain spaces. */
  lemma {:induction false} CollapsedSingle(s: string)
    ensures SingleSpaced(CollapseSpaces(s))
  {
  }

  /** `strip()` keeps single spacing. */
  lemma {:induction false} CleanSpaces(c: string)
    requires SingleSpaced(c)
    ensures SingleSpaced(Strip(c))
  {
    LStripSpaced(c);
    RStripSpaced(LStrip(c));
  }

  lemma {:induction false} LStripSpaced(c: string)
    requires SingleSpaced(c)
    ensures SingleSpaced(LStrip(c))
  {
    SingleSpacedSlice(c, |c| - |LStrip(c)|, |c|);
  }

  lemma {:induction false} RStripSpaced(c: string)
    requires SingleSpaced(c)
    ensures SingleSpaced(RStrip(c))
  {
    SingleSpacedSlice(c, 0, |RStrip(c)|);
  }

  lemma {:induction false} SingleSpacedSlice(s: string, a: nat, b: nat)
    requires SingleSpaced(s) && a <= b <= |s|
    ensures SingleSpaced(s[a..b])
  {
    assert forall i :: 0 <= i < b - a ==> s[a..b][i] == s[a + i];
  }

  /** Collapsing and stripping empties exactly the blank lines. */
  lemma {:induction false} CleanBlank(s: string)
    ensures CleanText(s) == [] <==> AllSpace(s)
  {
    var c := CollapseSpaces(s);
    StripEmpty(c);
    if !AllSpace(s) {
      var i :| 0 <= i < |s| && !IsSpace(s[i]);
      CollapseSpacesKeeps(s, s[i]);
    } else if !AllSpace(c) {
      var j :| 0 <= j < |c| && !IsSpace(c[j]);
      CollapseSpacesFrom(s, c[j]);
      assert false;
    }
  }

  /** A line as `extract_text_from_pptx` keeps it: non-empty, no newline, no
      whitespace at either end. */
  predicate CleanLine(line: string) {
    |line| > 0 && '\n' !in line && !IsSpace(line[0]) && !IsSpace(line[|line| - 1])
  }

  predicate AllClean(lines: seq<string>) {
    forall k :: 0 <= k < |lines| ==> CleanLine(lines[k])
  }

  /** The cleaned lines that are not empty. */
  function Cleaned(lines: seq<string>): (r: seq<string>)
    ensures AllClean(r)
  {
    if lines == [] then []
    else
      var c := CleanText(lines[|lines| - 1]);
      var pre := Cleaned(lines[..|lines| - 1]);
      if |c| == 0 then pre else CleanConcat(pre, [c]); pre + [c]
  }

  function CleanedOne(line: string): seq<string> {
    if |CleanText(line)| == 0 then [] else [CleanText(line)]
  }

  function CleansToSome(line: string): bool {
    |CleanText(line)| > 0
  }

  lemma {:induction false} CleanedFlat(lines: seq<string>)
    ensures Cleaned(lines) == FlatMap(lines, CleanedOne)
    decreases |lines|
  {
    if lines != [] {
      CleanedFlat(lines[..|lines| - 1]);
    }
  }

  /** The `if clean:` test: the kept lines are the cleaned forms of exactly the
      lines that do not clean to nothing, each once and in order. */
  lemma {:induction false} CleanedSpec(lines: seq<string>)
    ensures var ks := Positions(lines, CleansToSome);
      && |Cleaned(lines)| == |ks|
      && (forall j :: 0 <= j < |ks| ==>
            && ks[j] < |lines| && |CleanText(lines[ks[j]])| > 0
            && Cleaned(lines)[j] == CleanText(lines[ks[j]]))
      && (forall i, j :: 0 <= i < j < |ks| ==> ks[i] < ks[j])
      && (forall k :: 0 <= k < |lines| ==> (|CleanText(lines[k])| > 0 <==> k in ks))
  {
    CleanedFlat(lines);
    FilterMapSpec(lines, CleansToSome, CleanText, CleanedOne);
  }

  lemma {:induction false} CleanConcat(a: seq<string>, b: seq<string>)
    requires AllClean(a) && AllClean(b)
    ensures AllClean(a + b)
  {
    forall k | 0 <= k < |a + b|
      ensures CleanLine((a + b)[k])
    {
      if k < |a| {
        assert (a + b)[k] == a[k];
      } else {
        assert (a + b)[k] == b[k - |a|];
      }
    }
  }

  /** The lines of a slide, shape after shape. */
  function SlideLines(texts: seq<string>): (r: seq<string>)
    ensures AllClean(r)
  {
    if texts == [] then []
    else
      var pre := SlideLines(texts[..|texts| - 1]);
      var more := Cleaned(SplitLines(texts[|texts| - 1]));
      CleanConcat(pre, more);
      pre + more
  }

  /** The nested loops of `extract_text_from_pptx` collecting a slide's lines, the
      slide given as the texts of its shapes that have one. */
  method CollectLines(texts: seq<string>) returns (lines: seq<string>)
    ensures lines == SlideLines(texts)
  {
    lines := [];
    for i := 0 to |texts|
      invariant lines == SlideLines(texts[..i])
    {
      SlideLinesSnoc(texts, i);
      var pieces := SplitLines(texts[i]);
      ghost var before := lines;
      for j := 0 to |pieces|
        invariant lines == before + Cleaned(pieces[..j])
      {
        CleanedSnoc(pieces, j);
        var clean := CleanText(pieces[j]);
        if |clean| > 0 {
          AppendAssoc(before, Cleaned(pieces[..j]), [clean]);
          lines := lines + [clean];
        }
      }
      assert pieces[..|pieces|] == pieces;
    }
    assert texts[..|texts|] == texts;
  }

  lemma {:induction false} AppendAssoc<T>(a: seq<T>, b: seq<T>, c: seq<T>)
    ensures a + b + c == a + (b + c)
  {
  }

  lemma {:induction false} SlideLinesSnoc(texts: seq<string>, i: nat)
    requires i < |texts|
    ensures SlideLines(texts[..i + 1]) == SlideLines(texts[..i]) + Cleaned(SplitLines(texts[i]))
  {
    assert texts[..i + 1][..i] == texts[..i];
  }

  lemma {:induction false} CleanedSnoc(lines: seq<string>, j: nat)
    requires j < |lines|
    ensures var c := CleanText(lines[j]);
      Cleaned(lines[..j + 1]) == if |c| == 0 then Cleaned(lines[..j]) else Cleaned(lines[..j]) + [c]
  {
    assert lines[..j + 1][..j] == lines[..j];
  }

  /** The index of the first line made only of digits. */
  function FirstDigits(lines: seq<string>): (r: Option<nat>)
    ensures r.Some? ==> r.value < |lines| && IsDigits(lines[r.value])
    ensures r.Some? ==> forall j :: 0 <= j < r.value ==> !IsDigits(lines[j])
    ensures r.None? ==> forall j :: 0 <= j < |lines| ==> !IsDigits(lines[j])
  {
    if lines == [] then None
    else if IsDigits(lines[0]) then Some(0)
    else match FirstDigits(lines[1..]) case None => None case Some(k) => Some(k + 1)
  }

  /** The page-number scan of `extract_text_from_pptx`: the first digits-only line
      gives `pdf_page_number` and is left out of the content; every other line,
      later digits-only lines included, is kept in order; without such a line the
      slide number stands. */
  method ExtractPageNumber(lines: seq<string>, slideNumber: int) returns (pdfPage: int, kept: seq<string>)
    ensures match FirstDigits(lines)
      case Some(k) => pdfPage == DigitsValue(lines[k]) && kept == lines[..k] + lines[k + 1..]
      case None => pdfPage == slideNumber && kept == lines
  {
    pdfPage := slideNumber;
    var found: Option<int> := None;
    kept := [];
    for i := 0 to |lines|
      invariant Scanned(lines, i, found, kept)
    {
      ScanStep(lines, i, found, kept);
      if found.None? && IsDigits(lines[i]) {
        DigitsNumeral(lines[i]);
        ParseIntNumeral(lines[i]);
        var v := ParseInt(lines[i]);
        found := Some(v.value);
        continue;
      }
      kept := kept + [lines[i]];
    }
    assert lines[..|lines|] == lines;
    if found.Some? {
      pdfPage := found.value;
    }
  }

  /** The state of the scan after the first `i` lines. */
  predicate Scanned(lines: seq<string>, i: nat, found: Option<int>, kept: seq<string>)
    requires i <= |lines|
  {
    match FirstDigits(lines[..i])
    case None => found.None? && kept == lines[..i]
    case Some(k) => found == Some(DigitsValue(lines[k]) as int) && kept == lines[..k] + lines[k + 1..i]
  }

  /** One line of the scan: the first digits-only line is taken as the number,
      every other line is kept. */
  lemma {:induction false} ScanStep(lines: seq<string>, i: nat, found: Option<int>, kept: seq<string>)
    requires i < |lines| && Scanned(lines, i, found, kept)
    ensures found.None? && IsDigits(lines[i]) ==> Scanned(lines, i + 1, Some(DigitsValue(lines[i]) as int), kept)
    ensures !(found.None? && IsDigits(lines[i])) ==> Scanned(lines, i + 1, found, kept + [lines[i]])
  {
    FirstDigitsAppend(lines, i);
    assert lines[..i + 1] == lines[..i] + [lines[i]];
    match FirstDigits(lines[..i])
    case None =>
      if IsDigits(lines[i]) {
        assert lines[..i] == lines[..i] + lines[i + 1..i + 1];
      }
    case Some(k) =>
      assert lines[k + 1..i + 1] == lines[k + 1..i] + [lines[i]];
  }

  lemma {:induction false} FirstDigitsAppend(lines: seq<string>, i: nat)
    requires i < |lines|
    ensures FirstDigits(lines[..i]).Some? ==> FirstDigits(lines[..i + 1]) == FirstDigits(lines[..i])
    ensures FirstDigits(lines[..i]).None? ==>
      FirstDigits(lines[..i + 1]) == if IsDigits(lines[i]) then Some(i) else None
  {
    var a := FirstDigits(lines[..i]);
    var b := FirstDigits(lines[..i + 1]);
    assert forall j :: 0 <= j < i ==> lines[..i + 1][j] == lines[..i][j];
    if a.Some? {
      assert IsDigits(lines[..i + 1][a.value]);
    } else if b.Some? {
      assert b.value == i;
    }
  }

  /** What a slide's `categories` list holds: its category when the map has one. */
  function Categories(categoryMap: map<int, Category>, slideNumber: int): (r: seq<Category>)
    ensures |r| <= 1
    ensures r == [] <==> slideNumber !in categoryMap
    ensures r != [] ==> r[0] == categoryMap[slideNumber]
  {
    if slideNumber in categoryMap then [categoryMap[slideNumber]] else []
  }

  /** The record kept for one slide. */
  datatype SlideMeta = SlideMeta(source: string, slide: int, pdfPageNumber: int, totalSlides: int, categories: seq<Category>)
  datatype SlideData = SlideData(slideNumber: int, pdfPageNumber: int, content: string, metadata: SlideMeta)

  /** The page number and the content lines the scan leaves: the first
      digits-only line's value and the other lines, or the slide number and all. */
  function PageAndContent(lines: seq<string>, slideNumber: int): (int, seq<string>) {
    match FirstDigits(lines)
    case Some(k) => (DigitsValue(lines[k]) as int, lines[..k] + lines[k + 1..])
    case None => (slideNumber, lines)
  }

  /** The record of slide `idx` (0-based) of a deck of `total` slides with the
      given shape texts. */
  function SlideRecord(idx: nat, texts: seq<string>, categoryMap: map<int, Category>, source: string, total: int): SlideData {
    var n := idx + 1;
    var (page, kept) := PageAndContent(SlideLines(texts), n);
    SlideData(n, page, Join(kept, "\n"), SlideMeta(source, n, page, total, Categories(categoryMap, n)))
  }

  /** What `f` gives for each of the first `n` slides and its index. */
  function Indexed<T>(slides: seq<seq<string>>, f: (nat, seq<string>) -> T, n: nat): (r: seq<T>)
    requires n <= |slides|
    ensures |r| == n
  {
    if n == 0 then [] else Indexed(slides, f, n - 1) + [f(n - 1, slides[n - 1])]
  }

  lemma {:induction false} IndexedAt<T>(slides: seq<seq<string>>, f: (nat, seq<string>) -> T, n: nat, i: nat)
    requires i < n <= |slides|
    ensures Indexed(slides, f, n)[i] == f(i, slides[i])
  {
    if i < n - 1 {
      IndexedAt(slides, f, n - 1, i);
    }
  }

  lemma {:induction false} SlideRecordOf(idx: nat, texts: seq<string>, categoryMap: map<int, Category>, source: string, total: int,
                      pdfPage: int, kept: seq<string>)
    requires match FirstDigits(SlideLines(texts))
      case Some(k) => pdfPage == DigitsValue(SlideLines(texts)[k]) && kept == SlideLines(texts)[..k] + SlideLines(texts)[k + 1..]
      case None => pdfPage == idx + 1 && kept == SlideLines(texts)
    ensures SlideRecord(idx, texts, categoryMap, source, total)
      == SlideData(idx + 1, pdfPage, Join(kept, "\n"), SlideMeta(source, idx + 1, pdfPage, total, Categories(categoryMap, idx + 1)))
  {
  }

  /** `extract_text_from_pptx`, the deck given as the shape texts of each slide. */
  method ExtractTextFromPptx(slides: seq<seq<string>>, categoryMap: map<int, Category>, source: string)
    returns (data: seq<SlideData>)
    ensures |data| == |slides|
    ensures forall i :: 0 <= i < |slides| ==> data[i] == SlideRecord(i, slides[i], categoryMap, source, |slides|)
  {
    ghost var record := (i: nat, texts: seq<string>) => SlideRecord(i, texts, categoryMap, source, |slides|);
    data := [];
    for idx := 0 to |slides|
      invariant data == Indexed(slides, record, idx)
    {
      var slideNumber := idx + 1;
      var lines := CollectLines(slides[idx]);
      var pdfPage, kept := ExtractPageNumber(lines, slideNumber);
      var content := Join(kept, "\n");
      var cat := Categories(categoryMap, slideNumber);
      var slide := SlideData(slideNumber, pdfPage, content, SlideMeta(source, slideNumber, pdfPage, |slides|, cat));
      SlideRecordOf(idx, slides[idx], categoryMap, source, |slides|, pdfPage, kept);
      data := data + [slide];
    }
    forall i | 0 <= i < |slides|
      ensures data[i] == SlideRecord(i, slides[i], categoryMap, source, |slides|)
    {
      IndexedAt(slides, record, |slides|, i);
    }
  }

  /** A slide's record: numbered from 1, the page number agreeing in both places,
      no categories exactly when the map has none for the slide, the slide number
      as page number when no line is digits only, and the content lines given back
      by splitting on newlines. */
  lemma {:induction false} SlideRecordShape(idx: nat, texts: seq<string>, categoryMap: map<int, Category>, source: string, total: int)
    ensures var r := SlideRecord(idx, texts, categoryMap, source, total);
      && r.slideNumber == r.metadata.slide == idx + 1
      && r.pdfPageNumber == r.metadata.pdfPageNumber
      && (r.metadata.categories == [] <==> idx + 1 !in categoryMap)
      && (FirstDigits(SlideLines(texts)).None? ==> r.pdfPageNumber == idx + 1)
    ensures var lines := SlideLines(texts); var r := SlideRecord(idx, texts, categoryMap, source, total);
      lines != [] && FirstDigits(lines).None? ==> SplitOn(r.content, "\n") == lines
  {
    var lines := SlideLines(texts);
    if lines != [] && FirstDigits(lines).None? {
      SplitJoin(lines, '\n');
    }
  }

  /** The block `save_text_to_txt` writes for one slide: its header line, its
      content, then a blank line. */
  function SlideBlock(d: SlideData): string {
    Header(d) + d.content + "\n\n"
  }

  function Header(d: SlideData): string {
    "--- Slide " + IntToString(d.slideNumber) + " (PDF Page " + IntToString(d.pdfPageNumber) + ") ---\n"
  }

  /** The text file: the slides' blocks in order. */
  function TxtDump(slides: seq<SlideData>): string {
    Blocks(slides, SlideBlock)
  }

  /** `save_text_to_txt`, the file given as the text written to it. */
  method SaveTextToTxt(slides: seq<SlideData>) returns (out: string)
    ensures out == TxtDump(slides)
  {
    out := [];
    for i := 0 to |slides|
      invariant out == Blocks(slides[..i], SlideBlock)
    {
      BlocksSnoc(slides, i, SlideBlock);
      var slide := slides[i];
      ghost var before := out;
      out := out + Header(slide);
      out := out + slide.content;
      out := out + "\n\n";
      Associate(before, Header(slide), slide.content, "\n\n");
    }
    assert slides[..|slides|] == slides;
  }

  lemma {:induction false} Associate(a: string, b: string, c: string, d: string)
    ensures a + b + c + d == a + (b + c + d)
  {
  }

  lemma {:induction false} TxtDumpAppend(a: seq<SlideData>, b: seq<SlideData>)
    ensures TxtDump(a + b) == TxtDump(a) + TxtDump(b)
  {
    BlocksAppend(a, b, SlideBlock);
  }

  /** A one-slide dump is that slide's header line, content and blank line. */
  lemma {:induction false} OneSlide(d: SlideData)
    ensures TxtDump([d]) == Header(d) + d.content + "\n\n"
    ensures StartsWith(TxtDump([d]), "--- Slide ") && EndsWith(TxtDump([d]), "\n\n")
  {
    assert [d][..0] == [];
    assert Blocks([d], SlideBlock) == SlideBlock(d);
    var rest := IntToString(d.slideNumber) + " (PDF Page " + IntToString(d.pdfPageNumber) + ") ---\n" + d.content + "\n\n";
    PrefixOf("--- Slide ", rest);
    assert SlideBlock(d) == "--- Slide " + rest;
    SuffixOf(Header(d) + d.content, "\n\n");
  }

  lemma {:induction false} PrefixOf(a: string, b: string)
    ensures StartsWith(a + b, a)
  {
    assert (a + b)[..|a|] == a;
  }

  lemma {:induction false} SuffixOf(a: string, b: string)
    ensures EndsWith(a + b, b)
  {
    assert (a + b)[|a + b| - |b|..] == b;
  }
}
