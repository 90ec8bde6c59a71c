/**
 * `convert_json_to_text` of code/json_to_text.py: the slide records of a JSON
 * file are written as a plain text file, one block per page. The JSON file is
 * taken as the list of its page records.
 */
module JsonText {
  import opened Text

  datatype Category = Category(mainCategory: string, subCategory: string)

  /** One element of the JSON list: the keys the writer reads. */
  datatype Page = Page(slideNumber: int, pptPageNumber: int, categories: seq<Category>, content: string)

  /** The header line, without its newline. */
  function HeaderLine(p: Page): string {
    "--- Slide " + IntToString(p.slideNumber) + " (PPT Page " + IntToString(p.pptPageNumber) + ") ---"
  }

  /** The two lines written for a category. */
  function CategoryLines(c: Category): seq<string> {
    ["Main Category: " + c.mainCategory, "Sub Category: " + c.subCategory]
  }

  /** The line written for one content line: stripped, and none when blank. */
  function ContentLines(line: string): seq<string> {
    if |Strip(line)| > 0 then [Strip(line)] else []
  }

  const Rule := Repeat('=', 50)

  /** The lines of a page: the header, a `Main Category:` / `Sub Category:` pair per
      category in list order, an empty line and `Content:`, the stripped non-blank
      content lines, then an empty line, the rule of 50 `=` and an empty line. */
  function PageLines(p: Page): seq<string> {
    [HeaderLine(p)]
    + FlatMap(p.categories, CategoryLines)
    + ["", "Content:"]
    + FlatMap(SplitOn(p.content, "\n"), ContentLines)
    + ["", Rule, ""]
  }

  /** The whole file: the lines of all pages, page after page, each ended by a
      newline. */
  function Render(pages: seq<Page>): string {
    Blocks(FlatMap(pages, PageLines), Line)
  }

  /** `convert_json_to_text`, the file given as the text written to it. The writes
      `"\nContent:\n"` and `"\n" + "=" * 50 + "\n\n"` are written here as the
      lines they consist of. */
  method ConvertJsonToText(pages: seq<Page>) returns (out: string)
    ensures out == Render(pages)
  {
    out := "";
    ghost var written: seq<string> := [];
    for i := 0 to |pages|
      invariant written == FlatMap(pages[..i], PageLines)
      invariant out == Blocks(written, Line)
    {
      FlatMapSnoc(pages, i, PageLines);
      out, written := WritePage(out, written, pages[i]);
    }
    assert pages[..|pages|] == pages;
  }

  /** Appends one line to the file. */
  method WriteLine(out: string, ghost written: seq<string>, line: string)
    returns (out': string, ghost written': seq<string>)
    requires out == Blocks(written, Line)
    ensures written' == written + [line]
    ensures out' == Blocks(written', Line)
  {
    out' := out + Line(line);
    written' := written + [line];
    assert written'[..|written|] == written;
  }

  /** The writes for one page. */
  method WritePage(out: string, ghost written: seq<string>, page: Page)
    returns (out': string, ghost written': seq<string>)
    requires out == Blocks(written, Line)
    ensures written' == written + PageLines(page)
    ensures out' == Blocks(written', Line)
  {
    ghost var cats := FlatMap(page.categories, CategoryLines);
    ghost var body := FlatMap(SplitOn(page.content, "\n"), ContentLines);
    out', written' := WriteLine(out, written, HeaderLine(page));
    out', written' := WriteCategories(out', written', page.categories);
    out', written' := WriteLine(out', written', "");
    out', written' := WriteLine(out', written', "Content:");
    out', written' := WriteContent(out', written', SplitOn(page.content, "\n"));
    out', written' := WriteLine(out', written', "");
    out', written' := WriteLine(out', written', Rule);
    out', written' := WriteLine(out', written', "");
    PageAppend(written, HeaderLine(page), cats, body);
  }

  /** The category loop of one page. */
  method WriteCategories(out: string, ghost written: seq<string>, categories: seq<Category>)
    returns (out': string, ghost written': seq<string>)
    requires out == Blocks(written, Line)
    ensures written' == written + FlatMap(categories, CategoryLines)
    ensures out' == Blocks(written', Line)
  {
    out', written' := out, written;
    for k := 0 to |categories|
      invariant written' == written + FlatMap(categories[..k], CategoryLines)
      invariant out' == Blocks(written', Line)
    {
      FlatMapSnocAfter(written, categories, k, CategoryLines);
      out', written' := WriteCategory(out', written', categories[k]);
    }
    assert categories[..|categories|] == categories;
  }

  /** The two writes for one category. */
  method WriteCategory(out: string, ghost written: seq<string>, category: Category)
    returns (out': string, ghost written': seq<string>)
    requires out == Blocks(written, Line)
    ensures written' == written + CategoryLines(category)
    ensures out' == Blocks(written', Line)
  {
    out', written' := WriteLine(out, written, "Main Category: " + category.mainCategory);
    out', written' := WriteLine(out', written', "Sub Category: " + category.subCategory);
  }

  /** The content loop of one page: each non-blank line, stripped. */
  method WriteContent(out: string, ghost written: seq<string>, contentLines: seq<string>)
    returns (out': string, ghost written': seq<string>)
    requires out == Blocks(written, Line)
    ensures written' == written + FlatMap(contentLines, ContentLines)
    ensures out' == Blocks(written', Line)
  {
    out', written' := out, written;
    for k := 0 to |contentLines|
      invariant written' == written + FlatMap(contentLines[..k], ContentLines)
      invariant out' == Blocks(written', Line)
    {
      FlatMapSnocAfter(written, contentLines, k, ContentLines);
      var line := contentLines[k];
      if |Strip(line)| > 0 {
        out', written' := WriteLine(out', written', Strip(line));
      } else {
        assert written' + [] == written';
      }
    }
    assert contentLines[..|contentLines|] == contentLines;
  }

  /** The line-by-line writes of a page append its lines. */
  lemma {:induction false} PageAppend(written: seq<string>, header: string, cats: seq<string>, body: seq<string>)
    ensures written + [header] + cats + [""] + ["Content:"] + body + [""] + [Rule] + [""]
         == written + ([header] + cats + ["", "Content:"] + body + ["", Rule, ""])
  {
  }

  /** The category names hold no line break. */
  predicate SingleLine(p: Page) {
    forall c :: 0 <= c < |p.categories| ==>
      '\n' !in p.categories[c].mainCategory && '\n' !in p.categories[c].subCategory
  }

  predicate NoBreak(line: string) {
    '\n' !in line
  }

  lemma {:induction false} NumberNoBreak(i: int)
    ensures '\n' !in IntToString(i)
  {
    var d := NatToString(if i < 0 then -i else i);
    assert IsDigits(d);
    assert !IsDigit('\n');
  }

  predicate AllNoBreak(lines: seq<string>) {
    forall j :: 0 <= j < |lines| ==> NoBreak(lines[j])
  }

  lemma {:induction false} HeaderNoBreak(p: Page)
    ensures NoBreak(HeaderLine(p))
  {
    NumberNoBreak(p.slideNumber);
    NumberNoBreak(p.pptPageNumber);
  }

  lemma {:induction false} CategoriesNoBreak(p: Page)
    requires SingleLine(p)
    ensures AllNoBreak(FlatMap(p.categories, CategoryLines))
  {
    FlatMapAll(p.categories, CategoryLines, NoBreak);
  }

  lemma {:induction false} ContentNoBreak(content: string)
    ensures AllNoBreak(FlatMap(SplitOn(content, "\n"), ContentLines))
  {
    var pieces := SplitOn(content, "\n");
    SplitPiecesFree(content, "\n");
    forall k | 0 <= k < |pieces|
      ensures forall j :: 0 <= j < |ContentLines(pieces[k])| ==> NoBreak(ContentLines(pieces[k])[j])
    {
      ContainsChar(pieces[k], '\n');
      StripKeeps(pieces[k], '\n');
    }
    FlatMapAll(pieces, ContentLines, NoBreak);
  }

  lemma {:induction false} PageLinesNoBreak(p: Page)
    requires SingleLine(p)
    ensures AllNoBreak(PageLines(p))
  {
    HeaderNoBreak(p);
    CategoriesNoBreak(p);
    ContentNoBreak(p.content);
    assert NoBreak(Rule);
    AllNoBreakAppend([HeaderLine(p)], FlatMap(p.categories, CategoryLines),
      FlatMap(SplitOn(p.content, "\n"), ContentLines));
  }

  lemma {:induction false} AllNoBreakAppend(head: seq<string>, cats: seq<string>, body: seq<string>)
    requires AllNoBreak(head) && AllNoBreak(cats) && AllNoBreak(body)
    ensures AllNoBreak(head + cats + ["", "Content:"] + body + ["", Rule, ""])
  {
    assert NoBreak(Rule);
    var middle: seq<string> := ["", "Content:"];
    var tail: seq<string> := ["", Rule, ""];
    assert AllNoBreak(middle) && AllNoBreak(tail);
    AllNoBreakConcat(head, cats);
    AllNoBreakConcat(head + cats, middle);
    AllNoBreakConcat(head + cats + middle, body);
    AllNoBreakConcat(head + cats + middle + body, tail);
  }

  lemma {:induction false} AllNoBreakConcat(a: seq<string>, b: seq<string>)
    requires AllNoBreak(a) && AllNoBreak(b)
    ensures AllNoBreak(a + b)
  {
    forall j | 0 <= j < |a + b|
      ensures NoBreak((a + b)[j])
    {
      if j >= |a| {
        assert (a + b)[j] == b[j - |a|];
      }
    }
  }

  /** Reading the file back line by line gives the written lines, page after page,
      and the empty remainder after the last newline. */
  lemma {:induction false} RenderSplit(pages: seq<Page>)
    requires forall i :: 0 <= i < |pages| ==> SingleLine(pages[i])
    ensures SplitOn(Render(pages), "\n") == FlatMap(pages, PageLines) + [""]
  {
    forall i | 0 <= i < |pages|
      ensures forall j :: 0 <= j < |PageLines(pages[i])| ==> NoBreak(PageLines(pages[i])[j])
    {
      PageLinesNoBreak(pages[i]);
    }
    FlatMapAll(pages, PageLines, NoBreak);
    LinesSplit(FlatMap(pages, PageLines));
  }
}
