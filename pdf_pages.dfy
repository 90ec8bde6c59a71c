/**
 * The page pipelines of temp/code/pdf_processor_vision.py and
 * temp/code/pdf_processor_base.py: the report's pages are cut into the three ESG
 * sections by fixed index ranges, every page of the ranges gets a heading taken
 * from its table-of-contents spans, each page's text is packed into sentence
 * chunks carrying section, heading and report name, and the vision script adds
 * the page's structured data and prepares the chunks for the vector store.
 */
module PdfPages {
  import opened Outcomes
  import opened Text
  import opened Packing
  import TocColors
  import PdfSections

  /** A page of the report as the two readers give it: the text PyPDF2 extracts
      and the blocks PyMuPDF's `get_text("dict")` lists. Both readers open the same
      file, so one sequence stands for both and its length is `num_pages`. */
  datatype PdfPage = PdfPage(text: string, blocks: seq<TocColors.Block>)

  /** The script: pdf_processor_vision.py or pdf_processor_base.py. */
  datatype Variant = Vision | Base

  // ---------------------------------------------------------------- headings

  /** A heading rule: the heading of a page from its blocks. */
  type HeadingRule = seq<TocColors.Block> -> Option<string>

  /** The heading rule of each script, with `toc_x_max` at its default 200. */
  function Heading(v: Variant, blocks: seq<TocColors.Block>): Option<string> {
    match v
    case Vision => TocColors.VisionSubSection(blocks, 200.0)
    case Base => TocColors.BaseSubSection(blocks, 200.0)
  }

  function Rule(v: Variant): HeadingRule {
    blocks => Heading(v, blocks)
  }

  /** The body of the page loop of `extract_page_sub_sections`. */
  method PageSubSection(v: Variant, blocks: seq<TocColors.Block>) returns (s: Option<string>)
    ensures s == Heading(v, blocks)
  {
    match v
    case Vision =>
      var texts := TocColors.ColoredToc(blocks, 200.0);
      s := if |texts| > 0 then Some(texts[0]) else None;
    case Base =>
      var candidates := TocColors.CollectCandidates(blocks, 200.0);
      s := if |candidates| > 0 then Some(candidates[0].text) else None;
  }

  /** `extract_page_sub_sections(pdf_path, page_indices)` as a function: the dictionary
      from each index to its page's heading, or the `IndexError` that `doc[page_num]`
      raises for an index past the last page. */
  function SubSectionsOf(doc: seq<PdfPage>, indices: seq<nat>, heading: HeadingRule): Result<map<nat, Option<string>>>
    decreases |indices|
  {
    if indices == [] then Ok(map[])
    else
      var p := indices[|indices| - 1];
      match SubSectionsOf(doc, indices[..|indices| - 1], heading)
      case Err(e) => Err(e)
      case Ok(m) => if p < |doc| then Ok(m[p := heading(doc[p].blocks)]) else Err(IndexError)
  }

  method ExtractPageSubSections(doc: seq<PdfPage>, indices: seq<nat>, v: Variant)
    returns (r: Result<map<nat, Option<string>>>)
    ensures r == SubSectionsOf(doc, indices, Rule(v))
  {
    var subSections: map<nat, Option<string>> := map[];
    for i := 0 to |indices|
      invariant SubSectionsOf(doc, indices[..i], Rule(v)) == Ok(subSections)
    {
      assert indices[..i + 1][..i] == indices[..i];
      var p := indices[i];
      if p >= |doc| {
        SubSectionsStop(doc, indices, Rule(v), i + 1);
        SubSectionsSpec(doc, indices, Rule(v));
        return Err(IndexError);
      }
      var s := PageSubSection(v, doc[p].blocks);
      assert s == Rule(v)(doc[p].blocks);
      subSections := subSections[p := s];
    }
    assert indices[..|indices|] == indices;
    r := Ok(subSections);
  }

  /** Once an index fails, the whole call fails. */
  lemma {:induction false} SubSectionsStop(doc: seq<PdfPage>, indices: seq<nat>, heading: HeadingRule, n: nat)
    requires n <= |indices| && SubSectionsOf(doc, indices[..n], heading).Err?
    ensures SubSectionsOf(doc, indices, heading).Err?
    decreases |indices|
  {
    if n < |indices| {
      var pre := indices[..|indices| - 1];
      assert pre[..n] == indices[..n];
      SubSectionsStop(doc, pre, heading, n);
    } else {
      assert indices[..n] == indices;
    }
  }

  /** The call fails, with `IndexError`, exactly when some index is past the last
      page; otherwise its keys are exactly the indices and each maps to its page's
      heading. */
  lemma {:induction false} SubSectionsSpec(doc: seq<PdfPage>, indices: seq<nat>, heading: HeadingRule)
    ensures var r := SubSectionsOf(doc, indices, heading);
      && (r.Ok? <==> forall k :: 0 <= k < |indices| ==> indices[k] < |doc|)
      && (r.Err? ==> r.error == IndexError)
      && (r.Ok? ==> forall p :: p in r.value <==> p in indices)
      && (r.Ok? ==> forall p :: p in r.value ==> p < |doc| && r.value[p] == heading(doc[p].blocks))
    decreases |indices|
  {
    if indices != [] {
      var n := |indices| - 1;
      var pre := indices[..n];
      SubSectionsSpec(doc, pre, heading);
      assert indices == pre + [indices[n]];
      assert forall k :: 0 <= k < n ==> pre[k] == indices[k];
    }
  }

  // ---------------------------------------------------------------- page ranges

  /** A section and its 0-based page indices `start..end`, both included. */
  datatype SectionRange = SectionRange(section: string, start: nat, end: nat)

  const SectionRanges: seq<SectionRange> := [
    SectionRange("Environmental", 24, 38),
    SectionRange("Social", 40, 79),
    SectionRange("Governance", 81, 99)
  ]

  /** `list(range(lo, hi))`. */
  function Interval(lo: nat, hi: nat): (r: seq<nat>)
    ensures |r| == if lo <= hi then hi - lo else 0
    ensures forall k :: 0 <= k < |r| ==> r[k] == lo + k
  {
    if lo >= hi then [] else seq(hi - lo, k requires 0 <= k < hi - lo => lo + k)
  }

  /** The indices whose headings are looked up: 24..38, 40..79 and 81..99. */
  function AllPageIndices(): (r: seq<nat>)
    ensures |r| == 74 && r[73] == 99
    ensures forall k :: 0 <= k < |r| ==> r[k] <= 99
  {
    Interval(24, 39) + Interval(40, 80) + Interval(81, 100)
  }

  predicate InRange(r: SectionRange, p: int) {
    r.start <= p <= r.end
  }

  /** One of the three section ranges holds `p`. */
  predicate InSections(p: int) {
    InRange(SectionRanges[0], p) || InRange(SectionRanges[1], p) || InRange(SectionRanges[2], p)
  }

  /** Every page of the three section ranges is looked up. */
  lemma {:induction false} AllPageIndicesCover()
    ensures forall p :: InSections(p) ==> p in AllPageIndices()
  {
    forall p | InSections(p)
      ensures p in AllPageIndices()
    {
      var a, b, c := Interval(24, 39), Interval(40, 80), Interval(81, 100);
      if p <= 38 {
        IntervalHas(24, 39, p);
        assert p in a;
      } else if p <= 79 {
        IntervalHas(40, 80, p);
        assert p in b;
      } else {
        IntervalHas(81, 100, p);
        assert p in c;
      }
    }
  }

  lemma {:induction false} IntervalHas(lo: nat, hi: nat, p: int)
    requires lo <= p < hi
    ensures p in Interval(lo, hi)
  {
    assert Interval(lo, hi)[p - lo] == p;
  }

  /** Every looked-up index is a page of one of the three section ranges. */
  lemma {:induction false} AllPageIndicesWithin()
    ensures forall k :: 0 <= k < |AllPageIndices()| ==> InSections(AllPageIndices()[k])
  {
    var a, b, c := Interval(24, 39), Interval(40, 80), Interval(81, 100);
    var all := AllPageIndices();
    forall k | 0 <= k < |all|
      ensures InSections(all[k])
    {
      Concat3At(a, b, c, k);
    }
  }

  lemma {:induction false} Concat3At(a: seq<nat>, b: seq<nat>, c: seq<nat>, k: nat)
    requires k < |a| + |b| + |c|
    ensures (a + b + c)[k] == if k < |a| then a[k] else if k < |a| + |b| then b[k - |a|] else c[k - |a| - |b|]
  {
  }

  /** The page loop of one section: the indices `lo..hi` below the page count whose
      extracted text is not empty, in order. */
  function Selected(doc: seq<PdfPage>, lo: nat, hi: nat): (r: seq<nat>)
    ensures forall k :: 0 <= k < |r| ==> lo <= r[k] <= hi && r[k] < |doc|
    decreases hi + 1 - lo
  {
    if lo > hi then []
    else (if lo < |doc| && |doc[lo].text| > 0 then [lo] else []) + Selected(doc, lo + 1, hi)
  }

  /** A section takes exactly its pages that exist and have text, in increasing
      order. */
  lemma {:induction false} SelectedSpec(doc: seq<PdfPage>, lo: nat, hi: nat)
    ensures forall p :: p in Selected(doc, lo, hi) <==> lo <= p <= hi && p < |doc| && |doc[p].text| > 0
    ensures forall j, k :: 0 <= j < k < |Selected(doc, lo, hi)| ==> Selected(doc, lo, hi)[j] < Selected(doc, lo, hi)[k]
    decreases hi + 1 - lo
  {
    if lo <= hi {
      SelectedSpec(doc, lo + 1, hi);
    }
  }

  // ---------------------------------------------------------------- section texts

  /** An entry of `section_texts`: a page's text, its heading and, in the vision
      script, its structured data. */
  datatype PageText<D> = PageText(text: string, subSection: Option<string>, structured: Option<D>)

  /** What tells the two scripts apart after the page reads: the heading rule,
      and the per-page structured data the vision script attaches (the dictionary
      `extract_structured_data` returns, never empty, so always truthy). */
  datatype Script<D> = Script(heading: HeadingRule, structured: Option<nat -> D>)

  function ScriptOf<D>(v: Variant, structuredOf: nat -> D): Script<D> {
    Script(Rule(v), if v == Vision then Some(structuredOf) else None)
  }

  /** The structured data of a page, if the script attaches any. */
  function Extra<D>(script: Script<D>, p: nat): Option<D> {
    if script.structured.Some? then Some(script.structured.value(p)) else None
  }

  function Entries<D>(doc: seq<PdfPage>, pages: seq<nat>, script: Script<D>): seq<PageText<D>>
    requires forall k :: 0 <= k < |pages| ==> pages[k] < |doc|
  {
    seq(|pages|, k requires 0 <= k < |pages| =>
      PageText(doc[pages[k]].text, script.heading(doc[pages[k]].blocks), Extra(script, pages[k])))
  }

  /** The entries of the pages `lo..hi`, page by page. */
  function EntriesFrom<D>(doc: seq<PdfPage>, lo: nat, hi: nat, script: Script<D>): seq<PageText<D>>
    decreases hi + 1 - lo
  {
    if lo > hi then []
    else
      (if lo < |doc| && |doc[lo].text| > 0
       then [PageText(doc[lo].text, script.heading(doc[lo].blocks), Extra(script, lo))] else [])
      + EntriesFrom(doc, lo + 1, hi, script)
  }

  function SectionEntries<D>(doc: seq<PdfPage>, r: SectionRange, script: Script<D>): seq<PageText<D>> {
    EntriesFrom(doc, r.start, r.end, script)
  }

  /** Every entry carries structured data exactly when the script attaches some. */
  lemma {:induction false} EntriesStructured<D>(doc: seq<PdfPage>, lo: nat, hi: nat, script: Script<D>)
    ensures forall k :: 0 <= k < |EntriesFrom(doc, lo, hi, script)| ==>
      (EntriesFrom(doc, lo, hi, script)[k].structured.Some? <==> script.structured.Some?)
    decreases hi + 1 - lo
  {
    if lo <= hi {
      EntriesStructured(doc, lo + 1, hi, script);
    }
  }

  /** A section's entries are those of its selected pages, in page order. */
  lemma {:induction false} EntriesSelected<D>(doc: seq<PdfPage>, lo: nat, hi: nat, script: Script<D>)
    ensures EntriesFrom(doc, lo, hi, script) == Entries(doc, Selected(doc, lo, hi), script)
    decreases hi + 1 - lo
  {
    if lo <= hi {
      EntriesSelected(doc, lo + 1, hi, script);
      var head := if lo < |doc| && |doc[lo].text| > 0 then [lo] else [];
      EntriesAppend(doc, head, Selected(doc, lo + 1, hi), script);
    }
  }

  lemma {:induction false} EntriesAppend<D>(doc: seq<PdfPage>, xs: seq<nat>, ys: seq<nat>, script: Script<D>)
    requires forall k :: 0 <= k < |xs| ==> xs[k] < |doc|
    requires forall k :: 0 <= k < |ys| ==> ys[k] < |doc|
    ensures Entries(doc, xs + ys, script) == Entries(doc, xs, script) + Entries(doc, ys, script)
  {
  }

  /** `dict.get`: the value of a key, or `None` when it is missing. */
  function Get(m: map<nat, Option<string>>, p: nat): Option<string> {
    if p in m then m[p] else None
  }

  /** The heading dictionary has the right heading for every existing page of the
      three section ranges. */
  predicate KnownAll(doc: seq<PdfPage>, heading: HeadingRule, m: map<nat, Option<string>>) {
    forall p: nat :: InSections(p) && p < |doc| ==> p in m && m[p] == heading(doc[p].blocks)
  }

  lemma {:induction false} KnownRange(doc: seq<PdfPage>, heading: HeadingRule, m: map<nat, Option<string>>, i: nat)
    requires KnownAll(doc, heading, m) && i < |SectionRanges|
    ensures Known(doc, heading, m, SectionRanges[i])
  {
    forall p: nat | InRange(SectionRanges[i], p) && p < |doc|
      ensures p in m && m[p] == heading(doc[p].blocks)
    {
      assert InSections(p);
    }
  }

  /** The heading dictionary has the right heading for every existing page of `r`. */
  predicate Known(doc: seq<PdfPage>, heading: HeadingRule, m: map<nat, Option<string>>, r: SectionRange) {
    forall p: nat :: InRange(r, p) && p < |doc| ==> p in m && m[p] == heading(doc[p].blocks)
  }

  /** The page loop of one section in `extract_esg_performance`. */
  method CollectSection<D>(doc: seq<PdfPage>, r: SectionRange, script: Script<D>,
                           subSections: map<nat, Option<string>>)
    returns (entries: seq<PageText<D>>)
    requires Known(doc, script.heading, subSections, r)
    ensures entries == SectionEntries(doc, r, script)
  {
    entries := [];
    var p := r.start;
    while p <= r.end
      invariant r.start <= p
      invariant entries + EntriesFrom(doc, p, r.end, script) == SectionEntries(doc, r, script)
      decreases r.end + 1 - p
    {
      ghost var rest := EntriesFrom(doc, p + 1, r.end, script);
      if p < |doc| {
        var pageText := doc[p].text;
        if |pageText| > 0 {
          assert Get(subSections, p) == script.heading(doc[p].blocks);
          var entry := PageText(pageText, Get(subSections, p), Extra(script, p));
          assert EntriesFrom(doc, p, r.end, script) == [entry] + rest;
          entries := entries + [entry];
        } else {
          assert EntriesFrom(doc, p, r.end, script) == rest;
        }
      } else {
        assert EntriesFrom(doc, p, r.end, script) == rest;
      }
      p := p + 1;
    }
    assert entries + [] == entries;
  }

  // ---------------------------------------------------------------- chunks

  /** The metadata of a page chunk; `structured` is the `structured_data` key,
      absent (`None`) except in the vision script. */
  datatype PageMeta<D> = PageMeta(section: string, subSection: Option<string>, source: string, structured: Option<D>)

  /** `create_chunks_with_subsection(text, section_type, sub_section, chunk_size)`
      as a function. */
  function SubsectionChunks<D>(text: string, section: string, sub: Option<string>, size: int): seq<Chunk<PageMeta<D>>> {
    Emit(Pack(Kept(SplitSentences(text), Strip), size), t => Some(t), PageMeta(section, sub, PdfSections.ReportName, None))
  }

  /** The chunks with `structured_data` set in their metadata when it is truthy. */
  function WithStructure<D>(chunks: seq<Chunk<PageMeta<D>>>, structured: Option<D>): seq<Chunk<PageMeta<D>>> {
    if structured.None? then chunks
    else
      seq(|chunks|, k requires 0 <= k < |chunks| =>
        Chunk(chunks[k].text, chunks[k].metadata.(structured := structured)))
  }

  /** `create_chunks_with_subsection` of the vision script; `create_chunks_base` of
      pdf_processor_base.py and of ppt_processor_base.py is the same loop with the
      same metadata. One chunk per packed group, its sentences joined by single
      spaces, never empty, carrying section, heading and report name. */
  method CreateChunksWithSubsection<D>(text: string, section: string, sub: Option<string>, size: int)
    returns (chunks: seq<Chunk<PageMeta<D>>>)
    ensures chunks == SubsectionChunks(text, section, sub, size)
    ensures var gs := Pack(Kept(SplitSentences(text), Strip), size);
      && |chunks| == |gs|
      && forall k :: 0 <= k < |chunks| ==>
        && chunks[k].text == Join(gs[k], " ") && chunks[k].text != []
        && chunks[k].metadata == PageMeta(section, sub, PdfSections.ReportName, None)
  {
    var sentences := SplitSentences(text);
    var meta: PageMeta<D> := PageMeta(section, sub, PdfSections.ReportName, None);
    chunks := PackChunks(sentences, Strip, t => Some(t), meta, size);
    PlainChunks(sentences, Strip, meta, size);
  }

  /** `create_chunks_with_structure`: the chunks of `create_chunks_with_subsection`,
      with `structured_data` written into every chunk's metadata when the data is
      truthy and nothing changed otherwise. */
  method CreateChunksWithStructure<D>(text: string, section: string, sub: Option<string>,
                                      structured: Option<D>, size: int)
    returns (chunks: seq<Chunk<PageMeta<D>>>)
    ensures chunks == WithStructure(SubsectionChunks(text, section, sub, size), structured)
  {
    chunks := CreateChunksWithSubsection(text, section, sub, size);
    if structured.Some? {
      chunks := AttachStructured(chunks, structured.value);
    }
  }

  /** The in-place loop of `create_chunks_with_structure`. */
  method AttachStructured<D>(plain: seq<Chunk<PageMeta<D>>>, structured: D) returns (chunks: seq<Chunk<PageMeta<D>>>)
    ensures chunks == WithStructure(plain, Some(structured))
  {
    chunks := plain;
    for i := 0 to |chunks|
      invariant |chunks| == |plain|
      invariant forall j :: 0 <= j < i ==> chunks[j] == Chunk(plain[j].text, plain[j].metadata.(structured := Some(structured)))
      invariant forall j :: i <= j < |chunks| ==> chunks[j] == plain[j]
    {
      chunks := chunks[i := chunks[i].(metadata := chunks[i].metadata.(structured := Some(structured)))];
    }
  }

  /** The chunks with structure are those of `create_chunks_with_subsection`, one
      for one and with the same texts, and their metadata is exactly the section,
      the heading, the report name and the given structured data. */
  lemma {:induction false} WithStructureSpec<D>(text: string, section: string, sub: Option<string>,
                                                structured: Option<D>, size: int)
    ensures var plain := SubsectionChunks<D>(text, section, sub, size);
      var chunks := WithStructure(plain, structured);
      && |chunks| == |plain|
      && forall k :: 0 <= k < |chunks| ==>
        chunks[k].text == plain[k].text
        && chunks[k].metadata == PageMeta(section, sub, PdfSections.ReportName, structured)
  {
  }

  /** The chunks of one `section_texts` entry: none for a whitespace-only text. */
  function ChunksOf<D>(section: string): PageText<D> -> seq<Chunk<PageMeta<D>>> {
    (e: PageText<D>) => EntryChunks(e, section)
  }

  function EntryChunks<D>(e: PageText<D>, section: string): seq<Chunk<PageMeta<D>>> {
    if |Strip(e.text)| > 0 then WithStructure(SubsectionChunks(e.text, section, e.subSection, 1000), e.structured) else []
  }

  /** The body of the chunk loop for one entry. The vision script attaches data
      to every entry and calls `create_chunks_with_structure`; the base script
      attaches none and calls `create_chunks_base`. */
  method ChunkEntry<D>(e: PageText<D>, section: string) returns (found: seq<Chunk<PageMeta<D>>>)
    ensures found == EntryChunks(e, section)
  {
    found := [];
    if |Strip(e.text)| > 0 {
      match e.structured
      case Some(_) =>
        found := CreateChunksWithStructure(e.text, section, e.subSection, e.structured, 1000);
      case None =>
        found := CreateChunksWithSubsection(e.text, section, e.subSection, 1000);
    }
  }

  function RangeChunks<D>(doc: seq<PdfPage>, script: Script<D>): SectionRange -> seq<Chunk<PageMeta<D>>> {
    r => FlatMap(SectionEntries(doc, r, script), ChunksOf(r.section))
  }

  /** All chunks of the report, section after section and page after page. */
  function Performance<D>(doc: seq<PdfPage>, script: Script<D>): seq<Chunk<PageMeta<D>>> {
    FlatMap(SectionRanges, RangeChunks(doc, script))
  }

  /** The chunk loop over one section's entries. */
  method ChunkEntries<D>(section: string, entries: seq<PageText<D>>) returns (chunks: seq<Chunk<PageMeta<D>>>)
    ensures chunks == FlatMap(entries, ChunksOf(section))
  {
    chunks := [];
    for k := 0 to |entries|
      invariant chunks == FlatMap(entries[..k], ChunksOf(section))
    {
      FlatMapSnoc(entries, k, ChunksOf(section));
      var found := ChunkEntry(entries[k], section);
      chunks := chunks + found;
    }
    assert entries[..|entries|] == entries;
  }

  /** The two loops of `extract_esg_performance` after the headings are known:
      `section_texts` is filled section by section, then chunked in the same order. */
  method ChunkSectionTexts<D>(doc: seq<PdfPage>, script: Script<D>,
                              subSections: map<nat, Option<string>>)
    returns (all: seq<Chunk<PageMeta<D>>>)
    requires KnownAll(doc, script.heading, subSections)
    ensures all == Performance(doc, script)
  {
    var sectionTexts: seq<seq<PageText<D>>> := [];
    for i := 0 to |SectionRanges|
      invariant |sectionTexts| == i
      invariant forall j :: 0 <= j < i ==> sectionTexts[j] == SectionEntries(doc, SectionRanges[j], script)
    {
      KnownRange(doc, script.heading, subSections, i);
      var entries := CollectSection(doc, SectionRanges[i], script, subSections);
      sectionTexts := sectionTexts + [entries];
    }
    all := [];
    for i := 0 to |SectionRanges|
      invariant all == FlatMap(SectionRanges[..i], RangeChunks(doc, script))
    {
      FlatMapSnoc(SectionRanges, i, RangeChunks(doc, script));
      var chunks := ChunkEntries(SectionRanges[i].section, sectionTexts[i]);
      all := all + chunks;
    }
    assert SectionRanges[..|SectionRanges|] == SectionRanges;
  }

  /** `extract_esg_performance` (vision) and `extract_esg_performance_base` as
      written: the headings are looked up for all 74 indices before any page count
      check, so a report with fewer than 100 pages raises `IndexError`; a longer one
      gives the chunks of its section pages. */
  method ExtractEsgPerformance<D>(doc: seq<PdfPage>, v: Variant, structuredOf: nat -> D)
    returns (r: Result<seq<Chunk<PageMeta<D>>>>)
    ensures r.Err? <==> |doc| < 100
    ensures r.Err? ==> r.error == IndexError
    ensures r.Ok? ==> r.value == Performance(doc, ScriptOf(v, structuredOf))
  {
    var indices := AllPageIndices();
    var subSections := ExtractPageSubSections(doc, indices, v);
    SubSectionsSpec(doc, indices, Rule(v));
    if subSections.Err? {
      return Err(subSections.error);
    }
    AsWrittenKnown(doc, Rule(v), subSections.value);
    var all := ChunkSectionTexts(doc, ScriptOf(v, structuredOf), subSections.value);
    r := Ok(all);
  }

  lemma {:induction false} AsWrittenKnown(doc: seq<PdfPage>, heading: HeadingRule, m: map<nat, Option<string>>)
    requires SubSectionsOf(doc, AllPageIndices(), heading) == Ok(m)
    ensures |doc| >= 100
    ensures KnownAll(doc, heading, m)
  {
    SubSectionsSpec(doc, AllPageIndices(), heading);
    AllPageIndicesCover();
    assert AllPageIndices()[73] < |doc|;
  }

  /** The indices below `n`, in order. */
  function Below(xs: seq<nat>, n: nat): (r: seq<nat>)
    ensures forall p :: p in r <==> p in xs && p < n
  {
    if xs == [] then []
    else
      assert xs == xs[..|xs| - 1] + [xs[|xs| - 1]];
      Below(xs[..|xs| - 1], n) + (if xs[|xs| - 1] < n then [xs[|xs| - 1]] else [])
  }

  /** The pipeline with the headings looked up only for indices below the page
      count: it never fails, and gives the chunks of every existing section page. */
  method ExtractEsgPerformanceFixed<D>(doc: seq<PdfPage>, v: Variant, structuredOf: nat -> D)
    returns (all: seq<Chunk<PageMeta<D>>>)
    ensures all == Performance(doc, ScriptOf(v, structuredOf))
  {
    var indices := Below(AllPageIndices(), |doc|);
    var subSections := ExtractPageSubSections(doc, indices, v);
    FixedKnown(doc, Rule(v));
    all := ChunkSectionTexts(doc, ScriptOf(v, structuredOf), subSections.value);
  }

  lemma {:induction false} FixedKnown(doc: seq<PdfPage>, heading: HeadingRule)
    ensures var r := SubSectionsOf(doc, Below(AllPageIndices(), |doc|), heading);
      r.Ok? && KnownAll(doc, heading, r.value)
  {
    var indices := Below(AllPageIndices(), |doc|);
    BelowAll(AllPageIndices(), |doc|);
    SubSectionsSpec(doc, indices, heading);
    var m := SubSectionsOf(doc, indices, heading).value;
    AllPageIndicesCover();
    KnownFrom(doc, heading, indices, m);
  }

  lemma {:induction false} BelowAll(xs: seq<nat>, n: nat)
    ensures forall k :: 0 <= k < |Below(xs, n)| ==> Below(xs, n)[k] < n
  {
    var r := Below(xs, n);
    assert forall k :: 0 <= k < |r| ==> r[k] in r;
  }

  /** A map with the heading of every listed index knows every section page. */
  lemma {:induction false} KnownFrom(doc: seq<PdfPage>, heading: HeadingRule, indices: seq<nat>, m: map<nat, Option<string>>)
    requires forall p :: p in m <==> p in indices
    requires forall p :: p in m ==> p < |doc| && m[p] == heading(doc[p].blocks)
    requires forall p :: p in indices <==> p in AllPageIndices() && p < |doc|
    requires forall p :: InSections(p) ==> p in AllPageIndices()
    ensures KnownAll(doc, heading, m)
  {
  }

  /** A section page that exists and holds more than whitespace yields at least
      one chunk: the short reports the written pipeline rejects still have chunks. */
  lemma {:induction false} PageYieldsChunks<D>(doc: seq<PdfPage>, script: Script<D>, i: nat, p: nat)
    requires i < |SectionRanges| && InRange(SectionRanges[i], p)
    requires p < |doc| && !AllSpace(doc[p].text)
    ensures Performance(doc, script) != []
  {
    SectionHasChunks(doc, script, SectionRanges[i], p);
    FlatMapEmpty(SectionRanges, RangeChunks(doc, script));
  }

  lemma {:induction false} SectionHasChunks<D>(doc: seq<PdfPage>, script: Script<D>, r: SectionRange, p: nat)
    requires InRange(r, p) && p < |doc| && !AllSpace(doc[p].text)
    ensures RangeChunks(doc, script)(r) != []
  {
    var pages := Selected(doc, r.start, r.end);
    SelectedSpec(doc, r.start, r.end);
    EntriesSelected(doc, r.start, r.end, script);
    assert p in pages;
    var k :| 0 <= k < |pages| && pages[k] == p;
    var entries := SectionEntries(doc, r, script);
    var e := entries[k];
    StripSpec(e.text);
    ChunksNonEmpty<D>(e.text, r.section, e.subSection);
    WithStructureSpec(e.text, r.section, e.subSection, e.structured, 1000);
    assert ChunksOf(r.section)(e) != [];
    FlatMapEmpty(entries, ChunksOf(r.section));
  }

  lemma {:induction false} ChunksNonEmpty<D>(text: string, section: string, sub: Option<string>)
    requires !AllSpace(text)
    ensures SubsectionChunks<D>(text, section, sub, 1000) != []
  {
    var sentences := SplitSentences(text);
    var meta: PageMeta<D> := PageMeta(section, sub, PdfSections.ReportName, None);
    PlainChunks(sentences, Strip, meta, 1000);
    PdfSections.KeptStrip(sentences);
    PdfSections.SplitSentencesAllSpace(text);
  }

  /** The chunk names the report and carries structured data exactly when the
      script attaches some. */
  predicate GoodMeta<D>(script: Script<D>, c: Chunk<PageMeta<D>>) {
    c.metadata.source == PdfSections.ReportName && (c.metadata.structured.Some? <==> script.structured.Some?)
  }

  /** Every chunk names the report, and carries structured data exactly in the
      vision script. */
  lemma {:induction false} PerformanceMeta<D>(doc: seq<PdfPage>, script: Script<D>)
    ensures forall k :: 0 <= k < |Performance(doc, script)| ==> GoodMeta(script, Performance(doc, script)[k])
  {
    var good := (c: Chunk<PageMeta<D>>) => GoodMeta(script, c);
    forall i | 0 <= i < |SectionRanges|
      ensures forall j :: 0 <= j < |RangeChunks(doc, script)(SectionRanges[i])| ==>
        good(RangeChunks(doc, script)(SectionRanges[i])[j])
    {
      RangeMeta(doc, script, SectionRanges[i]);
    }
    FlatMapAll(SectionRanges, RangeChunks(doc, script), good);
  }

  lemma {:induction false} RangeMeta<D>(doc: seq<PdfPage>, script: Script<D>, r: SectionRange)
    ensures forall j :: 0 <= j < |RangeChunks(doc, script)(r)| ==> GoodMeta(script, RangeChunks(doc, script)(r)[j])
  {
    var good := (c: Chunk<PageMeta<D>>) => GoodMeta(script, c);
    var entries := SectionEntries(doc, r, script);
    EntriesStructured(doc, r.start, r.end, script);
    forall k | 0 <= k < |entries|
      ensures forall j :: 0 <= j < |ChunksOf(r.section)(entries[k])| ==> good(ChunksOf(r.section)(entries[k])[j])
    {
      EntryMeta(script, r.section, entries[k]);
    }
    FlatMapAll(entries, ChunksOf(r.section), good);
  }

  lemma {:induction false} EntryMeta<D>(script: Script<D>, section: string, e: PageText<D>)
    requires e.structured.Some? <==> script.structured.Some?
    ensures forall j :: 0 <= j < |EntryChunks(e, section)| ==> GoodMeta(script, EntryChunks(e, section)[j])
  {
    if |Strip(e.text)| > 0 {
      WithStructureSpec(e.text, section, e.subSection, e.structured, 1000);
    }
  }

  // ---------------------------------------------------------------- the vector store

  /** The chunk id of `store_in_chroma`, `f"chunk_{i}"`. */
  function ChunkId(i: nat): string {
    "chunk_" + IntToString(i)
  }

  /** Different positions get different ids. */
  lemma {:induction false} ChunkIdsDistinct(i: nat, j: nat)
    requires i != j
    ensures ChunkId(i) != ChunkId(j)
  {
    ParseIntToString(i);
    ParseIntToString(j);
    assert ChunkId(i)[6..] == IntToString(i);
    assert ChunkId(j)[6..] == IntToString(j);
  }

  /** The stored copy of a chunk's metadata: the structured data, a dictionary,
      replaced by its JSON text. */
  function Stored<D>(m: PageMeta<D>, dumps: D -> string): PageMeta<string> {
    PageMeta(m.section, m.subSection, m.source, if m.structured.Some? then Some(dumps(m.structured.value)) else None)
  }

  /** The lists `store_in_chroma` hands to `collection.add`: the texts, the metadata
      copies and the ids, one of each per chunk and in chunk order. The chunks are
      values, so the caller's metadata stays as it was. */
  method StoreInChroma<D>(chunks: seq<Chunk<PageMeta<D>>>, dumps: D -> string)
    returns (documents: seq<string>, metadatas: seq<PageMeta<string>>, ids: seq<string>)
    ensures |documents| == |metadatas| == |ids| == |chunks|
    ensures forall i :: 0 <= i < |chunks| ==>
      && documents[i] == chunks[i].text
      && metadatas[i] == Stored(chunks[i].metadata, dumps)
      && ids[i] == ChunkId(i)
    ensures forall i, j :: 0 <= i < j < |ids| ==> ids[i] != ids[j]
  {
    documents, metadatas, ids := [], [], [];
    for i := 0 to |chunks|
      invariant |documents| == |metadatas| == |ids| == i
      invariant forall j :: 0 <= j < i ==>
        && documents[j] == chunks[j].text
        && metadatas[j] == Stored(chunks[j].metadata, dumps)
        && ids[j] == ChunkId(j)
    {
      documents := documents + [chunks[i].text];
      var meta := chunks[i].metadata;
      if meta.structured.Some? {
        metadatas := metadatas + [PageMeta(meta.section, meta.subSection, meta.source, Some(dumps(meta.structured.value)))];
      } else {
        metadatas := metadatas + [PageMeta(meta.section, meta.subSection, meta.source, None)];
      }
      ids := ids + [ChunkId(i)];
    }
    forall i, j | 0 <= i < j < |ids|
      ensures ids[i] != ids[j]
    {
      ChunkIdsDistinct(i, j);
    }
  }
}
