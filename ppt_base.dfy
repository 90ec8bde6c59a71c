/**
 * temp/code/ppt_processor_base.py: the Shinhan Life report as a PowerPoint deck.
 * The slides of the three fixed ESG index ranges are read, each slide's text is
 * its title followed by its other non-empty shape texts, the heading of a slide is
 * its title (or `Slide n`), and each non-blank slide is packed into sentence chunks.
 * A slide is taken as the list of shapes python-pptx gives.
 */
module PptBase {
  import opened Outcomes
  import opened Text
  import opened Packing
  import PdfSections
  import PdfPages

  /** A shape of a slide: a title placeholder, another shape with a text frame,
      or a shape without one (a picture, a line, a table frame). */
  datatype Shape = TitleShape(text: string) | TextShape(text: string) | Graphic

  datatype Slide = Slide(shapes: seq<Shape>)

  /** `slide.shapes.title`: python-pptx returns the first title placeholder. */
  function FirstTitle(shapes: seq<Shape>): (r: Option<nat>)
    ensures r.Some? ==> r.value < |shapes| && shapes[r.value].TitleShape?
    ensures r.Some? ==> forall k :: 0 <= k < r.value ==> !shapes[k].TitleShape?
    ensures r.None? ==> forall k :: 0 <= k < |shapes| ==> !shapes[k].TitleShape?
  {
    if shapes == [] then None
    else if shapes[0].TitleShape? then Some(0)
    else match FirstTitle(shapes[1..])
      case None => None
      case Some(k) => Some(k + 1)
  }

  /** The title's text, the first entry of `text_content` (even when empty). */
  function TitlePart(s: Slide): seq<string> {
    match FirstTitle(s.shapes)
    case None => []
    case Some(t) => [s.shapes[t].text]
  }

  /** The shape loop keeps a shape that has a non-empty text and is not the title. */
  predicate Listed(shapes: seq<Shape>, title: Option<nat>, k: nat)
    requires k < |shapes|
  {
    !shapes[k].Graphic? && |shapes[k].text| > 0 && title != Some(k)
  }

  /** The texts the shape loop appends after looking at the first `n` shapes. */
  function OtherTexts(shapes: seq<Shape>, title: Option<nat>, n: nat): seq<string>
    requires n <= |shapes|
  {
    if n == 0 then []
    else
      OtherTexts(shapes, title, n - 1)
      + (if Listed(shapes, title, n - 1) then [shapes[n - 1].text] else [])
  }

  /** The positions of the listed shapes among the first `n`, in shape order. */
  function ListedIndices(shapes: seq<Shape>, title: Option<nat>, n: nat): seq<nat>
    requires n <= |shapes|
  {
    if n == 0 then []
    else ListedIndices(shapes, title, n - 1) + (if Listed(shapes, title, n - 1) then [n - 1] else [])
  }

  /** The lines of a slide's text: the title, then the other listed shapes. */
  function SlideTexts(s: Slide): seq<string> {
    TitlePart(s) + OtherTexts(s.shapes, FirstTitle(s.shapes), |s.shapes|)
  }

  function Content(s: Slide): string {
    Join(SlideTexts(s), "\n")
  }

  /** `extract_slide_content`. */
  method ExtractSlideContent(slide: Slide) returns (content: string)
    ensures content == Content(slide)
  {
    var textContent: seq<string> := [];
    var title := FirstTitle(slide.shapes);
    if title.Some? {
      textContent := textContent + [slide.shapes[title.value].text];
    }
    for k := 0 to |slide.shapes|
      invariant textContent == TitlePart(slide) + OtherTexts(slide.shapes, title, k)
    {
      var shape := slide.shapes[k];
      if !shape.Graphic? && |shape.text| > 0 && title != Some(k) {
        textContent := textContent + [shape.text];
      }
    }
    content := Join(textContent, "\n");
  }

  /** The shape loop is an order-keeping filter: its texts are those of the shapes
      with non-empty text other than the title, at increasing positions, and every
      such shape is among them. */
  lemma {:induction false} OtherTextsSpec(shapes: seq<Shape>, title: Option<nat>, n: nat)
    requires n <= |shapes|
    ensures var ks := ListedIndices(shapes, title, n);
      && |ks| == |OtherTexts(shapes, title, n)|
      && (forall j :: 0 <= j < |ks| ==>
            ks[j] < n && Listed(shapes, title, ks[j]) && OtherTexts(shapes, title, n)[j] == shapes[ks[j]].text)
      && (forall i, j :: 0 <= i < j < |ks| ==> ks[i] < ks[j])
      && (forall k :: 0 <= k < n ==> (Listed(shapes, title, k) <==> k in ks))
  {
    if n > 0 {
      OtherTextsSpec(shapes, title, n - 1);
    }
  }

  /** The title comes first: the text starts with the title's text. */
  lemma {:induction false} ContentTitleFirst(s: Slide)
    requires FirstTitle(s.shapes).Some?
    ensures StartsWith(Content(s), s.shapes[FirstTitle(s.shapes).value].text)
  {
    var parts := SlideTexts(s);
    var t := s.shapes[FirstTitle(s.shapes).value].text;
    assert parts[0] == t;
    if |parts| > 1 {
      assert Join(parts, "\n") == t + "\n" + Join(parts[1..], "\n");
      assert Join(parts, "\n")[..|t|] == t;
    }
  }

  /** Splitting the text at its newlines gives back the lines, when no shape text
      holds a newline of its own. */
  lemma {:induction false} ContentSplit(s: Slide)
    requires SlideTexts(s) != []
    requires forall k :: 0 <= k < |SlideTexts(s)| ==> '\n' !in SlideTexts(s)[k]
    ensures SplitOn(Content(s), "\n") == SlideTexts(s)
  {
    SplitJoin(SlideTexts(s), '\n');
  }

  /** The heading of a slide: its title's text, or `Slide n` with the 1-based
      slide number. */
  function SubSection(s: Slide, idx: nat): string {
    match FirstTitle(s.shapes)
    case Some(t) => s.shapes[t].text
    case None => "Slide " + NatToString(idx + 1)
  }

  /** A slide without a title is labelled with its 1-based number, which reads
      back from the label. */
  lemma {:induction false} SubSectionSpec(s: Slide, idx: nat)
    ensures FirstTitle(s.shapes).Some? ==> SubSection(s, idx) == s.shapes[FirstTitle(s.shapes).value].text
    ensures FirstTitle(s.shapes).None? ==>
      StartsWith(SubSection(s, idx), "Slide ") && ParseInt(SubSection(s, idx)[6..]) == Ok(idx + 1)
  {
    if FirstTitle(s.shapes).None? {
      var name := SubSection(s, idx);
      assert name[6..] == NatToString(idx + 1);
      assert name[..6] == "Slide ";
      ParseIntToString(idx + 1);
    }
  }

  /** The chunks of the slide at `idx`: none for a blank text. */
  function SlideChunks(s: Slide, idx: nat, section: string): seq<Chunk<PdfPages.PageMeta<()>>> {
    if |Strip(Content(s))| > 0
    then PdfPages.SubsectionChunks(Content(s), section, Some(SubSection(s, idx)), 1000)
    else []
  }

  type SlideChunker = (Slide, nat) -> seq<Chunk<PdfPages.PageMeta<()>>>

  function Chunker(section: string): SlideChunker {
    (s: Slide, idx: nat) => SlideChunks(s, idx, section)
  }

  function RangeChunks(slides: seq<Slide>): PdfPages.SectionRange -> seq<Chunk<PdfPages.PageMeta<()>>> {
    (r: PdfPages.SectionRange) => FlatMapRange(slides, r.start, r.end, Chunker(r.section))
  }

  /** All chunks of the deck, section after section and slide after slide. */
  function Deck(slides: seq<Slide>): seq<Chunk<PdfPages.PageMeta<()>>> {
    FlatMap(PdfPages.SectionRanges, RangeChunks(slides))
  }

  /** The body of the slide loop. */
  method ChunkSlide(slide: Slide, idx: nat, section: string) returns (found: seq<Chunk<PdfPages.PageMeta<()>>>)
    ensures found == SlideChunks(slide, idx, section)
  {
    found := [];
    var slideText := ExtractSlideContent(slide);
    if |Strip(slideText)| > 0 {
      var title := FirstTitle(slide.shapes);
      var subSection := if title.Some? then slide.shapes[title.value].text else "Slide " + NatToString(idx + 1);
      found := PdfPages.CreateChunksWithSubsection(slideText, section, Some(subSection), 1000);
    }
  }

  /** The chunks of the slide at `idx`, none when the deck is shorter. */
  method ChunkAt(slides: seq<Slide>, idx: nat, section: string) returns (found: seq<Chunk<PdfPages.PageMeta<()>>>)
    ensures found == (if idx < |slides| then Chunker(section)(slides[idx], idx) else [])
  {
    found := [];
    if idx < |slides| {
      found := ChunkSlide(slides[idx], idx, section);
    }
  }

  /** The slide loop of one section; an index past the last slide is skipped. */
  method ChunkRange(slides: seq<Slide>, r: PdfPages.SectionRange) returns (chunks: seq<Chunk<PdfPages.PageMeta<()>>>)
    ensures chunks == RangeChunks(slides)(r)
  {
    chunks := [];
    var idx := r.start;
    while idx <= r.end
      invariant r.start <= idx
      invariant chunks + FlatMapRange(slides, idx, r.end, Chunker(r.section))
             == FlatMapRange(slides, r.start, r.end, Chunker(r.section))
      decreases r.end + 1 - idx
    {
      var found := ChunkAt(slides, idx, r.section);
      FlatMapRangeStep(slides, idx, r.end, Chunker(r.section), chunks, found);
      chunks := chunks + found;
      idx := idx + 1;
    }
    assert chunks + [] == chunks;
  }

  /** `extract_esg_performance_base`. */
  method ExtractEsgPerformanceBase(slides: seq<Slide>) returns (all: seq<Chunk<PdfPages.PageMeta<()>>>)
    ensures all == Deck(slides)
  {
    all := [];
    for i := 0 to |PdfPages.SectionRanges|
      invariant all == FlatMap(PdfPages.SectionRanges[..i], RangeChunks(slides))
    {
      FlatMapSnoc(PdfPages.SectionRanges, i, RangeChunks(slides));
      var chunks := ChunkRange(slides, PdfPages.SectionRanges[i]);
      all := all + chunks;
    }
    assert PdfPages.SectionRanges[..|PdfPages.SectionRanges|] == PdfPages.SectionRanges;
  }

  /** Every existing slide of the three ranges whose text is not blank yields
      chunks. */
  lemma {:induction false} SlideYieldsChunks(slides: seq<Slide>, i: nat, idx: nat)
    requires i < |PdfPages.SectionRanges| && PdfPages.InRange(PdfPages.SectionRanges[i], idx)
    requires idx < |slides| && !AllSpace(Content(slides[idx]))
    ensures Deck(slides) != []
  {
    var r := PdfPages.SectionRanges[i];
    SlideNonEmpty(slides[idx], idx, r.section);
    FlatMapRangeHas(slides, r.start, r.end, idx, Chunker(r.section));
    assert RangeChunks(slides)(PdfPages.SectionRanges[i]) != [];
    FlatMapEmpty(PdfPages.SectionRanges, RangeChunks(slides));
  }

  /** A slide whose text is not blank yields at least one chunk. */
  lemma {:induction false} SlideNonEmpty(s: Slide, idx: nat, section: string)
    requires !AllSpace(Content(s))
    ensures Chunker(section)(s, idx) != []
  {
    StripSpec(Content(s));
    PdfPages.ChunksNonEmpty<()>(Content(s), section, Some(SubSection(s, idx)));
  }

  /** A chunk names a heading and the report and carries no structured data. */
  predicate GoodMeta(c: Chunk<PdfPages.PageMeta<()>>) {
    && c.metadata.subSection.Some?
    && c.metadata.source == PdfSections.ReportName
    && c.metadata.structured.None?
  }

  lemma {:induction false} SlideChunksMeta(s: Slide, idx: nat, section: string)
    ensures var cs := Chunker(section)(s, idx);
      forall j :: 0 <= j < |cs| ==> GoodMeta(cs[j]) && cs[j].metadata.section == section
  {
    assert Chunker(section)(s, idx) == SlideChunks(s, idx, section);
  }

  /** A chunk whose section is that of one of the three page ranges. */
  predicate RangeSection(c: Chunk<PdfPages.PageMeta<()>>) {
    exists i :: 0 <= i < |PdfPages.SectionRanges| && c.metadata.section == PdfPages.SectionRanges[i].section
  }

  predicate Placed(c: Chunk<PdfPages.PageMeta<()>>) {
    GoodMeta(c) && RangeSection(c)
  }

  /** Every chunk of the deck names a heading and the report, and carries the
      section of one of the three ranges (the range its slide lies in). */
  lemma {:induction false} DeckMeta(slides: seq<Slide>)
    ensures forall k :: 0 <= k < |Deck(slides)| ==> GoodMeta(Deck(slides)[k]) && RangeSection(Deck(slides)[k])
  {
    forall i | 0 <= i < |PdfPages.SectionRanges|
      ensures forall j :: 0 <= j < |RangeChunks(slides)(PdfPages.SectionRanges[i])| ==>
        Placed(RangeChunks(slides)(PdfPages.SectionRanges[i])[j])
    {
      var r := PdfPages.SectionRanges[i];
      forall idx, j | r.start <= idx <= r.end && idx < |slides| && 0 <= j < |Chunker(r.section)(slides[idx], idx)|
        ensures Placed(Chunker(r.section)(slides[idx], idx)[j])
      {
        SlideChunksMeta(slides[idx], idx, r.section);
        assert Chunker(r.section)(slides[idx], idx)[j].metadata.section == PdfPages.SectionRanges[i].section;
      }
      FlatMapRangeAll(slides, r.start, r.end, Chunker(r.section), Placed);
      assert RangeChunks(slides)(r) == FlatMapRange(slides, r.start, r.end, Chunker(r.section));
    }
    FlatMapAll(PdfPages.SectionRanges, RangeChunks(slides), Placed);
  }
}
