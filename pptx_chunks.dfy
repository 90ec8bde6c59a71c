/**
 * temp/code/pptx_chunks_with_structure.py: the slides of the three ESG index
 * ranges of the Shinhan Life deck, each slide's non-blank shape texts joined by
 * newlines and packed into sentence chunks whose metadata carries the slide
 * number and the slide's structured elements (see PptxElements).
 */
module PptxChunks {
  import opened Outcomes
  import opened Text
  import opened Packing
  import PdfSections
  import PdfPages
  import opened PptxElements

  /** The metadata of a chunk: section, 1-based slide number, report name and
      the element dictionaries of the slide. */
  datatype StructMeta = StructMeta(section: string, slideNumber: nat, source: string,
                                   structuredElements: seq<Json>)

  function Meta(section: string, slideNumber: nat, elements: seq<Element>): StructMeta {
    StructMeta(section, slideNumber, PdfSections.ReportName, Dicts(elements))
  }

  /** The chunks `create_chunks` returns. */
  function StructChunks(text: string, section: string, slideNumber: nat, elements: seq<Element>,
                        size: int): seq<Chunk<StructMeta>> {
    Emit(Pack(Kept(SplitSentences(text), Strip), size), t => Some(t), Meta(section, slideNumber, elements))
  }

  /** `create_chunks`: one chunk per packed group, its sentences joined by single
      spaces, never empty, every one with the same metadata. */
  method CreateChunks(text: string, section: string, slideNumber: nat, elements: seq<Element>, size: int)
    returns (chunks: seq<Chunk<StructMeta>>)
    ensures chunks == StructChunks(text, section, slideNumber, elements, size)
    ensures var gs := Pack(Kept(SplitSentences(text), Strip), size);
      && |chunks| == |gs|
      && forall k :: 0 <= k < |chunks| ==>
        && chunks[k].text == Join(gs[k], " ") && chunks[k].text != []
        && chunks[k].metadata == Meta(section, slideNumber, elements)
  {
    var sentences := SplitSentences(text);
    var meta := Meta(section, slideNumber, elements);
    chunks := PackChunks(sentences, Strip, t => Some(t), meta, size);
    PlainChunks(sentences, Strip, meta, size);
  }

  /** A text holding nothing but whitespace gives no chunk; every other text gives
      at least one. */
  lemma {:induction false} StructChunksEmpty(text: string, section: string, slideNumber: nat,
                                             elements: seq<Element>, size: int)
    ensures StructChunks(text, section, slideNumber, elements, size) == [] <==> AllSpace(text)
  {
    var sentences := SplitSentences(text);
    PlainChunks(sentences, Strip, Meta(section, slideNumber, elements), size);
    PdfSections.KeptStrip(sentences);
    PdfSections.SplitSentencesAllSpace(text);
  }

  // ---------------------------------------------------------------- slide text

  function StrippedText(s: Shape): seq<string> {
    if HasText(s) then [Strip(s.text.value)] else []
  }

  /** `joined_text`: the stripped non-blank shape texts, one per line. */
  function JoinedText(slide: Slide): string {
    Join(FlatMap(slide, StrippedText), "\n")
  }

  /** The shape loop that collects `slide_text`. */
  method JoinSlideText(slide: Slide) returns (joined: string)
    ensures joined == JoinedText(slide)
  {
    var texts: seq<string> := [];
    for k := 0 to |slide|
      invariant texts == FlatMap(slide[..k], StrippedText)
    {
      FlatMapSnoc(slide, k, StrippedText);
      var shape := slide[k];
      if shape.text.Some? && |Strip(shape.text.value)| > 0 {
        texts := texts + [Strip(shape.text.value)];
      }
    }
    assert slide[..|slide|] == slide;
    joined := Join(texts, "\n");
  }

  function Contents(es: seq<Element>): seq<string> {
    seq(|es|, j requires 0 <= j < |es| => es[j].content)
  }

  /** The lines of the joined text are the contents of the slide's elements, in
      order: what is chunked is what the metadata describes. */
  lemma {:induction false} JoinedTextContents(slide: Slide)
    ensures FlatMap(slide, StrippedText) == Contents(Elements(slide))
    ensures JoinedText(slide) == Join(Contents(Elements(slide)), "\n")
    decreases |slide|
  {
    if slide != [] {
      var pre := slide[..|slide| - 1];
      var s := slide[|slide| - 1];
      JoinedTextContents(pre);
      assert Elements(slide) == Elements(pre) + ShapeElements(s);
      var a, b := Elements(pre), ShapeElements(s);
      ContentsAppend(a, b);
      if HasText(s) {
        assert |s.text.value| > 0;
        assert Contents(b) == [Strip(s.text.value)];
      } else {
        assert Contents(b) == [];
      }
    }
  }

  lemma {:induction false} ContentsAppend(a: seq<Element>, b: seq<Element>)
    ensures Contents(a + b) == Contents(a) + Contents(b)
  {
  }

  /** Every line of the joined text starts with a character that is not whitespace. */
  predicate Solid(t: string) {
    |t| > 0 && !IsSpace(t[0])
  }

  /** The joined text is blank exactly when no shape has a non-blank text, that
      is, exactly when the slide has no element. */
  lemma {:induction false} JoinedTextBlank(slide: Slide)
    ensures AllSpace(JoinedText(slide)) <==> Elements(slide) == []
  {
    var parts := FlatMap(slide, StrippedText);
    FlatMapEmpty(slide, StrippedText);
    FlatMapEmpty(slide, ShapeElements);
    if parts != [] {
      forall k, j | 0 <= k < |slide| && 0 <= j < |StrippedText(slide[k])|
        ensures Solid(StrippedText(slide[k])[j])
      {
        StripEnds(slide[k].text.value);
      }
      FlatMapAll(slide, StrippedText, Solid);
      assert Solid(parts[0]);
      JoinHead(parts, "\n");
      assert !IsSpace(JoinedText(slide)[0]);
    }
  }

  // ---------------------------------------------------------------- the deck

  /** The chunks of the slide at index `idx`: none when the joined text is blank. */
  function SlideChunks(slide: Slide, idx: nat, section: string): seq<Chunk<StructMeta>> {
    var joined := JoinedText(slide);
    if |Strip(joined)| > 0 then StructChunks(joined, section, idx + 1, Elements(slide), 1000) else []
  }

  type SlideChunker = (Slide, nat) -> seq<Chunk<StructMeta>>

  function Chunker(section: string): SlideChunker {
    (s: Slide, idx: nat) => SlideChunks(s, idx, section)
  }

  function RangeChunks(slides: seq<Slide>): PdfPages.SectionRange -> seq<Chunk<StructMeta>> {
    (r: PdfPages.SectionRange) => FlatMapRange(slides, r.start, r.end, Chunker(r.section))
  }

  /** All chunks of the deck, section after section and slide after slide. */
  function StructDeck(slides: seq<Slide>): seq<Chunk<StructMeta>> {
    FlatMap(PdfPages.SectionRanges, RangeChunks(slides))
  }

  /** The body of the slide loop. */
  method ChunkSlide(slide: Slide, idx: nat, section: string) returns (found: seq<Chunk<StructMeta>>)
    ensures found == SlideChunks(slide, idx, section)
  {
    found := [];
    var joined := JoinSlideText(slide);
    var elements := ExtractStructuredElements(slide);
    if |Strip(joined)| > 0 {
      found := CreateChunks(joined, section, idx + 1, elements, 1000);
    }
  }

  /** The chunks of the slide at `idx`, none when the deck is shorter. */
  method ChunkAt(slides: seq<Slide>, idx: nat, section: string) returns (found: seq<Chunk<StructMeta>>)
    ensures found == (if idx < |slides| then Chunker(section)(slides[idx], idx) else [])
  {
    found := [];
    if idx < |slides| {
      found := ChunkSlide(slides[idx], idx, section);
    }
  }

  /** The slide loop of one section; an index past the last slide is skipped. */
  method ChunkRange(slides: seq<Slide>, r: PdfPages.SectionRange) returns (chunks: seq<Chunk<StructMeta>>)
    ensures chunks == RangeChunks(slides)(r)
  {
    chunks := [];
    var idx := r.start;
    while idx <= r.end
      invariant r.start <= idx
      invariant chunks + FlatMapRange(slides, idx, r.end, Chunker(r.section))
             == FlatMapRange(slides, r.start, r.end, Chunker(r.section))
      decreases r.end + 1 - idx
    {
      var found := ChunkAt(slides, idx, r.section);
      FlatMapRangeStep(slides, idx, r.end, Chunker(r.section), chunks, found);
      chunks := chunks + found;
      idx := idx + 1;
    }
    assert chunks + [] == chunks;
  }

  /** `extract_pptx_chunks_by_section_with_structure`. */
  method ExtractPptxChunksBySectionWithStructure(slides: seq<Slide>) returns (all: seq<Chunk<StructMeta>>)
    ensures all == StructDeck(slides)
  {
    all := [];
    for i := 0 to |PdfPages.SectionRanges|
      invariant all == FlatMap(PdfPages.SectionRanges[..i], RangeChunks(slides))
    {
      FlatMapSnoc(PdfPages.SectionRanges, i, RangeChunks(slides));
      var chunks := ChunkRange(slides, PdfPages.SectionRanges[i]);
      all := all + chunks;
    }
    assert PdfPages.SectionRanges[..|PdfPages.SectionRanges|] == PdfPages.SectionRanges;
  }

  /** A slide yields chunks exactly when it has structured elements. */
  lemma {:induction false} SlideChunkedIff(slide: Slide, idx: nat, section: string)
    ensures SlideChunks(slide, idx, section) != [] <==> Elements(slide) != []
  {
    var joined := JoinedText(slide);
    JoinedTextBlank(slide);
    StripSpec(joined);
    StructChunksEmpty(joined, section, idx + 1, Elements(slide), 1000);
  }

  /** A chunk of the deck: its slide exists, its section is the one whose range
      holds the slide's index, it names the report and it carries exactly the
      element dictionaries of its own slide. */
  predicate GoodChunk(slides: seq<Slide>, c: Chunk<StructMeta>) {
    var n := c.metadata.slideNumber;
    && 1 <= n <= |slides|
    && c.text != []
    && c.metadata.source == PdfSections.ReportName
    && c.metadata.structuredElements == Dicts(Elements(slides[n - 1]))
    && exists i :: 0 <= i < |PdfPages.SectionRanges| && PdfPages.SectionRanges[i].section == c.metadata.section
         && PdfPages.InRange(PdfPages.SectionRanges[i], n - 1)
  }

  lemma {:induction false} SlideChunksGood(slides: seq<Slide>, i: nat, idx: nat)
    requires i < |PdfPages.SectionRanges| && PdfPages.InRange(PdfPages.SectionRanges[i], idx) && idx < |slides|
    ensures var cs := Chunker(PdfPages.SectionRanges[i].section)(slides[idx], idx);
      forall j :: 0 <= j < |cs| ==> GoodChunk(slides, cs[j])
  {
    var r := PdfPages.SectionRanges[i];
    var s := slides[idx];
    var cs := Chunker(r.section)(s, idx);
    assert cs == SlideChunks(s, idx, r.section);
    if cs != [] {
      var joined := JoinedText(s);
      var gs := Pack(Kept(SplitSentences(joined), Strip), 1000);
      PlainChunks(SplitSentences(joined), Strip, Meta(r.section, idx + 1, Elements(s)), 1000);
      forall j | 0 <= j < |cs|
        ensures GoodChunk(slides, cs[j])
      {
        assert cs[j].metadata == Meta(r.section, idx + 1, Elements(s));
        assert PdfPages.SectionRanges[i].section == cs[j].metadata.section;
      }
    }
  }

  /** Every chunk of the deck is good. */
  lemma {:induction false} StructDeckMeta(slides: seq<Slide>)
    ensures forall k :: 0 <= k < |StructDeck(slides)| ==> GoodChunk(slides, StructDeck(slides)[k])
  {
    var good := (c: Chunk<StructMeta>) => GoodChunk(slides, c);
    forall i | 0 <= i < |PdfPages.SectionRanges|
      ensures forall j :: 0 <= j < |RangeChunks(slides)(PdfPages.SectionRanges[i])| ==>
        good(RangeChunks(slides)(PdfPages.SectionRanges[i])[j])
    {
      var r := PdfPages.SectionRanges[i];
      forall idx, j | r.start <= idx <= r.end && idx < |slides| && 0 <= j < |Chunker(r.section)(slides[idx], idx)|
        ensures good(Chunker(r.section)(slides[idx], idx)[j])
      {
        SlideChunksGood(slides, i, idx);
      }
      FlatMapRangeAll(slides, r.start, r.end, Chunker(r.section), good);
      assert RangeChunks(slides)(r) == FlatMapRange(slides, r.start, r.end, Chunker(r.section));
    }
    FlatMapAll(PdfPages.SectionRanges, RangeChunks(slides), good);
  }

  /** Every existing slide of the three ranges that has an element yields chunks. */
  lemma {:induction false} SlideWithElementsChunked(slides: seq<Slide>, i: nat, idx: nat)
    requires i < |PdfPages.SectionRanges| && PdfPages.InRange(PdfPages.SectionRanges[i], idx)
    requires idx < |slides| && Elements(slides[idx]) != []
    ensures StructDeck(slides) != []
  {
    var r := PdfPages.SectionRanges[i];
    SlideChunkedIff(slides[idx], idx, r.section);
    assert Chunker(r.section)(slides[idx], idx) != [];
    FlatMapRangeHas(slides, r.start, r.end, idx, Chunker(r.section));
    assert RangeChunks(slides)(PdfPages.SectionRanges[i]) != [];
    FlatMapEmpty(PdfPages.SectionRanges, RangeChunks(slides));
  }
}
