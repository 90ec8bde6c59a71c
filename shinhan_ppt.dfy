/**
 * code/shinhan_ppt_processor.py: every slide with text is cut into sentences,
 * each cleaned with `preprocess_text`, and greedily packed into chunks of at most
 * `chunk_size` characters; a packed chunk is cleaned once more. The chunks of a
 * slide carry its page number and the (section, subsection) of the report's page
 * table. Slide text extraction is the one of PptProcessor.
 */
module ShinhanPpt {
  import opened Outcomes
  import opened Text
  import opened Normalize
  import opened Packing
  import ShinhanSections
  import PdfSections
  import opened PptxElements
  import opened PptProcessor

  /** The metadata of a chunk. */
  datatype PageMeta = PageMeta(section: string, subSection: string, source: string, page: nat)

  /** The sentence cleaning of the loop, with `None` read as the empty string that
      `if not sentence: continue` skips. */
  function CleanSentence(s: string): string {
    match Preprocess(s)
    case Some(t) => t
    case None => []
  }

  /** The chunks `create_chunks` gives for one slide text, as a function. */
  function PageChunks(text: string, section: string, sub: string, page: nat, size: int): seq<Chunk<PageMeta>> {
    Emit(Pack(Kept(SplitSentences(text), CleanSentence), size), Preprocess,
         PageMeta(section, sub, PdfSections.ReportName, page))
  }

  /** `create_chunks(text, section_type, sub_section, page_num, chunk_size)`. */
  method CreateChunks(text: string, sectionType: string, subSection: string, pageNum: nat, chunkSize: int)
    returns (chunks: seq<Chunk<PageMeta>>)
    ensures chunks == PageChunks(text, sectionType, subSection, pageNum, chunkSize)
  {
    var sentences := SplitSentences(text);
    chunks := PackChunks(sentences, CleanSentence, Preprocess,
                         PageMeta(sectionType, subSection, PdfSections.ReportName, pageNum), chunkSize);
  }

  /** A sentence the loop keeps is solid. */
  lemma {:induction false} KeptSolid(sentences: seq<string>)
    ensures forall k :: 0 <= k < |Kept(sentences, CleanSentence)| ==> Solid(Kept(sentences, CleanSentence)[k])
  {
    if sentences != [] {
      var n := |sentences| - 1;
      KeptSolid(sentences[..n]);
      PreprocessSolid(sentences[n]);
      var pre, last := Kept(sentences[..n], CleanSentence), CleanSentence(sentences[n]);
      var tail: seq<string> := if last == [] then [] else [last];
      assert Kept(sentences, CleanSentence) == pre + tail;
      assert forall k :: 0 <= k < |tail| ==> Solid(tail[k]);
    }
  }

  /** With a second cleaning that keeps every joined group, there is one chunk per
      group, holding the cleaned join. */
  lemma {:induction false} EmitTotal<M>(gs: seq<seq<string>>, finish: string -> Option<string>, meta: M)
    requires forall k :: 0 <= k < |gs| ==> finish(Join(gs[k], " ")).Some?
    ensures var r := Emit(gs, finish, meta);
      |r| == |gs| && forall k :: 0 <= k < |gs| ==> finish(Join(gs[k], " ")) == Some(r[k].text)
  {
    if gs != [] {
      EmitTotal(gs[..|gs| - 1], finish, meta);
    }
  }

  /** The second cleaning never drops a chunk: each packed group starts with a
      kept sentence, which survives the cleaning of the joined text. So there is
      one chunk per packed group, its text the cleaned join of the group, and no
      chunk at all exactly when no sentence survives its own cleaning. */
  lemma {:induction false} PageChunksSpec(text: string, section: string, sub: string, page: nat, size: int)
    ensures var gs := Pack(Kept(SplitSentences(text), CleanSentence), size);
      var r := PageChunks(text, section, sub, page, size);
      && |r| == |gs|
      && (forall k :: 0 <= k < |gs| ==> Preprocess(Join(gs[k], " ")) == Some(r[k].text))
      && (r == [] <==> Kept(SplitSentences(text), CleanSentence) == [])
  {
    var xs := Kept(SplitSentences(text), CleanSentence);
    var gs := Pack(xs, size);
    KeptSolid(SplitSentences(text));
    PackSpec(xs, size);
    PackEmpty(xs, size);
    forall k | 0 <= k < |gs|
      ensures Preprocess(Join(gs[k], " ")).Some?
    {
      FlattenMember(gs, k, 0);
      assert gs[k][0] in xs;
      SolidJoin(gs[k], " ");
    }
    EmitTotal(gs, Preprocess, PageMeta(section, sub, PdfSections.ReportName, page));
  }

  /** Every chunk is stripped, on one line, free of doubled `.`, `!` and `?`, and
      carries the page, the given section and subsection, and the report name. */
  lemma {:induction false} PageChunksShape(text: string, section: string, sub: string, page: nat, size: int)
    ensures forall c :: c in PageChunks(text, section, sub, page, size) ==>
      && c.metadata == PageMeta(section, sub, PdfSections.ReportName, page)
      && c.text != [] && !IsSpace(c.text[0]) && !IsSpace(c.text[|c.text| - 1]) && '\n' !in c.text
      && !Contains(c.text, "..") && !Contains(c.text, "!!") && !Contains(c.text, "??")
  {
    var gs := Pack(Kept(SplitSentences(text), CleanSentence), size);
    forall c | c in PageChunks(text, section, sub, page, size)
      ensures c.text != [] && !IsSpace(c.text[0]) && !IsSpace(c.text[|c.text| - 1]) && '\n' !in c.text
      ensures !Contains(c.text, "..") && !Contains(c.text, "!!") && !Contains(c.text, "??")
    {
      EmitCleaned(gs, Preprocess, PageMeta(section, sub, PdfSections.ReportName, page), c);
      var k :| 0 <= k < |gs| && Preprocess(Join(gs[k], " ")) == Some(c.text);
      PreprocessShape(Join(gs[k], " "));
    }
  }

  /** Each emitted text is the second cleaning of one group's join. */
  lemma {:induction false} EmitCleaned<M>(gs: seq<seq<string>>, finish: string -> Option<string>, meta: M, c: Chunk<M>)
    requires c in Emit(gs, finish, meta)
    ensures exists k :: 0 <= k < |gs| && finish(Join(gs[k], " ")) == Some(c.text)
  {
    var n := |gs| - 1;
    if c in Emit(gs[..n], finish, meta) {
      EmitCleaned(gs[..n], finish, meta, c);
      var k :| 0 <= k < n && finish(Join(gs[..n][k], " ")) == Some(c.text);
      assert gs[..n][k] == gs[k];
    }
  }

  /** The first sentence of a text starts with its first character. */
  lemma {:induction false} SplitFirst(s: string)
    requires s != []
    ensures SplitSentences(s)[0] != [] && SplitSentences(s)[0][0] == s[0]
  {
  }

  /** A sentence that survives its cleaning makes the kept list non-empty. */
  lemma {:induction false} KeptHas(sentences: seq<string>, clean: string -> string, i: nat)
    requires i < |sentences| && clean(sentences[i]) != []
    ensures Kept(sentences, clean) != []
    decreases |sentences|
  {
    var n := |sentences| - 1;
    if i < n {
      KeptHas(sentences[..n], clean, i);
    }
  }

  /** A slide text always yields at least one chunk, so `if chunks:` never skips. */
  lemma {:induction false} SlideTextChunked(slide: Slide, section: string, sub: string, page: nat, size: int)
    requires SlideText(slide).Some?
    ensures PageChunks(SlideText(slide).value, section, sub, page, size) != []
  {
    var t := SlideText(slide).value;
    PreprocessSolid(Join(FlatMap(slide, ShapePart), "\n"));
    SolidKept(t);
    PageChunksSpec(t, section, sub, page, size);
  }

  /** A cleaned text keeps its first sentence. */
  lemma {:induction false} SolidKept(t: string)
    requires Solid(t)
    ensures Kept(SplitSentences(t), CleanSentence) != []
  {
    SplitFirst(t);
    PreprocessSomeIff(SplitSentences(t)[0]);
    KeptHas(SplitSentences(t), CleanSentence, 0);
  }

  /** The chunks of one slide: none when it has no text. */
  function SlideChunks(slide: Slide, page: nat): seq<Chunk<PageMeta>> {
    match SlideText(slide)
    case None => []
    case Some(t) =>
      var key := ShinhanSections.SectionAndSubsection(page);
      PageChunks(t, key.0, key.1, page, 1000)
  }

  /** `process_ppt`: the chunks of the slides, slide by slide. */
  function Deck(slides: seq<Slide>): seq<Chunk<PageMeta>> {
    if slides == [] then [] else Deck(slides[..|slides| - 1]) + SlideChunks(slides[|slides| - 1], |slides|)
  }

  method ProcessPpt(slides: seq<Slide>) returns (allChunks: seq<Chunk<PageMeta>>)
    ensures allChunks == Deck(slides)
  {
    allChunks := [];
    for idx := 0 to |slides|
      invariant allChunks == Deck(slides[..idx])
    {
      DeckStep(slides, idx);
      var chunks := ChunkPage(slides[idx], idx + 1);
      if chunks != [] {
        allChunks := allChunks + chunks;
      }
    }
    assert slides[..|slides|] == slides;
  }

  /** The body of the slide loop, for the slide on page `pageNum`. */
  method ChunkPage(slide: Slide, pageNum: nat) returns (chunks: seq<Chunk<PageMeta>>)
    ensures chunks == SlideChunks(slide, pageNum)
  {
    chunks := [];
    var key := ShinhanSections.SectionAndSubsection(pageNum);
    var slideText := ExtractSlideText(slide);
    if slideText.Some? {
      chunks := CreateChunks(slideText.value, key.0, key.1, pageNum, 1000);
    }
  }

  lemma {:induction false} DeckStep(slides: seq<Slide>, idx: nat)
    requires idx < |slides|
    ensures Deck(slides[..idx + 1]) == Deck(slides[..idx]) + SlideChunks(slides[idx], idx + 1)
  {
    var pre := slides[..idx + 1];
    assert pre[..|pre| - 1] == slides[..idx];
  }

  /** A slide's chunks carry its page, its configured section and subsection
      and the report name, and exist only when the slide has text. */
  lemma {:induction false} SlideChunksMeta(slide: Slide, page: nat)
    ensures forall c :: c in SlideChunks(slide, page) ==>
      && SlideText(slide).Some?
      && c.metadata == PageMeta(ShinhanSections.SectionAndSubsection(page).0,
                                ShinhanSections.SectionAndSubsection(page).1, PdfSections.ReportName, page)
  {
    if SlideText(slide).Some? {
      var key := ShinhanSections.SectionAndSubsection(page);
      PageChunksShape(SlideText(slide).value, key.0, key.1, page, 1000);
    }
  }

  /** Every chunk of the deck comes from a page with text and carries that page's
      section and subsection and the report name. */
  lemma {:induction false} DeckPlaced(slides: seq<Slide>)
    ensures forall c :: c in Deck(slides) ==>
      && 1 <= c.metadata.page <= |slides|
      && SlideText(slides[c.metadata.page - 1]).Some?
      && c.metadata.section == ShinhanSections.SectionAndSubsection(c.metadata.page).0
      && c.metadata.subSection == ShinhanSections.SectionAndSubsection(c.metadata.page).1
      && c.metadata.source == PdfSections.ReportName
  {
    if slides != [] {
      var n := |slides| - 1;
      var pre := slides[..n];
      DeckPlaced(pre);
      SlideChunksMeta(slides[n], n + 1);
      forall c | c in Deck(pre)
        ensures slides[c.metadata.page - 1] == pre[c.metadata.page - 1]
      {
      }
    }
  }

  /** The chunks come in page order. */
  lemma {:induction false} DeckOrdered(slides: seq<Slide>)
    ensures forall i, j :: 0 <= i < j < |Deck(slides)| ==> Deck(slides)[i].metadata.page <= Deck(slides)[j].metadata.page
  {
    if slides != [] {
      var n := |slides| - 1;
      var pre := slides[..n];
      DeckOrdered(pre);
      DeckPlaced(pre);
      SlideChunksMeta(slides[n], n + 1);
      var a, b := Deck(pre), SlideChunks(slides[n], n + 1);
      var ab: seq<Chunk<PageMeta>> := a + b;
      assert Deck(slides) == ab;
      forall i, j | 0 <= i < j < |ab|
        ensures ab[i].metadata.page <= ab[j].metadata.page
      {
        if j >= |a| {
          assert ab[j] in b;
          if i < |a| {
            assert ab[i] in a;
          } else {
            assert ab[i] in b;
          }
        } else {
          assert ab[i] == a[i] && ab[j] == a[j];
        }
      }
    }
  }

  /** A slide with text has a chunk for its page. */
  lemma {:induction false} SlideChunksHas(slide: Slide, page: nat)
    requires SlideText(slide).Some?
    ensures SlideChunks(slide, page) != [] && SlideChunks(slide, page)[0].metadata.page == page
  {
    var key := ShinhanSections.SectionAndSubsection(page);
    SlideTextChunked(slide, key.0, key.1, page, 1000);
    SlideChunksMeta(slide, page);
    assert SlideChunks(slide, page)[0] in SlideChunks(slide, page);
  }

  /** The deck after one more slide. */
  lemma {:induction false} DeckSnoc(slides: seq<Slide>)
    requires slides != []
    ensures Deck(slides) == Deck(slides[..|slides| - 1]) + SlideChunks(slides[|slides| - 1], |slides|)
  {
  }

  lemma {:induction false} DeckCoversAt(slides: seq<Slide>, q: nat)
    requires q < |slides| && SlideText(slides[q]).Some?
    ensures exists c :: c in Deck(slides) && c.metadata.page == q + 1
  {
    var n := |slides| - 1;
    var pre := slides[..n];
    DeckSnoc(slides);
    if q < n {
      assert pre[q] == slides[q];
      DeckCoversAt(pre, q);
      var c :| c in Deck(pre) && c.metadata.page == q + 1;
      assert c in Deck(slides);
    } else {
      assert q == n;
      var b := SlideChunks(slides[q], q + 1);
      SlideChunksHas(slides[q], q + 1);
      InRight(Deck(pre), b, 0);
      assert b[0] in Deck(slides) && b[0].metadata.page == q + 1;
    }
  }

  lemma {:induction false} InRight<T>(a: seq<T>, b: seq<T>, k: nat)
    requires k < |b|
    ensures b[k] in a + b
  {
    assert (a + b)[|a| + k] == b[k];
  }

  /** Every slide with text has chunks in the deck. */
  lemma {:induction false} DeckCovers(slides: seq<Slide>)
    ensures forall q :: 0 <= q < |slides| && SlideText(slides[q]).Some? ==>
      exists c :: c in Deck(slides) && c.metadata.page == q + 1
  {
    forall q | 0 <= q < |slides| && SlideText(slides[q]).Some?
      ensures exists c :: c in Deck(slides) && c.metadata.page == q + 1
    {
      DeckCoversAt(slides, q);
    }
  }
}
