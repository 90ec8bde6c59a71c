/**
 * code/pdf_processor.py: the ESG Performance part of a PDF report is cut into
 * its Environmental, Social and Governance sections (`extract_sections`), and
 * each section is packed into sentence chunks (`create_chunks`).
 *
 * The patterns are `Name.*?(?=Stop|$)` under `re.DOTALL | re.IGNORECASE`:
 * the first match starts at the first case-insensitive occurrence of `Name`
 * and the lazy `.*?` stops at the first later position where `Stop` occurs or
 * where `$` holds (the end of the text, or just before a final newline).
 */
module PdfSections {
  import opened Outcomes
  import opened Text
  import opened Packing

  /** `w` occurs at position `i` of `text`, ignoring the case of ASCII letters. */
  predicate MatchesAt(text: string, i: int, w: string) {
    0 <= i && i + |w| <= |text| && forall j :: 0 <= j < |w| ==> LowerChar(text[i + j]) == LowerChar(w[j])
  }

  /** The first case-insensitive occurrence of `w` at or after `from`. */
  function FindFrom(text: string, w: string, from: nat): (r: Option<nat>)
    ensures r.Some? ==> from <= r.value && MatchesAt(text, r.value, w)
    ensures r.Some? ==> forall j :: from <= j < r.value ==> !MatchesAt(text, j, w)
    ensures r.None? ==> forall j :: from <= j ==> !MatchesAt(text, j, w)
    decreases |text| - from
  {
    if from + |w| > |text| then None
    else if MatchesAt(text, from, w) then Some(from)
    else FindFrom(text, w, from + 1)
  }

  /** Where the lookahead `(?=stop|$)` holds. */
  predicate StopsAt(text: string, p: int, stop: string) {
    MatchesAt(text, p, stop) || p == |text| || (0 <= p && p + 1 == |text| && text[p] == '\n')
  }

  /** The first position at or after `from` where the lazy `.*?` may stop. */
  function SectionEnd(text: string, from: nat, stop: string): (p: nat)
    requires from <= |text|
    ensures from <= p <= |text| && StopsAt(text, p, stop)
    ensures forall j :: from <= j < p ==> !StopsAt(text, j, stop)
    decreases |text| - from
  {
    if StopsAt(text, from, stop) then from else SectionEnd(text, from + 1, stop)
  }

  /** `matches[0]` of `re.findall(name + ".*?(?=" + stop + "|$)", text)`, or
      `None` when the list is empty. */
  function FirstMatch(text: string, name: string, stop: string): Option<string> {
    match FindFrom(text, name, 0)
    case None => None
    case Some(i) => Some(text[i..SectionEnd(text, i + |name|, stop)])
  }

  /** There is a match exactly when the name occurs; the match begins with the
      name and holds no occurrence of `stop` after it. */
  lemma {:induction false} FirstMatchSpec(text: string, name: string, stop: string)
    ensures FirstMatch(text, name, stop).None? <==> forall j :: !MatchesAt(text, j, name)
    ensures FirstMatch(text, name, stop).Some? ==> var m := FirstMatch(text, name, stop).value;
      && MatchesAt(m, 0, name)
      && forall j :: |name| <= j < |m| ==> !MatchesAt(m, j, stop)
  {
    match FindFrom(text, name, 0)
    case None =>
    case Some(i) =>
      var p := SectionEnd(text, i + |name|, stop);
      var m := text[i..p];
      assert MatchesAt(m, 0, name) by {
        forall j | 0 <= j < |name|
          ensures LowerChar(m[j]) == LowerChar(name[j])
        {
          assert m[j] == text[i + j];
        }
      }
      forall j | |name| <= j < |m|
        ensures !MatchesAt(m, j, stop)
      {
        assert !StopsAt(text, i + j, stop);
        MatchesInSlice(text, i, p, j, stop);
      }
  }

  /** An occurrence inside a slice is an occurrence in the whole text. */
  lemma {:induction false} MatchesInSlice(text: string, i: nat, p: nat, j: int, w: string)
    requires i <= p <= |text|
    ensures MatchesAt(text[i..p], j, w) ==> MatchesAt(text, i + j, w)
  {
    if MatchesAt(text[i..p], j, w) {
      forall t | 0 <= t < |w|
        ensures LowerChar(text[i + j + t]) == LowerChar(w[t])
      {
        assert text[i..p][j + t] == text[i + j + t];
      }
    }
  }

  /** The three patterns of `extract_sections`, in dictionary order: each name
      with the word its lookahead stops at. */
  const Patterns: seq<(string, string)> := [
    ("Environmental", "Social"),
    ("Social", "Governance"),
    ("Governance", "다음 섹션")]

  /** The stripped first match, `None` standing for the `[]` the dictionary
      starts with. */
  function SectionText(text: string, pattern: (string, string)): Option<string> {
    match FirstMatch(text, pattern.0, pattern.1)
    case None => None
    case Some(m) => Some(Strip(m))
  }

  /** The dictionary `extract_sections` builds from `patterns`, as its list of items. */
  function SectionsOf(text: string, patterns: seq<(string, string)>): (r: seq<(string, Option<string>)>)
    ensures |r| == |patterns|
    ensures forall k :: 0 <= k < |patterns| ==> r[k] == (patterns[k].0, SectionText(text, patterns[k]))
  {
    if patterns == [] then []
    else
      var last := patterns[|patterns| - 1];
      SectionsOf(text, patterns[..|patterns| - 1]) + [(last.0, SectionText(text, last))]
  }

  /** `extract_sections(text)`: each name keeps its initial empty value unless its
      pattern matches, and then holds the stripped first match. */
  method ExtractSections(text: string) returns (sections: seq<(string, Option<string>)>)
    ensures sections == SectionsOf(text, Patterns)
  {
    sections := [("Environmental", None), ("Social", None), ("Governance", None)];
    for k := 0 to |Patterns|
      invariant |sections| == |Patterns|
      invariant forall j :: 0 <= j < |Patterns| ==> sections[j].0 == Patterns[j].0
      invariant forall j :: 0 <= j < k ==> sections[j].1 == SectionText(text, Patterns[j])
      invariant forall j :: k <= j < |Patterns| ==> sections[j].1 == None
    {
      var matches := FirstMatch(text, Patterns[k].0, Patterns[k].1);
      if matches.Some? {
        sections := sections[k := (Patterns[k].0, Some(Strip(matches.value)))];
      }
    }
    SectionsAll(text, Patterns, sections);
  }

  /** A list holding each pattern's name with its section text is `SectionsOf`. */
  lemma {:induction false} SectionsAll(text: string, patterns: seq<(string, string)>,
                                       sections: seq<(string, Option<string>)>)
    requires |sections| == |patterns|
    requires forall j :: 0 <= j < |patterns| ==> sections[j].0 == patterns[j].0
    requires forall j :: 0 <= j < |patterns| ==> sections[j].1 == SectionText(text, patterns[j])
    ensures sections == SectionsOf(text, patterns)
  {
  }

  /** A found section is never empty: it starts with its name, which strip()
      cannot remove, so `if section_text:` skips only the sections not found. */
  lemma {:induction false} FoundSectionNonEmpty(text: string, k: nat)
    requires k < |Patterns|
    ensures SectionText(text, Patterns[k]).Some? ==> |SectionText(text, Patterns[k]).value| > 0
  {
    var name := Patterns[k].0;
    var stop := Patterns[k].1;
    FirstMatchSpec(text, name, stop);
    match FirstMatch(text, name, stop)
    case None =>
    case Some(m) =>
      assert LowerChar(m[0]) == LowerChar(name[0]);
      assert !IsSpace(m[0]);
      assert !AllSpace(m);
      StripSpec(m);
  }

  /** The metadata of a chunk of code/pdf_processor.py. */
  datatype SectionMeta = SectionMeta(section: string, source: string)

  const ReportName := "신한라이프 2023 ESG 보고서"

  /** The chunks `create_chunks` gives for one section, as a function. */
  function SectionChunks(text: string, section: string, size: int): seq<Chunk<SectionMeta>> {
    Emit(Pack(Kept(SplitSentences(text), Strip), size), t => Some(t), SectionMeta(section, ReportName))
  }

  /** `create_chunks(text, section_type, chunk_size)`: one chunk per packed group,
      its sentences joined by single spaces, never empty, with the section and the
      report name as metadata. */
  method CreateChunks(text: string, sectionType: string, chunkSize: int)
    returns (chunks: seq<Chunk<SectionMeta>>)
    ensures chunks == SectionChunks(text, sectionType, chunkSize)
    ensures var gs := Pack(Kept(SplitSentences(text), Strip), chunkSize);
      && |chunks| == |gs|
      && forall k :: 0 <= k < |chunks| ==>
        && chunks[k].text == Join(gs[k], " ") && chunks[k].text != []
        && chunks[k].metadata == SectionMeta(sectionType, ReportName)
  {
    var sentences := SplitSentences(text);
    chunks := PackChunks(sentences, Strip, t => Some(t), SectionMeta(sectionType, ReportName), chunkSize);
    PlainChunks(sentences, Strip, SectionMeta(sectionType, ReportName), chunkSize);
  }

  /** A sentence is dropped exactly when it is whitespace only. */
  lemma {:induction false} KeptStrip(sentences: seq<string>)
    ensures Kept(sentences, Strip) == [] <==> AllBlank(sentences)
  {
    if sentences != [] {
      var n := |sentences| - 1;
      var pre := sentences[..n];
      KeptStrip(pre);
      KeptAppend(sentences, Strip, n);
      assert sentences[..n + 1] == sentences;
      assert Strip(sentences[n]) == [] <==> AllSpace(sentences[n]) by {
        StripSpec(sentences[n]);
      }
      AllBlankSnoc(sentences);
    }
  }

  lemma {:induction false} AllBlankSnoc(pieces: seq<string>)
    requires pieces != []
    ensures AllBlank(pieces) <==> AllBlank(pieces[..|pieces| - 1]) && AllSpace(pieces[|pieces| - 1])
  {
    var pre := pieces[..|pieces| - 1];
    assert forall k :: 0 <= k < |pre| ==> pre[k] == pieces[k];
  }

  /** A text holding nothing but whitespace gives no chunk; every other text gives
      at least one. */
  lemma {:induction false} SectionChunksEmpty(text: string, section: string, size: int)
    ensures SectionChunks(text, section, size) == [] <==> AllSpace(text)
  {
    var sentences := SplitSentences(text);
    PlainChunks(sentences, Strip, SectionMeta(section, ReportName), size);
    KeptStrip(sentences);
    SplitSentencesAllSpace(text);
  }

  /** Every piece is whitespace only. */
  predicate AllBlank(pieces: seq<string>) {
    forall k :: 0 <= k < |pieces| ==> AllSpace(pieces[k])
  }

  /** The sentence pieces are all whitespace exactly when the text is. */
  lemma {:induction false} SplitSentencesAllSpace(text: string)
    ensures AllBlank(SplitSentences(text)) <==> AllSpace(text)
  {
    var p := SplitSentences(text);
    match BreakFrom(text, 1)
    case None =>
      assert p == [text];
      if AllSpace(text) {
        assert AllBlank(p);
      } else {
        assert !AllSpace(p[0]);
        assert !AllBlank(p);
      }
    case Some(i) =>
      assert p[0] == text[..i];
      assert !IsSpace(p[0][i - 1]);
      assert !IsSpace(text[i - 1]);
  }

  /** The concatenation of all pages, `text += page.extract_text()`. */
  function Concat(pages: seq<string>): string {
    if pages == [] then [] else Concat(pages[..|pages| - 1]) + pages[|pages| - 1]
  }

  const PerformanceName := "ESG Performance"
  const NextSection := "다음 섹션"

  /** The chunks of the found sections, in dictionary order. */
  function PerformanceChunks(sections: seq<(string, Option<string>)>): seq<Chunk<SectionMeta>> {
    if sections == [] then []
    else
      var last := sections[|sections| - 1];
      PerformanceChunks(sections[..|sections| - 1]) + SectionPart(last)
  }

  /** What one `(name, text)` entry contributes: nothing when its text is absent
      or empty, otherwise the chunks of the text with the default size 1000. */
  function SectionPart(s: (string, Option<string>)): seq<Chunk<SectionMeta>> {
    if s.1.Some? && |s.1.value| > 0 then SectionChunks(s.1.value, s.0, 1000) else []
  }

  /** The body of the section loop for one entry. */
  method ChunkSection(s: (string, Option<string>)) returns (found: seq<Chunk<SectionMeta>>)
    ensures found == SectionPart(s)
  {
    found := [];
    if s.1.Some? && |s.1.value| > 0 {
      found := CreateChunks(s.1.value, s.0, 1000);
    }
  }

  /** The loop over the sections of `extract_esg_performance`: the chunks of each
      section with text, in order, with the default size 1000. */
  method ChunkSections(sections: seq<(string, Option<string>)>) returns (all: seq<Chunk<SectionMeta>>)
    ensures all == PerformanceChunks(sections)
  {
    all := [];
    for k := 0 to |sections|
      invariant all == PerformanceChunks(sections[..k])
    {
      PerformanceChunksSnoc(sections, k);
      var chunks := ChunkSection(sections[k]);
      all := all + chunks;
    }
    assert sections[..|sections|] == sections;
  }

  /** `extract_esg_performance` after the pages are read: `None` when the text has
      no "ESG Performance"; otherwise the chunks of the sections of the first
      match. */
  method ExtractEsgPerformance(pages: seq<string>) returns (r: Option<seq<Chunk<SectionMeta>>>)
    ensures r.None? <==> forall j :: !MatchesAt(Concat(pages), j, PerformanceName)
    ensures r.Some? ==> (FirstMatch(Concat(pages), PerformanceName, NextSection).Some?
      && r.value == PerformanceChunks(SectionsOf(FirstMatch(Concat(pages), PerformanceName, NextSection).value, Patterns)))
  {
    var text := "";
    for i := 0 to |pages|
      invariant text == Concat(pages[..i])
    {
      assert pages[..i + 1][..i] == pages[..i];
      text := text + pages[i];
    }
    assert pages[..|pages|] == pages;
    FirstMatchSpec(text, PerformanceName, NextSection);
    var matches := FirstMatch(text, PerformanceName, NextSection);
    if matches.None? {
      return None;
    }
    var sections := ExtractSections(matches.value);
    var all := ChunkSections(sections);
    r := Some(all);
  }

  /** A section that is absent contributes no chunk, and a present one contributes
      the chunks of its stripped text. */
  lemma {:induction false} PerformanceChunksSnoc(sections: seq<(string, Option<string>)>, k: nat)
    requires k < |sections|
    ensures PerformanceChunks(sections[..k + 1]) == PerformanceChunks(sections[..k]) + SectionPart(sections[k])
  {
    var pre := sections[..k + 1];
    assert pre[..|pre| - 1] == sections[..k];
  }
}
