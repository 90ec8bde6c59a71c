# ESG chatbot: verified model of the retrieval and preprocessing core

This project is a Dafny model of the deterministic logic of an ESG
(environmental, social and governance) report chatbot. It covers two parts:

- **The retrieval side.** A question is expanded when it is short, keyword
  filters are extracted, and the `where` clause is built. The vector store is
  searched with an unfiltered fallback. The documents found are re-ranked by a
  stable descending sort and cut to `top_k`. Then the context text and the
  metadata summary are assembled, and the answer is produced with a fixed
  apology on failure.
- **The preprocessing scripts.** They turn PDF and PowerPoint reports into
  chunks with metadata. That covers:
  - the greedy sentence packer (one model for its six copies);
  - text cleaning;
  - the page-to-section tables and configuration parser;
  - the grouping of slides by section;
  - the colour-based table-of-contents heading detection;
  - the structured-element dictionaries;
  - the small text serialisers.

The vector store, the cross-encoder, the chat model, python-pptx, PyMuPDF and
the file system are not modelled as code. They are parameters: a store
answering each query call, a score per document, a chat reply that may be an
error, slides and pages given as records, and files given as their lines or as
the text written.

Modules, one per source concern:

| module | source |
|---|---|
| `Outcomes` | `Option`/`Result` and the Python exceptions that escape |
| `Text` | Python string built-ins (`strip`, `split`, `join`, `in`, `find`, `splitlines`, `int`, `str`, `upper`/`lower` on ASCII) |
| `Queries` | `expand_query`, `extract_metadata_filters`, the `where` clause (code/rag_chatbot.py) |
| `Rerank` | `get_relevance_label`, `rerank_documents` |
| `Retrieval` | `get_relevant_context`, `generate_response` |
| `Normalize` | `preprocess_text` (code/ppt_processor.py, code/shinhan_ppt_processor.py) |
| `Packing` | the greedy sentence packer shared by the six `create_chunks*` copies |
| `SectionConfig` | `get_section_and_subsection` of code/ppt_processor.py (config text) |
| `PptProcessor` | `extract_slide_text` and `process_ppt` of code/ppt_processor.py |
| `ShinhanSections` | the page table of code/shinhan_ppt_processor.py |
| `ShinhanPpt` | `create_chunks` and `process_ppt` of code/shinhan_ppt_processor.py |
| `CjFreshway` | code/cj_freshway_preprocess.py |
| `PdfSections` | code/pdf_processor.py |
| `Paragraphs` | the paragraph filter and splitter of code/pdf_preprocess.py |
| `JsonText` | code/json_to_text.py |
| `TocColors` | colour unpacking and heading choice (temp/code/pdf_toc_color_extract.py, the two `extract_page_sub_sections`) |
| `PdfPages` | temp/code/pdf_processor_vision.py and temp/code/pdf_processor_base.py |
| `PptBase` | temp/code/ppt_processor_base.py |
| `PptxElements` | temp/code/pptx_structured_elements.py and the shared element code of temp/code/pptx_chunks_with_structure.py |
| `PptxChunks` | temp/code/pptx_chunks_with_structure.py |
| `PptxExtractor` | temp/code/pptx_structured_extractor.py |

## Model

| member | source | states |
|---|---|---|
| Queries.ExpandQuery | code/rag_chatbot.py:26-63 | A question longer than `min_length` comes back unchanged. A failing model call also gives back the question (fail-open). Otherwise the result is the stripped model answer. |
| Queries.ExpandQueryLong | code/rag_chatbot.py:28-29 | For a question longer than `min_length`, the result does not depend on the model's reply: the model is not consulted. |
| Queries.FirstMatchSpec | code/rag_chatbot.py:77-80 | The table loop with `break` picks the first entry that has a keyword occurring in the lower-cased question. It picks nothing exactly when no entry has one. |
| Queries.FirstMatching | code/rag_chatbot.py:77-80 | The loop with `break` computes that first match. |
| Queries.ExtractMetadataFilters | code/rag_chatbot.py:65-95 | The method builds the filter dictionary, as its items in insertion order, of the lower-cased question. |
| Queries.FiltersKeys | code/rag_chatbot.py:65-95 | There are at most two filters, with only the keys `section` and `source`, in that order. Each is present exactly when a keyword of its table occurs, and its value is that table's first match. |
| Queries.FiltersCarbon | code/rag_chatbot.py:65-95 | "탄소배출량?" gives exactly `{"section": "Environment"}`. |
| Queries.BuildWhereClause | code/rag_chatbot.py:140-158 | The condition loop builds the `where` clause of the filters. |
| Queries.WhereSelects | code/rag_chatbot.py:140-165 | No clause for absent or empty filters. Otherwise the clause selects a document exactly when its metadata agrees with every filter. |
| Queries.WhereShape | code/rag_chatbot.py:150-156 | One filter gives its `$eq` condition unwrapped. Two or more give `$and` over the conditions, in filter order. |
| Rerank.RelevanceLabel | code/rag_chatbot.py:97-106 | Each of the four labels holds exactly on its band: above 0.9, (0.7, 0.9], (0.5, 0.7], at most 0.5. A score on a threshold gets the lower label. |
| Rerank.LabelMonotone | code/rag_chatbot.py:97-106 | A higher score never gets a lower label. |
| Rerank.Zip3 | code/rag_chatbot.py:122 | `zip` stops at the shortest list, and the `i`-th triple holds the `i`-th document, metadata and score. |
| Rerank.SortDescDescending | code/rag_chatbot.py:123 | The sorted list has non-increasing scores. |
| Rerank.SortDescPermutes | code/rag_chatbot.py:123 | The sorted list is a permutation of the triples. |
| Rerank.SortDescStable | code/rag_chatbot.py:123 | Triples of equal score keep their input order (`list.sort` is stable). |
| Rerank.InsertAfterEqual | code/rag_chatbot.py:123 | One insertion step of the sort: the triple goes after every triple scoring at least as much. |
| Rerank.SortByScore | code/rag_chatbot.py:123 | The in-place sort leaves the stable descending order. |
| Rerank.SliceStop | code/rag_chatbot.py:130 | `[:top_k]` keeps `min(top_k, n)` items for a non-negative `top_k`, and never more than `n`. |
| Rerank.RerankDocuments | code/rag_chatbot.py:108-135 | The three returned lists have the same length. Position `i` of each comes from the `i`-th re-ranked triple, so every document stays with its own metadata and score. |
| Rerank.RerankedSpec | code/rag_chatbot.py:122-135 | There are `min(top_k, n)` results (for `top_k >= 0`). They are in non-increasing score order, and each is one of the input triples. |
| Rerank.RerankedBest | code/rag_chatbot.py:122-135 | No document left out scores higher than a document kept. |
| Retrieval.Search | code/rag_chatbot.py:160-181 | The search issues one to three store calls. The first uses the `where` clause and the later ones none. The outcome is the last call's answer. The retry happens exactly when the first call finds nothing or fails. A third call happens exactly when the filtered call finds nothing and the unfiltered retry fails. An error escapes only from an unfiltered call. |
| Retrieval.QueryStore | code/rag_chatbot.py:139-181 | The `try`/`except` code gives the outcome of that search. |
| Retrieval.Scores | code/rag_chatbot.py:111-119 | Each document gets its own normalised score, in document order. |
| Retrieval.PageOf | code/rag_chatbot.py:208 | `metadata.get('page_range', '알 수 없음')`. |
| Retrieval.Entry | code/rag_chatbot.py:214-221 | A context entry starts with a newline and ends in `---`. It contains the document, its source, section, sub-section and page range, the rendered score and its relevance label. |
| Retrieval.ContextsSpec | code/rag_chatbot.py:202-224 | The entries follow re-rank order, one per kept document. Each ends in `---`, holds its document and source, and occurs in the newline-joined context. |
| Retrieval.ValuesSpec | code/rag_chatbot.py:195-208 | A set filled by `.add` over the documents holds exactly the values added. |
| Retrieval.SummarizeSpec | code/rag_chatbot.py:195-208 | Each summary set is exactly the set of its field's values over the kept documents, with '알 수 없음' for a missing page range. |
| Retrieval.RelevantContextCases | code/rag_chatbot.py:137-224 | The outcomes: an error of the last store call escapes; nothing found gives `("", {})`; otherwise the context and summary come from the re-ranked documents, or `KeyError` when one lacks `section`, `sub_section` or `source`. Only a search that found nothing gives the empty summary. |
| Retrieval.RelevantSummary | code/rag_chatbot.py:183-224 | A returned summary comes from a non-empty search. Each of its four sets (sections, sub-sections, sources, page ranges) holds exactly that field of the re-ranked documents. |
| Retrieval.GetRelevantContext | code/rag_chatbot.py:137-224 | The method, with its loops over conditions and documents, returns exactly the modelled pair or error. |
| Retrieval.MetadataInfoNames | code/rag_chatbot.py:229-235 | When each set is listed once in some order, every section, sub-section, source and page range of the summary appears in `metadata_info`. |
| Retrieval.MetadataInfoEmpty | code/rag_chatbot.py:229-235 | An empty summary gives the four headings with nothing after them. |
| Retrieval.NothingFoundRaises | code/rag_chatbot.py:192 | As written, a search that finds nothing makes the context step return `("", {})`, and `generate_response` then raises `KeyError` on it. |
| Retrieval.GenerateResponse | code/rag_chatbot.py:226-271 | Corrected answer step. The second component is always `metadata_info`. The first is the chat reply, or the fixed apology when the call fails. |
| Retrieval.GenerateResponseAgrees | code/rag_chatbot.py:226-271 | The corrected step agrees with the written one whenever the written one answers. `metadata_info` does not depend on the chat model. |
| Retrieval.NothingFoundAnswers | code/rag_chatbot.py:226-271 | With the correction, a search that finds nothing still gets an answer, whose `metadata_info` lists nothing. |
| Retrieval.GenerateResponseCall | code/rag_chatbot.py:226-271 | The method computes the corrected answer step. |
| CjFreshway.PartPages | code/cj_freshway_preprocess.py:13-18 | A malformed part (a number that does not parse, or not exactly two ends around `-`) raises `ValueError`. |
| CjFreshway.RangePart | code/cj_freshway_preprocess.py:14-16 | `"a-b"` stands for the pages `a..b` inclusive, and for no page when `a > b`. |
| CjFreshway.BarePart | code/cj_freshway_preprocess.py:17-18 | A bare number stands for that one page. A blank part adds nothing. |
| CjFreshway.UnionOfErr | code/cj_freshway_preprocess.py:12-18 | Parsing fails exactly when some comma-separated part is malformed. |
| CjFreshway.UnionOfMembers | code/cj_freshway_preprocess.py:11-18 | After a successful parse, a page is in the set exactly when some part names it. |
| CjFreshway.AddRange | code/cj_freshway_preprocess.py:16 | `pages.update(range(start, end+1))` adds exactly the pages of the inclusive range. |
| CjFreshway.SortedPages | code/cj_freshway_preprocess.py:19 | `sorted(pages)` is strictly increasing and holds exactly the set's pages. |
| CjFreshway.ParsePageRanges | code/cj_freshway_preprocess.py:7-19 | The loop fails (with `ValueError`) exactly when the string is malformed. Otherwise it returns, increasing, exactly the pages the parts name. |
| CjFreshway.Assign | code/cj_freshway_preprocess.py:32-36 | Every listed page maps to the line's category, and other pages keep their entry. |
| CjFreshway.AssignPages | code/cj_freshway_preprocess.py:32-36 | The per-page loop performs that assignment. |
| CjFreshway.GetCategoryMetadata | code/cj_freshway_preprocess.py:21-37 | The line loop computes the category map of the file's lines, or the error of the first bad line. |
| CjFreshway.LaterLineWins | code/cj_freshway_preprocess.py:28-36 | Blank and `#` lines are skipped. A page is mapped exactly when some entry line names it, and the last line naming it wins. |
| CjFreshway.MalformedLine | code/cj_freshway_preprocess.py:31 | An entry line without exactly two `\|` makes the whole parse fail, where Python's unpacking raises `ValueError`. |
| CjFreshway.CleanText | code/cj_freshway_preprocess.py:39-45 | The cleaned text has no surrounding whitespace and no newline. |
| CjFreshway.CleanTextSpec | code/cj_freshway_preprocess.py:44-45 | A character other than whitespace is in the cleaned text exactly when it is in the line. Every whitespace character left is a single space, and no two are adjacent. The result is empty exactly when the line is blank. |
| CjFreshway.CleanedSpec | code/cj_freshway_preprocess.py:62-65 | The kept lines are the cleaned forms of exactly those lines whose cleaned form is not empty, each once, in line order. |
| CjFreshway.CollectLines | code/cj_freshway_preprocess.py:59-65 | The shape loop collects the cleaned, non-empty lines of every text shape, in order. |
| CjFreshway.FirstDigits | code/cj_freshway_preprocess.py:66-74 | The page line is the first all-digit line, and there is none only when no line is all digits. |
| CjFreshway.ExtractPageNumber | code/cj_freshway_preprocess.py:66-77 | The PDF page is the first all-digit line's value, and that one line is dropped from the content. Without such a line the slide number is used and every line is kept. |
| CjFreshway.Categories | code/cj_freshway_preprocess.py:78-88 | `[cat] if cat else []`: one category exactly when the slide's number has an entry in the map. |
| CjFreshway.ExtractTextFromPptx | code/cj_freshway_preprocess.py:47-92 | There is one record per slide, in slide order, and record `i` is built from slide `i` alone. |
| CjFreshway.SlideRecordShape | code/cj_freshway_preprocess.py:57-91 | The record's slide number and metadata agree, and both use `idx + 1`. The PDF page is stated twice, consistently. The categories are empty exactly without a map entry. The content is the kept lines joined by newlines. |
| CjFreshway.SaveTextToTxt | code/cj_freshway_preprocess.py:102-111 | The text written is the concatenation of the slide blocks. |
| CjFreshway.TxtDumpAppend | code/cj_freshway_preprocess.py:106-110 | The dump of two slide lists is the dump of the first followed by that of the second. |
| CjFreshway.OneSlide | code/cj_freshway_preprocess.py:108-110 | A slide's block is its `--- Slide n (PDF Page p) ---` header, its content and a blank line. |
| TocColors.RgbFromInt | temp/code/pdf_toc_color_extract.py:9-13 | Each channel is a byte. |
| TocColors.RgbRoundTrip | temp/code/pdf_toc_color_extract.py:9-13 | For a 24-bit colour, the three bytes recombine to the colour. |
| TocColors.IntFromRgb | temp/code/pdf_processor_vision.py:19-23 | Unpacking a packed triple of bytes gives the triple back. |
| TocColors.GrayIff | temp/code/pdf_processor_vision.py:25-26 | A colour is gray or black exactly when its channel spread is below 10; equal channels are a case of that. |
| TocColors.CollectCandidates | temp/code/pdf_processor_vision.py:34-44 | The nested block/line/span loops collect the candidates in reading order. |
| TocColors.CandidatesSpec | temp/code/pdf_processor_vision.py:38-44 | The candidates come from exactly the spans with non-blank text and `x1 <= toc_x_max`, one each, in span order. Each holds the span's stripped text and unpacked colour. |
| TocColors.CandidatesNone | temp/code/pdf_processor_vision.py:34-44 | There are no candidates exactly when no span qualifies. |
| TocColors.ColoredSpec | temp/code/pdf_processor_vision.py:45 | The comprehension keeps exactly the candidates that are not grey or black, each once, in order. |
| TocColors.CountColors | temp/code/pdf_processor_vision.py:46-48 | The counting loop builds the colour tally. |
| TocColors.TallySpec | temp/code/pdf_processor_vision.py:46-48 | The tally has each colour once, in order of first occurrence, each with its number of occurrences. |
| TocColors.ArgMax | temp/code/pdf_processor_vision.py:50 | `max(..., key=...)` gives a largest count, the first one among ties. |
| TocColors.MainTextsSpec | temp/code/pdf_toc_color_extract.py:36-45 | No texts exactly when nothing is coloured. Otherwise the texts are exactly those of a most frequent colour, in order. |
| TocColors.ColoredToc | temp/code/pdf_toc_color_extract.py:19-45 | The page loop computes those texts for a page. |
| TocColors.VisionSubSectionSpec | temp/code/pdf_processor_vision.py:45-54 | A page has no sub-section exactly when nothing is coloured. Otherwise it gets the first text in a most frequent colour. |
| TocColors.BaseSubSectionSpec | temp/code/pdf_processor_base.py:14-24 | A page has no sub-section exactly when no span qualifies. Otherwise it gets the first qualifying span's stripped text. |
| Normalize.BlankLines | code/ppt_processor.py:93 | `\n\s*\n` becomes one newline, scanning from the left: a non-empty text keeps its first character. |
| Normalize.BlankLinesChars | code/ppt_processor.py:93 | The substitution makes nothing new appear and loses no visible character. |
| Normalize.BlankLinesInvisible | code/ppt_processor.py:93-96 | Once the next step collapses whitespace, the blank-line step makes no difference. |
| Normalize.KeepAllowed | code/ppt_processor.py:99 | Exactly the word characters, whitespace and the listed punctuation survive. |
| Normalize.CollapseRun | code/ppt_processor.py:102-104 | A run of one punctuation mark becomes one mark. The characters present are unchanged, and no doubled mark is left. |
| Normalize.CollapseRunKeepsNoDouble | code/ppt_processor.py:102-104 | Collapsing one mark does not undo the collapsing of another. |
| Normalize.NoDoubleContains | code/ppt_processor.py:102-104 | "No doubled mark" means the text does not contain the mark twice in a row. |
| Normalize.Cleaned | code/ppt_processor.py:93-104 | After the substitutions, the text has no newline and no `..`, `!!` or `??`. |
| Normalize.CleanedChars | code/ppt_processor.py:93-104 | A visible character survives exactly when it is in the text and allowed. |
| Normalize.StripNoDouble | code/ppt_processor.py:107 | `strip()` keeps the text free of doubled marks. |
| Normalize.PreprocessShape | code/ppt_processor.py:90-113 | A returned text is non-empty and stripped, with no newline and no `..`, `!!` or `??`. |
| Normalize.PreprocessSomeIff | code/ppt_processor.py:90-113 | `None` is returned exactly when the text holds no visible allowed character. |
| Packing.BreakFrom | code/shinhan_ppt_processor.py:113 | The next split point is a whitespace character right after `.`, `!` or `?`, and no earlier one exists. |
| Packing.SplitSentencesShape | code/shinhan_ppt_processor.py:113 | Every piece but the last ends in a terminal mark, and no piece has a split point left inside. |
| Packing.KeptSpec | code/shinhan_ppt_processor.py:118-122 | The kept sentences are the cleaned forms of exactly those sentences that do not clean to nothing, each once, in sentence order. |
| Packing.PackSpec | code/shinhan_ppt_processor.py:114-146 | The chunks hold exactly the kept sentences, in order. No chunk is empty. A chunk exceeds `chunk_size` only when it is a single sentence. A chunk was closed only because the next sentence would not fit. |
| Packing.PackEmpty | code/shinhan_ppt_processor.py:114-146 | No chunk comes out exactly when no sentence is kept. |
| Packing.Emit | code/shinhan_ppt_processor.py:126-160 | Every chunk carries the script's metadata. |
| Packing.PlainChunks | code/pdf_processor.py:33-81 | Without the second cleaning, there is one chunk per group, its text the group joined by spaces and never empty. There are no chunks exactly when no sentence is kept. |
| Packing.PackChunks | code/shinhan_ppt_processor.py:110-162 | The sentence loop computes the chunks of the packed groups. |
| SectionConfig.ParseLine | code/ppt_processor.py:73 | A line without exactly one `:` raises `ValueError`. |
| SectionConfig.RangeLine | code/ppt_processor.py:76-81 | `a-b:Name` names the pages `a` to `b` inclusive. |
| SectionConfig.BareLine | code/ppt_processor.py:82-86 | `n:Name` names page `n` alone. |
| SectionConfig.FirstLineWins | code/ppt_processor.py:69-86 | Within a block, the first non-blank line naming the page decides (the `break`). |
| SectionConfig.LastBlockWins | code/ppt_processor.py:61-86 | Across blocks, a later block that names the page overrides an earlier one. A malformed line in any block raises. |
| SectionConfig.BracketedHeader | code/ppt_processor.py:67 | `strip('[]')` turns `[Name]` into `Name`. |
| SectionConfig.GetSectionAndSubsection | code/ppt_processor.py:11-88 | The method computes the lookup. A missing file gives `('Other', 'Other')`. |
| PptProcessor.ExtractSlideText | code/ppt_processor.py:115-128 | The shape loop computes the slide text. |
| PptProcessor.SlideTextIff | code/ppt_processor.py:115-128 | A slide has text exactly when one of its text shapes survives cleaning on its own. |
| PptProcessor.SlideTextShape | code/ppt_processor.py:115-128 | A slide text is non-empty and stripped, on one line, with no doubled `.`, `!` or `?`. |
| PptProcessor.CollectGroups | code/ppt_processor.py:149-165 | The slide loop builds the groups, or raises the configuration's error. |
| PptProcessor.AddToGroup | code/ppt_processor.py:159-165 | A text goes to its key's group, which is created at the end when the key is new. |
| PptProcessor.FindGroup | code/ppt_processor.py:160 | A group of the key is found exactly when the dictionary has that key. |
| PptProcessor.CollectErr | code/ppt_processor.py:149-165 | Grouping fails exactly when some page's configuration lookup raises. |
| PptProcessor.CollectSpec | code/ppt_processor.py:144-165 | Each key appears once. Each group lists its pages strictly increasing, one text per page, and groups are in order of first page. A listed page has that text and that key. Every page with text is listed. |
| PptProcessor.PageRangeEnds | code/ppt_processor.py:186 | For increasing pages, `min-max` is the first page, a dash and the last page, so a one-page group gives `p-p`. |
| PptProcessor.GroupChunksSpec | code/ppt_processor.py:170-200 | A group gives one chunk per splitter piece of its texts joined by newlines. Chunk `i` has index `i`, the piece count, the group's keys, its page range and the upper-cased stem. |
| PptProcessor.AllChunksFrom | code/ppt_processor.py:167-204 | Every chunk's index is below its total, and its section, subsection and page range are those of one group. |
| PptProcessor.ChunkGroup | code/ppt_processor.py:182-200 | The chunk loop for one group computes that group's chunks. |
| PptProcessor.ProcessPpt | code/ppt_processor.py:130-204 | The method returns the chunks of all groups in order and the stem, or the configuration's error. |
| ShinhanSections.TableWellFormed | code/shinhan_ppt_processor.py:10-68 | The three section bands are disjoint. The subsection bands inside each section are disjoint and lie within it. |
| ShinhanSections.ChainIsTable | code/shinhan_ppt_processor.py:10-68 | The `if`/`elif` chain agrees, for every page, with the band-table lookup. |
| ShinhanSections.SectionBands | code/shinhan_ppt_processor.py:13-66 | The section is Environmental exactly for pages 1-13, Social for 14-52, Governance for 53-69, and Other elsewhere. |
| ShinhanSections.UncoveredPages | code/shinhan_ppt_processor.py:25-66 | Pages 1, 14 and 53 and pages outside 1-69 get their section name as subsection. Page 52 is the supply-chain subsection. |
| ShinhanPpt.CreateChunks | code/shinhan_ppt_processor.py:110-162 | The sentence loop computes the page's chunks. |
| ShinhanPpt.PageChunksSpec | code/shinhan_ppt_processor.py:110-162 | There is one chunk per packed group, and its text is the group, joined by spaces, cleaned again. There are no chunks exactly when no sentence survives cleaning. |
| ShinhanPpt.PageChunksShape | code/shinhan_ppt_processor.py:110-162 | Every chunk carries the page's section, subsection, report name and page number. Its text is cleaned: non-empty, stripped, on one line, with no doubled marks. |
| ShinhanPpt.SlideTextChunked | code/shinhan_ppt_processor.py:226-231 | A slide with text always yields at least one chunk. |
| ShinhanPpt.ProcessPpt | code/shinhan_ppt_processor.py:210-234 | The slide loop returns every slide's chunks in slide order. |
| ShinhanPpt.SlideChunksMeta | code/shinhan_ppt_processor.py:219-231 | A slide's chunks come only from a slide with text, and carry its page's configured section and subsection. |
| ShinhanPpt.DeckPlaced | code/shinhan_ppt_processor.py:210-234 | Every chunk names an existing page that has text, that page's section and subsection, and the report. |
| ShinhanPpt.DeckOrdered | code/shinhan_ppt_processor.py:219-231 | Chunks come in non-decreasing page order. |
| ShinhanPpt.DeckCovers | code/shinhan_ppt_processor.py:219-231 | Every slide with text is represented by a chunk of its page. |
| PdfSections.FindFrom | code/pdf_processor.py:27 | The search gives the first position at or after `from` where the name occurs, ignoring case, or none when there is none. |
| PdfSections.SectionEnd | code/pdf_processor.py:21-23 | The lazy `.*?(?=Stop\|$)` stops at the first position where the stop word occurs or `$` holds. |
| PdfSections.FirstMatchSpec | code/pdf_processor.py:21-29 | A pattern fails to match exactly when its name never occurs. A match starts with the name and holds no stop word after it. |
| PdfSections.SectionsOf | code/pdf_processor.py:26-29 | The dictionary lists the three names in order, each with its stripped first match or its initial empty value. |
| PdfSections.ExtractSections | code/pdf_processor.py:9-31 | The pattern loop builds that dictionary. |
| PdfSections.FoundSectionNonEmpty | code/pdf_processor.py:28-29 | A section that matches is never empty after `strip()`, since it starts with its name. |
| PdfSections.CreateChunks | code/pdf_processor.py:33-81 | There is one chunk per packed group, with the group joined by spaces as its text (never empty) and the section and report name as its metadata. |
| PdfSections.SectionChunksEmpty | code/pdf_processor.py:33-81 | A section gives no chunks exactly when its text is all whitespace. |
| PdfSections.ChunkSections | code/pdf_processor.py:108-112 | The loop chunks each section with text, in dictionary order, with the default size 1000. |
| PdfSections.ExtractEsgPerformance | code/pdf_processor.py:83-114 | `None` exactly when the joined pages never mention "ESG Performance". Otherwise the result is the chunks of the sections of the first match. |
| Paragraphs.KeptParagraphsMember | code/pdf_preprocess.py:99 | A paragraph is kept exactly when it is the stripped form of some `\n\n` piece and longer than 10 characters. |
| Paragraphs.KeptParagraphsTidy | code/pdf_preprocess.py:99 | Kept paragraphs are non-empty and stripped. |
| Paragraphs.SplitParagraphs | code/pdf_preprocess.py:101-122 | The paragraph loop computes the pieces: a long paragraph is re-packed, a short one is kept. |
| Paragraphs.RepackInto | code/pdf_preprocess.py:107-120 | The sentence loop of one long paragraph appends its re-packed pieces. |
| Paragraphs.RepackBound | code/pdf_preprocess.py:107-120 | A re-packed piece is at most 1000 characters, unless it is one sentence unit on its own. |
| Paragraphs.LongParagraph | code/pdf_preprocess.py:103-120 | A long paragraph's pieces are stripped and, joined by spaces, give back its sentence units joined by spaces. Only the text after the last sentence end is dropped. |
| Paragraphs.NoBoundary | code/pdf_preprocess.py:106-108 | A paragraph over 1000 characters with no sentence boundary disappears: the `range` over the split is empty. |
| Paragraphs.SplitLongEmpty | code/pdf_preprocess.py:103-120 | A paragraph gives no pieces exactly when it is over 1000 characters and has no sentence unit. |
| Paragraphs.Longest | code/pdf_preprocess.py:135 | `max(len(p) ...)` is the length of some piece and is at least the length of every piece. |
| Paragraphs.Shortest | code/pdf_preprocess.py:136 | `min(len(p) ...)` is the length of some piece and at most every piece's. |
| Paragraphs.SaveTextToFile | code/pdf_preprocess.py:90-136 | With no pieces, the average raises `ZeroDivisionError`. Otherwise the written text is the pieces joined by blank lines, and the statistics are its length, the piece count, their ratio, and the longest and shortest piece. |
| Paragraphs.SaveFails | code/pdf_preprocess.py:99-134 | The save raises exactly when every kept paragraph is over 1000 characters without a sentence unit. |
| JsonText.ConvertJsonToText | code/json_to_text.py:4-42 | The page loop writes the rendering of the pages. |
| JsonText.WritePage | code/json_to_text.py:20-40 | A page writes its header, its category lines, `Content:`, its non-blank stripped lines and the rule, in that order. |
| JsonText.WriteCategories | code/json_to_text.py:25-27 | Each category writes its main and its sub category line. |
| JsonText.WriteContent | code/json_to_text.py:34-37 | Only non-blank lines are written, stripped. |
| JsonText.PageLinesNoBreak | code/json_to_text.py:20-40 | For single-line fields, every line a page writes is free of newlines. |
| JsonText.RenderSplit | code/json_to_text.py:19-40 | Splitting the file at newlines gives back exactly the written lines, followed by the empty remainder. |
| PdfPages.PageSubSection | temp/code/pdf_processor_vision.py:34-54 | The span loops compute the page's heading under the script's rule. |
| PdfPages.ExtractPageSubSections | temp/code/pdf_processor_vision.py:28-55 | The page loop computes the heading dictionary, or the `IndexError` of `doc[page_num]`. |
| PdfPages.SubSectionsSpec | temp/code/pdf_processor_vision.py:28-55 | The lookup fails, with `IndexError`, exactly when some index is past the last page. Otherwise the dictionary's keys are exactly the indices, and each maps to its page's heading. |
| PdfPages.AllPageIndices | temp/code/pdf_processor_vision.py:263 | The heading indices are 74 pages, the largest being 99. |
| PdfPages.AllPageIndicesCover | temp/code/pdf_processor_vision.py:256-263 | Every page of the three section ranges is among the heading indices. |
| PdfPages.AllPageIndicesWithin | temp/code/pdf_processor_vision.py:256-263 | Every heading index lies in one of the three section ranges. |
| PdfPages.SelectedSpec | temp/code/pdf_processor_vision.py:272-277 | A range contributes exactly its existing pages with non-empty text, in increasing order. |
| PdfPages.EntriesStructured | temp/code/pdf_processor_vision.py:279-280 | A page entry carries structured data exactly in the vision script. |
| PdfPages.CollectSection | temp/code/pdf_processor_vision.py:273-280 | The page loop of one section range collects its page entries. |
| PdfPages.CreateChunksWithSubsection | temp/code/pdf_processor_vision.py:57-94 | There is one chunk per packed group, never empty, carrying the section, the page's heading and the report name. |
| PdfPages.WithStructureSpec | temp/code/pdf_processor_vision.py:233-244 | Attaching structured data keeps each chunk's text and adds the data to its metadata, only when there is data. |
| PdfPages.CreateChunksWithStructure | temp/code/pdf_processor_vision.py:233-244 | The method computes those chunks. |
| PdfPages.ChunkEntries | temp/code/pdf_processor_vision.py:283-288 | The chunk loop gives the chunks of each entry with visible text, in order. |
| PdfPages.ChunkSectionTexts | temp/code/pdf_processor_vision.py:272-290 | Once every range page has a heading, the section loops produce the chunks of the three ranges in order. |
| PdfPages.ExtractEsgPerformance | temp/code/pdf_processor_vision.py:246-290 | As written, a report of fewer than 100 pages raises `IndexError`. Otherwise the result is the chunks of the three ranges. |
| PdfPages.AsWrittenKnown | temp/code/pdf_processor_vision.py:263-264 | A successful heading lookup implies at least 100 pages, and it gives every range page its heading. |
| PdfPages.ExtractEsgPerformanceFixed | temp/code/pdf_processor_vision.py:263-264 | The corrected version of this heading lookup (and of temp/code/pdf_processor_base.py:77-78): with the indices limited to existing pages, every report yields the chunks of the three ranges, with no error. |
| PdfPages.FixedKnown | temp/code/pdf_processor_base.py:77-78 | That limited lookup always succeeds and gives every range page its heading. |
| PdfPages.PageYieldsChunks | temp/code/pdf_processor_vision.py:272-290 | A page of a range with visible text makes the result non-empty. |
| PdfPages.PerformanceMeta | temp/code/pdf_processor_vision.py:282-290 | Every chunk names the report, and carries structured data exactly in the vision script. |
| PdfPages.ChunkIdsDistinct | temp/code/pdf_processor_vision.py:313 | `chunk_{i}` identifiers of different positions differ. |
| PdfPages.StoreInChroma | temp/code/pdf_processor_vision.py:292-319 | The three lists have the chunk count. Entry `i` holds chunk `i`'s text, its metadata with the structured data serialised, and `chunk_{i}`. The identifiers are distinct. |
| PptBase.FirstTitle | temp/code/ppt_processor_base.py:11 | `slide.shapes.title` is the first title placeholder, and there is none only when no shape is a title. |
| PptBase.ExtractSlideContent | temp/code/ppt_processor_base.py:6-20 | The shape loop computes the slide content. |
| PptBase.OtherTextsSpec | temp/code/ppt_processor_base.py:15-18 | After the title come exactly the non-empty texts of the other shapes, in shape order. |
| PptBase.ContentTitleFirst | temp/code/ppt_processor_base.py:10-12 | A slide with a title starts its content with the title text. |
| PptBase.ContentSplit | temp/code/ppt_processor_base.py:20 | For single-line texts, splitting the content at newlines gives back the listed texts. |
| PptBase.SubSectionSpec | temp/code/ppt_processor_base.py:92 | The sub-section is the title text, or `Slide n` with `n` the one-based slide number. |
| PptBase.ChunkSlide | temp/code/ppt_processor_base.py:88-95 | A slide with visible content gives the packed chunks of its content under its sub-section, and otherwise none. |
| PptBase.ChunkRange | temp/code/ppt_processor_base.py:84-95 | The slide loop of a range chunks its existing slides in order. |
| PptBase.ExtractEsgPerformanceBase | temp/code/ppt_processor_base.py:66-97 | The result is the chunks of the three ranges in order. Slides past the end are skipped, so nothing is raised. |
| PptBase.SlideYieldsChunks | temp/code/ppt_processor_base.py:83-95 | A slide of a range with visible content makes the result non-empty. |
| PptBase.DeckMeta | temp/code/ppt_processor_base.py:83-97 | Every chunk has a sub-section, names the report, carries no structured data and has the section of one of the three page ranges. |
| PptxElements.ToDictSpec | temp/code/pptx_structured_elements.py:16-27 | The dictionary has `type`, `content`, `bbox` and `children` (children converted recursively), then `color`, `bold`, `size` and `fill_color` in that order. `bold` is present when it is not `None`, the others when truthy. Each key holds its field. |
| PptxElements.BBox | temp/code/pptx_structured_elements.py:31 | The box starts at the shape's left and top, and spans its width and height. |
| PptxElements.ExtractStructuredElements | temp/code/pptx_structured_elements.py:64-81 | The shape loop computes the slide's elements. |
| PptxElements.ElementsSpec | temp/code/pptx_structured_elements.py:64-81 | There is one element per shape with non-blank text, in shape order. Each holds the stripped text (never empty), no children, and the class its font and fill give. |
| PptxElements.ElementsEmpty | temp/code/pptx_structured_elements.py:64-81 | A slide has no elements exactly when no shape has non-blank text. |
| PptxElements.CollectEntries | temp/code/pptx_structured_elements.py:92-99 | The slide loop of one range collects its entries. |
| PptxElements.EntriesSpec | temp/code/pptx_structured_elements.py:91-99 | A range lists each existing slide once, in order, with its one-based number and its element dictionaries. |
| PptxElements.EntriesPast | temp/code/pptx_structured_elements.py:93 | A range that starts past the deck lists nothing. |
| PptxElements.ExtractPptxStructuredMetaBySection | temp/code/pptx_structured_elements.py:83-100 | The section loop builds the per-section lists. |
| PptxElements.MetaBySectionSpec | temp/code/pptx_structured_elements.py:85-100 | The result always has the three sections in order, whatever the deck. Each lists as many entries as it has existing slides. |
| PptxChunks.CreateChunks | temp/code/pptx_chunks_with_structure.py:83-120 | There is one chunk per packed group, never empty. Each carries the section, the slide number, the report name and the slide's element dictionaries. |
| PptxChunks.StructChunksEmpty | temp/code/pptx_chunks_with_structure.py:83-120 | No chunks come out exactly when the text is all whitespace. |
| PptxChunks.JoinSlideText | temp/code/pptx_chunks_with_structure.py:135-139 | The shape loop computes the joined slide text. |
| PptxChunks.JoinedTextContents | temp/code/pptx_chunks_with_structure.py:135-141 | The joined text is the elements' contents joined by newlines. |
| PptxChunks.JoinedTextBlank | temp/code/pptx_chunks_with_structure.py:139-142 | The joined text is blank exactly when the slide has no elements. |
| PptxChunks.ChunkSlide | temp/code/pptx_chunks_with_structure.py:133-144 | The method computes one slide's chunks. |
| PptxChunks.ChunkRange | temp/code/pptx_chunks_with_structure.py:131-144 | The slide loop of a range chunks its existing slides in order. |
| PptxChunks.ExtractPptxChunksBySectionWithStructure | temp/code/pptx_chunks_with_structure.py:122-145 | The result is the chunks of the three ranges in order. |
| PptxChunks.SlideChunkedIff | temp/code/pptx_chunks_with_structure.py:139-144 | A slide yields chunks exactly when it has elements. |
| PptxChunks.StructDeckMeta | temp/code/pptx_chunks_with_structure.py:122-145 | Every chunk names an existing slide and the section whose range holds it. It is non-empty, names the report, and carries exactly its own slide's element dictionaries. |
| PptxChunks.SlideWithElementsChunked | temp/code/pptx_chunks_with_structure.py:130-144 | A range slide with elements makes the result non-empty. |
| PptxExtractor.BuildEntry | temp/code/pptx_structured_extractor.py:64-76 | The method builds the entry dictionary of a shape's information. |
| PptxExtractor.ExtractSlideStructured | temp/code/pptx_structured_extractor.py:58-78 | The shape loop computes the slide's entries. |
| PptxExtractor.StructuredMatchesElements | temp/code/pptx_structured_extractor.py:58-78 | The entries are the elements of `extract_structured_elements`, with `text` for `content` and without `bbox` and `children`: same shapes, same class and same optional keys. |
| PptxExtractor.EntryOptionalAsDict | temp/code/pptx_structured_extractor.py:65-76 | An entry's optional keys are exactly those of the element dictionary. |
| PptxExtractor.SlideStructuredEmpty | temp/code/pptx_structured_extractor.py:58-78 | A slide has no entries exactly when no shape has non-blank text. |
| PptxExtractor.ExtractPptxStructured | temp/code/pptx_structured_extractor.py:80-90 | The slide loop computes the records. |
| PptxExtractor.RecordsSpec | temp/code/pptx_structured_extractor.py:80-90 | The records list, in increasing slide order, exactly the slides with entries, each once with its one-based number and its entries. |

## Left out
- The OpenAI chat calls of `expand_query` and `generate_response` are a `Chat` parameter returning a reply or an error; the prompt wording is not modelled, only that the chat receives `metadata_info`, the context and the query.
- The Chroma collection is a `Store` parameter that answers a `where` clause with documents and metadata or an error; `initial_k`, `n_results`, embeddings and the client setup are left to it.
- The cross-encoder and the torch sigmoid are left out: the score of each document is a given function to `real`, and `{score:.4f}` formatting is a `show` parameter.
- Python set iteration order (the `', '.join` of the summary sets) is unspecified, so it is a `Listing` parameter that lists each set once in some order.
- `list.sort` is modelled as a stable insertion sort; only its stability and descending order are relied upon, not its algorithm.
- The metadata of retrieved documents is a map from strings to strings, so non-string values from the store are not distinguished.
- Chunk metadata dictionaries are records with one field per key the code sets; their serialisation into Chroma's metadata format is not modelled.
- python-pptx, fitz, PyPDF2 and pdfminer objects are plain records (slides, shapes with optional font and fill fields, spans with a colour and an `x1`); a failing font or fill lookup inside a `try` is an absent field.
- File names and stems are given as inputs; directory walking, file reads and writes, `json.dump` and every `main` function are left out.
- Paragraphs.SaveTextToFile: the statistics of code/pdf_preprocess.py:131-136 are returned in a `Report` rather than printed. The `:.1f` rounding of the average is not modelled: the average is an exact `real`, not a float.
- JsonText.Page: each JSON record is taken to have `slide_number`, `ppt_page_number`, `metadata.categories` with `main_category` and `sub_category` in every category, and `content`. A record missing one of these keys makes code/json_to_text.py:22-31 raise `KeyError`, which the model does not represent.
- LangChain's `RecursiveCharacterTextSplitter` in `process_ppt` is a `Splitter` parameter, because its code is not part of this model.
- `unicodedata.normalize('NFKC')` and the Unicode-class regex pipeline of `clean_text` in code/pdf_preprocess.py are left out; `lower`/`upper` are ASCII-only, whitespace is Python's `str.isspace` set, and `\w` is approximated by ASCII letters, digits, `_` and the Hangul ranges.
- `store_in_chroma` and `save_to_chroma` in code/pdf_processor.py, code/ppt_processor.py and code/shinhan_ppt_processor.py are left out: they only hand chunks to the Chroma client with uuid ids; in temp/code/pdf_processor_vision.py only the ids and metadata that `store_in_chroma` prepares are modelled.
- `PDFStructureExtractor`, `extract_images_from_page` and `extract_structured_data` are represented by the `structuredOf` parameter that gives each page its structured data.
- `group_texts_by_y`, `group_page_26_semantic`, `print_pdf_structure_with_pdfminer` and `print_tables_with_pdfplumber` are debug printers and are left out.
- `extract_colored_toc_for_pages` prints the headings it selects; the model returns them as a list instead.
- code/vectorize.py, code/chatbot.py and the Streamlit pages are thin wrappers around LangChain, OpenAI and the UI, and are not part of this model.
- CjFreshway.CleanText: the `unicodedata.normalize('NFKC', text)` step of `clean_text` (code/cj_freshway_preprocess.py:43) is left out, because Unicode normalisation tables are not modelled; only the whitespace collapse and `strip()` are.
- Text.IsDigits, Text.ParseInt, CjFreshway.FirstDigits and CjFreshway.ExtractPageNumber: a digit is an ASCII `0`-`9`, whereas Python's `str.isdigit()` and `int()` also accept the other Unicode decimal digits. So a line such as `٣` is taken as page 3 and removed from the content by the source but kept by the model, whose page number then stays the slide number.
- Termination of the Python loops is never in question; Dafny's integers are unbounded and none of the modelled arithmetic can overflow in Python either.

## Findings
| source | as written | input that shows it | evidently intended | confidence | as-written member | corrected member |
|---|---|---|---|---|---|---|
| code/rag_chatbot.py:229-235 | `generate_response` reads `metadata_summary['sections']` and the other keys outside its `try`, but `get_relevant_context` returns `("", {})` when the search finds nothing (code/rag_chatbot.py:192), so the lookup raises `KeyError` | a query whose filtered and unfiltered searches both return no documents | an answer with empty document lists, or the apology | not executed | Retrieval.NothingFoundRaises | Retrieval.NothingFoundAnswers |
| temp/code/pdf_processor_vision.py:263-264 | `extract_esg_performance` (and `extract_esg_performance_base`, temp/code/pdf_processor_base.py:77-78) looks up headings for all page indices 24 to 99 before the `page_num < num_pages` check, so `doc[page_num]` raises `IndexError` | any PDF with fewer than 100 pages | headings looked up only for existing pages, then the chunks of the existing section pages | not executed | PdfPages.ExtractEsgPerformance | PdfPages.ExtractEsgPerformanceFixed |
