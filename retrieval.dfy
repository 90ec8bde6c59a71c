/**
 * The retrieval and answer side of code/rag_chatbot.py. `get_relevant_context`
 * searches the vector store with the filters' `where` clause and falls back to
 * an unfiltered search when that finds nothing or fails. It re-ranks what it
 * found, collects the metadata of the kept documents into four sets and lays
 * every document out as a context entry. `generate_response` lists the sets
 * and asks the chat model, answering with a fixed apology when the call fails.
 *
 * The vector store, the cross-encoder and the chat model are parameters: the
 * store is the answer to each query call, the scorer gives a document's
 * normalised relevance and the chat model's reply is a `Result`.
 */
module Retrieval {
  import opened Outcomes
  import opened Text
  import Queries
  import Rerank

  /** A document's metadata dictionary, with every value as it is printed. */
  type Meta = map<string, string>

  /** The lists one query returns (`results['documents'][0]` and
      `results['metadatas'][0]`). */
  datatype Results = Results(documents: seq<string>, metadatas: seq<Meta>)

  /** The vector store: what its `i`-th query call returns when issued with the
      given `where` clause (`None` for no clause); `Err` when the call raises. */
  type Store = (nat, Option<Queries.Where>) -> Result<Results>

  // ---------------------------------------------------------------- first stage

  /** The outcome of the search, with the `where` clause of each call issued. */
  datatype Searched = Searched(outcome: Result<Results>, issued: seq<Option<Queries.Where>>)

  /** The first stage: a filtered call; an unfiltered retry when it finds no
      document; and, when either call raises, an unfiltered call from the
      handler that is not itself guarded. */
  function Search(where: Option<Queries.Where>, store: Store): (s: Searched)
    ensures 1 <= |s.issued| <= 3 && s.issued[0] == where
    ensures forall i :: 1 <= i < |s.issued| ==> s.issued[i].None?
    ensures s.outcome == store(|s.issued| - 1, s.issued[|s.issued| - 1])
    ensures |s.issued| == 1 <==> store(0, where).Ok? && |store(0, where).value.documents| > 0
    ensures |s.issued| == 3 <==>
      store(0, where).Ok? && |store(0, where).value.documents| == 0 && store(1, None).Err?
    ensures s.outcome.Err? ==> |s.issued| >= 2
  {
    match store(0, where)
    case Err(_) => Searched(store(1, None), [where, None])
    case Ok(first) =>
      if |first.documents| > 0 then Searched(Ok(first), [where])
      else
        match store(1, None)
        case Ok(second) => Searched(Ok(second), [where, None])
        case Err(_) => Searched(store(2, None), [where, None, None])
  }

  // ---------------------------------------------------------------- context

  /** The normalised cross-encoder score of each document for the question. */
  function Scores(documents: seq<string>, score: string -> real): (r: seq<real>)
    ensures |r| == |documents| && forall i :: 0 <= i < |r| ==> r[i] == score(documents[i])
  {
    seq(|documents|, i requires 0 <= i < |documents| => score(documents[i]))
  }

  /** The keys the loop reads with `metadata[key]`, which raise `KeyError` when
      absent. */
  predicate Complete(m: Meta) {
    "section" in m && "sub_section" in m && "source" in m
  }

  predicate AllComplete(top: seq<Rerank.Scored<Meta>>) {
    forall i :: 0 <= i < |top| ==> Complete(top[i].meta)
  }

  /** `metadata.get('page_range', '알 수 없음')`. */
  function PageOf(m: Meta): (r: string)
    ensures "page_range" in m ==> r == m["page_range"]
    ensures "page_range" !in m ==> r == "알 수 없음"
  {
    if "page_range" in m then m["page_range"] else "알 수 없음"
  }

  /** One context entry; `show` is the `{score:.4f}` rendering of a score. Every
      line after the first is indented by twenty spaces. */
  function Entry(x: Rerank.Scored<Meta>, show: real -> string): (r: string)
    requires Complete(x.meta)
    ensures |r| > 3 && r[0] == '\n' && EndsWith(r, "---")
    ensures Contains(r, x.doc) && Contains(r, x.meta["source"]) && Contains(r, show(x.score))
    ensures Contains(r, x.meta["section"]) && Contains(r, x.meta["sub_section"]) && Contains(r, PageOf(x.meta))
    ensures Contains(r, Rerank.RelevanceLabel(x.score))
  {
    var m := x.meta;
    var pad := "                    ";
    var head := "\n" + pad + "출처: ";
    var a := ("\n" + pad + "섹션: ") + m["section"]
      + ("\n" + pad + "서브섹션: ") + m["sub_section"]
      + ("\n" + pad + "페이지: ") + PageOf(m)
      + ("\n" + pad + "관련도: ");
    var b := " (" + Rerank.RelevanceLabel(x.score) + (")" + "\n" + pad + "내용: ");
    var tail := "\n" + pad + "---";
    EntryFields(x.meta, pad);
    ContainsAt(Rerank.RelevanceLabel(x.score), Rerank.RelevanceLabel(x.score), 0);
    ContainsMiddle(" (", Rerank.RelevanceLabel(x.score), ")" + "\n" + pad + "내용: ", Rerank.RelevanceLabel(x.score));
    EntryHas(head, m["source"], a, show(x.score), b, x.doc, tail);
    head + m["source"] + a + show(x.score) + b + x.doc + tail
  }

  /** The metadata lines of an entry hold the section, the sub-section and the page range. */
  lemma {:induction false} EntryFields(m: Meta, pad: string)
    requires Complete(m)
    ensures var a := ("\n" + pad + "섹션: ") + m["section"]
      + ("\n" + pad + "서브섹션: ") + m["sub_section"]
      + ("\n" + pad + "페이지: ") + PageOf(m)
      + ("\n" + pad + "관련도: ");
      Contains(a, m["section"]) && Contains(a, m["sub_section"]) && Contains(a, PageOf(m))
  {
    var s1, s2, s3, s4 := "\n" + pad + "섹션: ", "\n" + pad + "서브섹션: ", "\n" + pad + "페이지: ", "\n" + pad + "관련도: ";
    SevenHas(s1, m["section"], s2, m["sub_section"], s3, PageOf(m), s4, m["section"]);
    SevenHas(s1, m["section"], s2, m["sub_section"], s3, PageOf(m), s4, m["sub_section"]);
    SevenHas(s1, m["section"], s2, m["sub_section"], s3, PageOf(m), s4, PageOf(m));
  }

  /** What occurs in the second, fourth, fifth or sixth of seven pieces occurs in their concatenation. */
  lemma {:induction false} SevenHas(x1: string, x2: string, x3: string, x4: string, x5: string, x6: string, x7: string, p: string)
    requires p == x2 || p == x4 || p == x6 || Contains(x5, p)
    ensures Contains(x1 + x2 + x3 + x4 + x5 + x6 + x7, p)
  {
    if p == x2 {
      ContainsAt(x2, p, 0);
      ContainsLeft(x1, x2, p);
      ContainsRight(x1 + x2, x3, p);
      ContainsRight(x1 + x2 + x3, x4, p);
      ContainsRight(x1 + x2 + x3 + x4, x5, p);
    } else if p == x4 {
      ContainsAt(x4, p, 0);
      ContainsLeft(x1 + x2 + x3, x4, p);
      ContainsRight(x1 + x2 + x3 + x4, x5, p);
    } else if Contains(x5, p) {
      ContainsLeft(x1 + x2 + x3 + x4, x5, p);
    }
    if p != x6 || p == x2 || p == x4 || Contains(x5, p) {
      ContainsRight(x1 + x2 + x3 + x4 + x5, x6, p);
    } else {
      ContainsAt(x6, p, 0);
      ContainsLeft(x1 + x2 + x3 + x4 + x5, x6, p);
    }
    ContainsRight(x1 + x2 + x3 + x4 + x5 + x6, x7, p);
  }

  lemma {:induction false} EntryHas(head: string, src: string, a: string, sc: string, b: string, doc: string, tail: string)
    ensures Contains(head + src + a + sc + b + doc + tail, doc)
    ensures Contains(head + src + a + sc + b + doc + tail, src)
    ensures Contains(head + src + a + sc + b + doc + tail, sc)
    ensures forall p :: Contains(a, p) || Contains(b, p) ==> Contains(head + src + a + sc + b + doc + tail, p)
  {
    SevenHas(head, src, a, sc, b, doc, tail, src);
    SevenHas(head, src, a, sc, b, doc, tail, sc);
    SevenHas(head, src, a, sc, b, doc, tail, doc);
    forall p | Contains(a, p) || Contains(b, p)
      ensures Contains(head + src + a + sc + b + doc + tail, p)
    {
      if Contains(a, p) {
        ContainsRight(head + src + a, sc, p) by { ContainsLeft(head + src, a, p); }
        ContainsRight(head + src + a + sc, b, p);
      } else {
        ContainsLeft(head + src + a + sc, b, p);
      }
      ContainsRight(head + src + a + sc + b, doc, p);
      ContainsRight(head + src + a + sc + b + doc, tail, p);
    }
  }


  /** The texts `f` gives for the items, in order. */
  function Mapped<T>(xs: seq<T>, f: T -> string): (r: seq<string>)
    ensures |r| == |xs|
  {
    if xs == [] then [] else Mapped(xs[..|xs| - 1], f) + [f(xs[|xs| - 1])]
  }

  lemma {:induction false} MappedAt<T>(xs: seq<T>, f: T -> string, i: nat)
    requires i < |xs|
    ensures Mapped(xs, f)[i] == f(xs[i])
    decreases |xs|
  {
    if i < |xs| - 1 {
      MappedAt(xs[..|xs| - 1], f, i);
    }
  }

  lemma {:induction false} MappedSnoc<T>(xs: seq<T>, i: nat, f: T -> string)
    requires i < |xs|
    ensures Mapped(xs[..i + 1], f) == Mapped(xs[..i], f) + [f(xs[i])]
  {
    assert xs[..i + 1][..i] == xs[..i];
  }

  /** `Entry` for a document with the keys, and nothing for one without. */
  function EntryOf(show: real -> string): Rerank.Scored<Meta> -> string {
    (x: Rerank.Scored<Meta>) => if Complete(x.meta) then Entry(x, show) else ""
  }

  /** The entries in re-rank order. */
  function Contexts(top: seq<Rerank.Scored<Meta>>, show: real -> string): (r: seq<string>)
    ensures |r| == |top|
  {
    Mapped(top, EntryOf(show))
  }

  /** The four sets of `metadata_summary`. */
  datatype Summary = Summary(sections: set<string>, subsections: set<string>,
                             sources: set<string>, pageRanges: set<string>)

  /** `metadata[key]`, for a dictionary that has the key. */
  function Get(key: string): Meta -> string {
    m => if key in m then m[key] else ""
  }

  /** The set of the values `field` takes over the documents, added one by one. */
  function Values(top: seq<Rerank.Scored<Meta>>, field: Meta -> string): set<string> {
    if top == [] then {} else Values(top[..|top| - 1], field) + {field(top[|top| - 1].meta)}
  }

  lemma {:induction false} ValuesSpec(top: seq<Rerank.Scored<Meta>>, field: Meta -> string)
    ensures forall x :: x in Values(top, field) <==> exists i :: 0 <= i < |top| && field(top[i].meta) == x
  {
    if top != [] {
      var n := |top| - 1;
      var pre := top[..n];
      assert forall i :: 0 <= i < n ==> pre[i] == top[i];
      ValuesSpec(pre, field);
    }
  }

  lemma {:induction false} ValuesSnoc(top: seq<Rerank.Scored<Meta>>, i: nat, field: Meta -> string)
    requires i < |top|
    ensures Values(top[..i + 1], field) == Values(top[..i], field) + {field(top[i].meta)}
  {
    assert top[..i + 1][..i] == top[..i];
  }

  function Summarize(top: seq<Rerank.Scored<Meta>>): Summary {
    Summary(Values(top, Get("section")), Values(top, Get("sub_section")),
            Values(top, Get("source")), Values(top, PageOf))
  }

  /** Each set is exactly the values of its field over the kept documents, with
      '알 수 없음' for a document without a page range. */
  lemma {:induction false} SummarizeSpec(top: seq<Rerank.Scored<Meta>>)
    requires AllComplete(top)
    ensures forall x :: x in Summarize(top).sections <==>
      exists i :: 0 <= i < |top| && top[i].meta["section"] == x
    ensures forall x :: x in Summarize(top).subsections <==>
      exists i :: 0 <= i < |top| && top[i].meta["sub_section"] == x
    ensures forall x :: x in Summarize(top).sources <==>
      exists i :: 0 <= i < |top| && top[i].meta["source"] == x
    ensures forall x :: x in Summarize(top).pageRanges <==>
      exists i :: 0 <= i < |top| && PageOf(top[i].meta) == x
  {
    ValuesSpec(top, Get("section"));
    ValuesSpec(top, Get("sub_section"));
    ValuesSpec(top, Get("source"));
    ValuesSpec(top, PageOf);
    assert forall i :: 0 <= i < |top| ==> Get("section")(top[i].meta) == top[i].meta["section"];
    assert forall i :: 0 <= i < |top| ==> Get("sub_section")(top[i].meta) == top[i].meta["sub_section"];
    assert forall i :: 0 <= i < |top| ==> Get("source")(top[i].meta) == top[i].meta["source"];
  }

  /** The pair the loop builds from the re-ranked documents: `KeyError` when a
      kept document lacks one of the keys it reads. */
  function Answer(top: seq<Rerank.Scored<Meta>>, show: real -> string): Result<(string, Option<Summary>)> {
    if AllComplete(top) then Ok((Join(Contexts(top, show), "\n"), Some(Summarize(top))))
    else Err(KeyError)
  }

  /** `get_relevant_context` with the question fixed: `store` answers its calls,
      `score` scores a document for it, `finalK` is `final_k`. `None` stands for
      the empty dictionary returned when nothing was found. */
  function RelevantContext(filters: Option<seq<(string, string)>>, store: Store, score: string -> real,
                           show: real -> string, finalK: int): Result<(string, Option<Summary>)>
  {
    match Search(Queries.WhereOf(filters), store).outcome
    case Err(e) => Err(e)
    case Ok(res) =>
      if |res.documents| == 0 then Ok(("", None))
      else Answer(Rerank.Reranked(res.documents, res.metadatas, Scores(res.documents, score), finalK), show)
  }

  /** The re-ranked documents of a successful search. */
  function Kept(res: Results, score: string -> real, finalK: int): seq<Rerank.Scored<Meta>> {
    Rerank.Reranked(res.documents, res.metadatas, Scores(res.documents, score), finalK)
  }

  /** Nothing found gives `("", {})`; an exception of the last store call
      escapes; otherwise the context and the summary come from the re-ranked
      documents, or `KeyError` when one lacks a key. */
  lemma {:induction false} RelevantContextCases(filters: Option<seq<(string, string)>>, store: Store,
                                                score: string -> real, show: real -> string, finalK: int)
    ensures var out := Search(Queries.WhereOf(filters), store).outcome;
      var r := RelevantContext(filters, store, score, show, finalK);
      && (out.Err? ==> r == Err(out.error))
      && (out.Ok? && |out.value.documents| == 0 ==> r == Ok(("", None)))
      && (out.Ok? && |out.value.documents| > 0 ==>
           (r.Ok? <==> AllComplete(Kept(out.value, score, finalK)))
           && (r.Ok? ==> r.value.1 == Some(Summarize(Kept(out.value, score, finalK)))))
      && (r.Ok? && r.value.1.None? ==> r.value.0 == "")
  {
  }

  /** Each context entry ends in `---`, stands in re-rank order and holds its
      document and source. The entries are joined with newlines. */
  lemma {:induction false} ContextsSpec(top: seq<Rerank.Scored<Meta>>, show: real -> string)
    requires AllComplete(top)
    ensures var cs := Contexts(top, show);
      forall i :: 0 <= i < |cs| ==>
        && cs[i] == Entry(top[i], show)
        && EndsWith(cs[i], "---")
        && Contains(cs[i], top[i].doc)
        && Contains(cs[i], top[i].meta["source"])
    ensures var cs := Contexts(top, show);
      forall i :: 0 <= i < |cs| ==> Contains(Join(cs, "\n"), cs[i])
  {
    var cs := Contexts(top, show);
    forall i | 0 <= i < |cs|
      ensures cs[i] == Entry(top[i], show) && Contains(Join(cs, "\n"), cs[i])
    {
      MappedAt(top, EntryOf(show), i);
      JoinHas(cs, "\n", i);
    }
  }

  /** Each set of the summary holds exactly the values of its field over the
      kept documents. */
  ghost predicate Describes(summary: Summary, top: seq<Rerank.Scored<Meta>>)
    requires AllComplete(top)
  {
    && (forall x :: x in summary.sections <==> exists i :: 0 <= i < |top| && top[i].meta["section"] == x)
    && (forall x :: x in summary.subsections <==> exists i :: 0 <= i < |top| && top[i].meta["sub_section"] == x)
    && (forall x :: x in summary.sources <==> exists i :: 0 <= i < |top| && top[i].meta["source"] == x)
    && (forall x :: x in summary.pageRanges <==> exists i :: 0 <= i < |top| && PageOf(top[i].meta) == x)
  }

  /** The summary sets hold exactly the metadata of the kept documents. */
  lemma {:induction false} RelevantSummary(filters: Option<seq<(string, string)>>, store: Store,
                                           score: string -> real, show: real -> string, finalK: int,
                                           summary: Summary)
    requires RelevantContext(filters, store, score, show, finalK).Ok?
    requires RelevantContext(filters, store, score, show, finalK).value.1 == Some(summary)
    ensures var res := Search(Queries.WhereOf(filters), store).outcome;
      res.Ok? && |res.value.documents| > 0 && AllComplete(Kept(res.value, score, finalK))
    ensures Describes(summary, Kept(Search(Queries.WhereOf(filters), store).outcome.value, score, finalK))
  {
    RelevantContextCases(filters, store, score, show, finalK);
    var res := Search(Queries.WhereOf(filters), store).outcome;
    SummarizeSpec(Kept(res.value, score, finalK));
  }

  /** The first stage as the source writes it, with its `try`. */
  method QueryStore(whereClause: Option<Queries.Where>, store: Store) returns (results: Result<Results>)
    ensures results == Search(whereClause, store).outcome
  {
    results := store(0, whereClause);
    if results.Ok? && |results.value.documents| == 0 {
      results := store(1, None);
      if results.Err? {
        results := store(2, None);
      }
    } else if results.Err? {
      results := store(1, None);
    }
  }

  /** `get_relevant_context(query, collection, initial_k, final_k, metadata_filters)`. */
  method GetRelevantContext(filters: Option<seq<(string, string)>>, store: Store, score: string -> real,
                            show: real -> string, finalK: int)
    returns (r: Result<(string, Option<Summary>)>)
    ensures r == RelevantContext(filters, store, score, show, finalK)
  {
    var whereClause := Queries.BuildWhereClause(filters);
    var results := QueryStore(whereClause, store);
    if results.Err? {
      return Err(results.error);
    }
    var res := results.value;
    if |res.documents| == 0 {
      return Ok(("", None));
    }
    var docs, metas, scores := Rerank.RerankDocuments(res.documents, res.metadatas, Scores(res.documents, score), finalK);
    ghost var top := Kept(res, score, finalK);
    var sections, subsections, sources, pageRanges := {}, {}, {}, {};
    var contexts: seq<string> := [];
    for i := 0 to |docs|
      invariant AllComplete(top[..i])
      invariant sections == Values(top[..i], Get("section"))
      invariant subsections == Values(top[..i], Get("sub_section"))
      invariant sources == Values(top[..i], Get("source"))
      invariant pageRanges == Values(top[..i], PageOf)
      invariant contexts == Contexts(top[..i], show)
    {
      var metadata := metas[i];
      assert top[i] == Rerank.Scored(docs[i], metadata, scores[i]);
      if !Complete(metadata) {
        NotAllComplete(top, i);
        return Err(KeyError);
      }
      var x := Rerank.Scored(docs[i], metadata, scores[i]);
      MappedSnoc(top, i, EntryOf(show));
      CompleteSnoc(top, i);
      ValuesSnoc(top, i, Get("section"));
      ValuesSnoc(top, i, Get("sub_section"));
      ValuesSnoc(top, i, Get("source"));
      ValuesSnoc(top, i, PageOf);
      sections := sections + {metadata["section"]};
      subsections := subsections + {metadata["sub_section"]};
      sources := sources + {metadata["source"]};
      pageRanges := pageRanges + {PageOf(metadata)};
      contexts := contexts + [Entry(x, show)];
    }
    assert top[..|docs|] == top;
    r := Ok((Join(contexts, "\n"), Some(Summary(sections, subsections, sources, pageRanges))));
  }

  lemma {:induction false} CompleteSnoc(top: seq<Rerank.Scored<Meta>>, i: nat)
    requires i < |top| && AllComplete(top[..i]) && Complete(top[i].meta)
    ensures AllComplete(top[..i + 1])
  {
    assert forall j :: 0 <= j < i ==> top[..i + 1][j] == top[..i][j];
  }

  lemma {:induction false} NotAllComplete(top: seq<Rerank.Scored<Meta>>, i: nat)
    requires i < |top| && !Complete(top[i].meta)
    ensures !AllComplete(top)
  {
  }

  // ---------------------------------------------------------------- answer

  /** The order in which Python iterates over a set of strings, which the
      language leaves unspecified. */
  type Listing = set<string> -> seq<string>

  /** The order lists each member of the set once and nothing else. */
  predicate Lists(order: Listing, s: set<string>) {
    && |order(s)| == |s|
    && (forall x :: x in order(s) ==> x in s)
    && (forall x :: x in s ==> x in order(s))
  }

  const Apology := "죄송합니다. 응답을 생성하는 중에 오류가 발생했습니다."

  /** The chat model, called with the prompt built from `metadata_info` and the
      context and with the question; `Err` when the call raises. */
  type Chat = (string, string, string) -> Result<string>

  /** One line of `metadata_info`: a heading and the set joined with ", ". */
  function InfoLine(heading: string, values: seq<string>): string {
    "\n    - " + heading + ": " + Join(values, ", ")
  }

  /** The `metadata_info` text: each set on its own line. */
  function MetadataInfo(s: Summary, order: Listing): (r: string)
    ensures |r| > 0 && r[0] == '\n'
  {
    "\n    참고한 문서 정보:" + InfoLine("섹션", order(s.sections))
      + InfoLine("서브섹션", order(s.subsections))
      + InfoLine("출처", order(s.sources))
      + InfoLine("페이지", order(s.pageRanges))
      + "\n    "
  }

  lemma {:induction false} InfoLineHas(heading: string, values: seq<string>, x: string)
    requires x in values
    ensures Contains(InfoLine(heading, values), x)
  {
    var k :| 0 <= k < |values| && values[k] == x;
    JoinHas(values, ", ", k);
    ContainsMiddle("\n    - " + heading + ": ", Join(values, ", "), [], x);
    assert InfoLine(heading, values) == "\n    - " + heading + ": " + Join(values, ", ") + [];
  }

  /** Every section, sub-section, source and page range of the summary is named
      in `metadata_info`. */
  lemma {:induction false} MetadataInfoNames(s: Summary, order: Listing)
    requires Lists(order, s.sections) && Lists(order, s.subsections)
    requires Lists(order, s.sources) && Lists(order, s.pageRanges)
    ensures forall x :: x in s.sections ==> Contains(MetadataInfo(s, order), x)
    ensures forall x :: x in s.subsections ==> Contains(MetadataInfo(s, order), x)
    ensures forall x :: x in s.sources ==> Contains(MetadataInfo(s, order), x)
    ensures forall x :: x in s.pageRanges ==> Contains(MetadataInfo(s, order), x)
  {
    var h := "\n    참고한 문서 정보:";
    var l1, l2 := InfoLine("섹션", order(s.sections)), InfoLine("서브섹션", order(s.subsections));
    var l3, l4 := InfoLine("출처", order(s.sources)), InfoLine("페이지", order(s.pageRanges));
    var e := "\n    ";
    assert MetadataInfo(s, order) == h + l1 + l2 + l3 + l4 + e;
    forall x | x in s.sections ensures Contains(MetadataInfo(s, order), x) {
      InfoLineHas("섹션", order(s.sections), x);
      InfoHas(h, l1, l2, l3, l4, e, x);
    }
    forall x | x in s.subsections ensures Contains(MetadataInfo(s, order), x) {
      InfoLineHas("서브섹션", order(s.subsections), x);
      InfoHas(h, l1, l2, l3, l4, e, x);
    }
    forall x | x in s.sources ensures Contains(MetadataInfo(s, order), x) {
      InfoLineHas("출처", order(s.sources), x);
      InfoHas(h, l1, l2, l3, l4, e, x);
    }
    forall x | x in s.pageRanges ensures Contains(MetadataInfo(s, order), x) {
      InfoLineHas("페이지", order(s.pageRanges), x);
      InfoHas(h, l1, l2, l3, l4, e, x);
    }
  }

  lemma {:induction false} InfoHas(h: string, l1: string, l2: string, l3: string, l4: string, e: string, x: string)
    ensures Contains(l1, x) || Contains(l2, x) || Contains(l3, x) || Contains(l4, x) ==>
      Contains(h + l1 + l2 + l3 + l4 + e, x)
  {
    if Contains(l1, x) {
      ContainsLeft(h, l1, x);
      ContainsRight(h + l1, l2, x);
      ContainsRight(h + l1 + l2, l3, x);
    } else if Contains(l2, x) {
      ContainsLeft(h + l1, l2, x);
      ContainsRight(h + l1 + l2, l3, x);
    } else if Contains(l3, x) {
      ContainsLeft(h + l1 + l2, l3, x);
    }
    if Contains(h + l1 + l2 + l3, x) {
      ContainsRight(h + l1 + l2 + l3, l4, x);
    } else if Contains(l4, x) {
      ContainsLeft(h + l1 + l2 + l3, l4, x);
    }
    if Contains(h + l1 + l2 + l3 + l4, x) {
      ContainsRight(h + l1 + l2 + l3 + l4, e, x);
    }
  }

  /** An empty summary gives the four headings with nothing after them. */
  lemma {:induction false} MetadataInfoEmpty(order: Listing)
    requires Lists(order, {})
    ensures MetadataInfo(Summary({}, {}, {}, {}), order)
      == "\n    참고한 문서 정보:" + "\n    - 섹션: " + "\n    - 서브섹션: " + "\n    - 출처: " + "\n    - 페이지: " + "\n    "
  {
    assert |order({})| == 0;
    assert Join(order({}), ", ") == [];
    var s := Summary({}, {}, {}, {});
    assert InfoLine("섹션", order(s.sections)) == "\n    - 섹션: ";
    assert InfoLine("서브섹션", order(s.subsections)) == "\n    - 서브섹션: ";
    assert InfoLine("출처", order(s.sources)) == "\n    - 출처: ";
    assert InfoLine("페이지", order(s.pageRanges)) == "\n    - 페이지: ";
  }

  /** `generate_response(query, context, metadata_summary)` as written: the
      summary's sets are read outside the `try`, so the empty dictionary
      (`None`) raises `KeyError`. */
  function GenerateResponseAsWritten(query: string, context: string, summary: Option<Summary>,
                                     order: Listing, chat: Chat): Result<(string, string)>
  {
    match summary
    case None => Err(KeyError)
    case Some(s) =>
      var info := MetadataInfo(s, order);
      match chat(info, context, query)
      case Ok(content) => Ok((content, info))
      case Err(_) => Ok((Apology, info))
  }

  /** A search that finds nothing makes the pipeline raise: the context step
      answers `("", {})` and the answer step then fails on it. */
  lemma {:induction false} NothingFoundRaises(query: string, filters: Option<seq<(string, string)>>, store: Store,
                                              score: string -> real, show: real -> string, finalK: int,
                                              order: Listing, chat: Chat)
    requires Search(Queries.WhereOf(filters), store).outcome.Ok?
    requires |Search(Queries.WhereOf(filters), store).outcome.value.documents| == 0
    ensures var r := RelevantContext(filters, store, score, show, finalK);
      r.Ok? && GenerateResponseAsWritten(query, r.value.0, r.value.1, order, chat) == Err(KeyError)
  {
  }

  /** The summary to list: the empty dictionary stands for four empty sets. */
  function SummaryOrEmpty(summary: Option<Summary>): (s: Summary)
    ensures summary.Some? ==> s == summary.value
    ensures summary.None? ==> s.sections == s.subsections == s.sources == s.pageRanges == {}
  {
    match summary
    case Some(s) => s
    case None => Summary({}, {}, {}, {})
  }

  /** `generate_response` reading a missing summary as empty: the reply, or the
      apology when the chat call fails, with `metadata_info`. */
  function GenerateResponse(query: string, context: string, summary: Option<Summary>,
                            order: Listing, chat: Chat): (r: (string, string))
    ensures r.1 == MetadataInfo(SummaryOrEmpty(summary), order)
    ensures chat(r.1, context, query).Err? ==> r.0 == Apology
    ensures chat(r.1, context, query).Ok? ==> r.0 == chat(r.1, context, query).value
  {
    var info := MetadataInfo(SummaryOrEmpty(summary), order);
    match chat(info, context, query)
    case Ok(content) => (content, info)
    case Err(_) => (Apology, info)
  }

  /** The corrected answer agrees with the code wherever the code answers, and
      `metadata_info` never depends on the chat model. */
  lemma {:induction false} GenerateResponseAgrees(query: string, context: string, summary: Option<Summary>,
                                                  order: Listing, chat: Chat, other: Chat)
    ensures summary.Some? ==>
      GenerateResponseAsWritten(query, context, summary, order, chat) == Ok(GenerateResponse(query, context, summary, order, chat))
    ensures GenerateResponse(query, context, summary, order, chat).1 == GenerateResponse(query, context, summary, order, other).1
  {
  }

  /** With the correction a search that finds nothing still gets an answer, whose
      `metadata_info` lists nothing. */
  lemma {:induction false} NothingFoundAnswers(query: string, filters: Option<seq<(string, string)>>, store: Store,
                                               score: string -> real, show: real -> string, finalK: int,
                                               order: Listing, chat: Chat)
    requires Search(Queries.WhereOf(filters), store).outcome.Ok?
    requires |Search(Queries.WhereOf(filters), store).outcome.value.documents| == 0
    requires Lists(order, {})
    ensures var r := RelevantContext(filters, store, score, show, finalK);
      r.Ok? && GenerateResponse(query, r.value.0, r.value.1, order, chat).1
        == "\n    참고한 문서 정보:" + "\n    - 섹션: " + "\n    - 서브섹션: " + "\n    - 출처: " + "\n    - 페이지: " + "\n    "
  {
    MetadataInfoEmpty(order);
  }

  /** `generate_response` with the empty dictionary read as empty sets. */
  method GenerateResponseCall(query: string, context: string, summary: Option<Summary>,
                              order: Listing, chat: Chat) returns (response: string, metadataInfo: string)
    ensures (response, metadataInfo) == GenerateResponse(query, context, summary, order, chat)
  {
    metadataInfo := MetadataInfo(SummaryOrEmpty(summary), order);
    var result := chat(metadataInfo, context, query);
    if result.Ok? {
      response := result.value;
    } else {
      response := Apology;
    }
  }
}
