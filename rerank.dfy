/**
 * The second retrieval stage of code/rag_chatbot.py: every document found gets a
 * relevance score (the cross-encoder's normalised score, given here as data),
 * the documents are sorted by descending score with `list.sort`, which is stable,
 * and the first `top_k` are kept, each with its own metadata and score. Scores
 * are also turned into one of four labels by strict thresholds.
 */
module Rerank {

  // ---------------------------------------------------------------- labels

  const VeryHigh := "매우 높은 관련성 🌟"
  const High := "높은 관련성 ⭐"
  const Medium := "중간 관련성 ✨"
  const Low := "낮은 관련성 ⚪"

  /** `get_relevance_label(score)`: a score exactly on a threshold gets the lower
      label. */
  function RelevanceLabel(score: real): (r: string)
    ensures r == VeryHigh <==> score > 0.9
    ensures r == High <==> 0.7 < score <= 0.9
    ensures r == Medium <==> 0.5 < score <= 0.7
    ensures r == Low <==> score <= 0.5
  {
    if score > 0.9 then VeryHigh
    else if score > 0.7 then High
    else if score > 0.5 then Medium
    else Low
  }

  /** The position of a label from the lowest. */
  function LabelRank(name: string): nat {
    if name == VeryHigh then 3 else if name == High then 2 else if name == Medium then 1 else 0
  }

  /** A higher score never gets a lower label. */
  lemma {:induction false} LabelMonotone(s: real, t: real)
    requires s <= t
    ensures LabelRank(RelevanceLabel(s)) <= LabelRank(RelevanceLabel(t))
  {
    assert VeryHigh != High && VeryHigh != Medium && VeryHigh != Low;
    assert High != Medium && High != Low && Medium != Low;
  }

  // ---------------------------------------------------------------- sorting

  /** A document with its metadata and its score. */
  datatype Scored<M> = Scored(doc: string, meta: M, score: real)

  /** `zip(documents, metadata_list, norm_scores)`: as long as the shortest list. */
  function Zip3<M>(docs: seq<string>, metas: seq<M>, scores: seq<real>): (r: seq<Scored<M>>)
    ensures |r| <= |docs| && |r| <= |metas| && |r| <= |scores|
    ensures |r| == |docs| || |r| == |metas| || |r| == |scores|
    ensures forall i :: 0 <= i < |r| ==> r[i] == Scored(docs[i], metas[i], scores[i])
  {
    var n := if |docs| <= |metas| && |docs| <= |scores| then |docs|
             else if |metas| <= |scores| then |metas| else |scores|;
    seq(n, i requires 0 <= i < n => Scored(docs[i], metas[i], scores[i]))
  }

  /** Placing `x` after every entry whose score is at least its own. */
  function Insert<M>(ys: seq<Scored<M>>, x: Scored<M>): seq<Scored<M>> {
    if ys == [] then [x]
    else if ys[0].score >= x.score then [ys[0]] + Insert(ys[1..], x)
    else [x] + ys
  }

  /** A stable sort by descending score, by insertion. */
  function SortDesc<M>(xs: seq<Scored<M>>): seq<Scored<M>> {
    if xs == [] then [] else Insert(SortDesc(xs[..|xs| - 1]), xs[|xs| - 1])
  }

  predicate Descending<M>(xs: seq<Scored<M>>) {
    forall i, j :: 0 <= i < j < |xs| ==> xs[i].score >= xs[j].score
  }

  /** The entries with score `s`, in order. */
  function WithScore<M>(xs: seq<Scored<M>>, s: real): seq<Scored<M>> {
    if xs == [] then []
    else (if xs[0].score == s then [xs[0]] else []) + WithScore(xs[1..], s)
  }

  lemma {:induction false} WithScoreAppend<M>(a: seq<Scored<M>>, b: seq<Scored<M>>, s: real)
    ensures WithScore(a + b, s) == WithScore(a, s) + WithScore(b, s)
  {
    if a != [] {
      assert (a + b)[1..] == a[1..] + b;
      WithScoreAppend(a[1..], b, s);
    } else {
      assert a + b == b;
    }
  }

  lemma {:induction false} WithScoreNone<M>(ys: seq<Scored<M>>, s: real)
    requires forall i :: 0 <= i < |ys| ==> ys[i].score < s
    ensures WithScore(ys, s) == []
  {
    if ys != [] {
      WithScoreNone(ys[1..], s);
    }
  }

  lemma {:induction false} InsertMultiset<M>(ys: seq<Scored<M>>, x: Scored<M>)
    ensures multiset(Insert(ys, x)) == multiset(ys) + multiset{x}
  {
    if ys != [] && ys[0].score >= x.score {
      InsertMultiset(ys[1..], x);
      assert ys == [ys[0]] + ys[1..];
    }
  }

  /** The entries of `Insert(ys, x)`: those of `ys` and `x`. */
  lemma {:induction false} InsertHas<M>(ys: seq<Scored<M>>, x: Scored<M>)
    ensures |Insert(ys, x)| == |ys| + 1
    ensures forall i :: 0 <= i < |Insert(ys, x)| ==> Insert(ys, x)[i] == x || Insert(ys, x)[i] in ys
  {
    if ys != [] && ys[0].score >= x.score {
      InsertHas(ys[1..], x);
    }
  }

  lemma {:induction false} InsertDescending<M>(ys: seq<Scored<M>>, x: Scored<M>)
    requires Descending(ys)
    ensures Descending(Insert(ys, x))
  {
    if ys != [] && ys[0].score >= x.score {
      InsertDescending(ys[1..], x);
      InsertHas(ys[1..], x);
      var r := Insert(ys, x);
      forall i, j | 0 <= i < j < |r|
        ensures r[i].score >= r[j].score
      {
        if i == 0 {
          var e := Insert(ys[1..], x)[j - 1];
          assert e == r[j];
          if e != x {
            var k :| 0 <= k < |ys[1..]| && ys[1..][k] == e;
            assert ys[k + 1] == e;
          }
        }
      }
    }
  }

  /** Inserting into a descending list puts `x` after the entries of equal score. */
  lemma {:induction false} InsertStable<M>(ys: seq<Scored<M>>, x: Scored<M>, s: real)
    requires Descending(ys)
    ensures WithScore(Insert(ys, x), s) == WithScore(ys, s) + (if x.score == s then [x] else [])
  {
    if ys == [] {
    } else if ys[0].score >= x.score {
      InsertStable(ys[1..], x, s);
      WithScoreCons(ys[0], Insert(ys[1..], x), s);
    } else {
      if x.score == s {
        WithScoreNone(ys, s);
      }
      WithScoreCons(x, ys, s);
    }
  }

  lemma {:induction false} WithScoreCons<M>(y: Scored<M>, ys: seq<Scored<M>>, s: real)
    ensures WithScore([y] + ys, s) == (if y.score == s then [y] else []) + WithScore(ys, s)
  {
    assert ([y] + ys)[1..] == ys;
  }

  /** The sort gives a descending list ... */
  lemma {:induction false} SortDescDescending<M>(xs: seq<Scored<M>>)
    ensures Descending(SortDesc(xs))
  {
    if xs != [] {
      SortDescDescending(xs[..|xs| - 1]);
      InsertDescending(SortDesc(xs[..|xs| - 1]), xs[|xs| - 1]);
    }
  }

  /** ... that is a permutation of its input ... */
  lemma {:induction false} SortDescPermutes<M>(xs: seq<Scored<M>>)
    ensures multiset(SortDesc(xs)) == multiset(xs)
  {
    if xs != [] {
      var n := |xs| - 1;
      var pre := xs[..n];
      SortDescPermutes(pre);
      InsertMultiset(SortDesc(pre), xs[n]);
      assert xs == pre + [xs[n]];
      assert multiset(xs) == multiset(pre) + multiset{xs[n]};
    }
  }

  /** ... in which entries of equal score keep their input order. */
  lemma {:induction false} SortDescStable<M>(xs: seq<Scored<M>>, s: real)
    ensures WithScore(SortDesc(xs), s) == WithScore(xs, s)
  {
    if xs != [] {
      var n := |xs| - 1;
      var pre := xs[..n];
      SortDescStable(pre, s);
      SortDescDescending(pre);
      InsertStable(SortDesc(pre), xs[n], s);
      WithScoreAppend(pre, [xs[n]], s);
      assert xs == pre + [xs[n]];
    }
  }

  /** `doc_score_pairs.sort(key=lambda x: x[2], reverse=True)`. */
  method SortByScore<M>(pairs: seq<Scored<M>>) returns (sorted: seq<Scored<M>>)
    ensures sorted == SortDesc(pairs)
  {
    sorted := [];
    for i := 0 to |pairs|
      invariant sorted == SortDesc(pairs[..i])
    {
      assert pairs[..i + 1][..i] == pairs[..i];
      sorted := InsertAfterEqual(sorted, pairs[i]);
    }
    assert pairs[..|pairs|] == pairs;
  }

  method InsertAfterEqual<M>(ys: seq<Scored<M>>, x: Scored<M>) returns (r: seq<Scored<M>>)
    ensures r == Insert(ys, x)
  {
    var p := 0;
    while p < |ys| && ys[p].score >= x.score
      invariant p <= |ys|
      invariant Insert(ys, x) == ys[..p] + Insert(ys[p..], x)
    {
      InsertPast(ys, x, p);
      p := p + 1;
    }
    assert Insert(ys[p..], x) == [x] + ys[p..];
    r := ys[..p] + [x] + ys[p..];
  }

  /** Moving the insertion point past an entry scoring at least as much as `x`. */
  lemma {:induction false} InsertPast<M>(ys: seq<Scored<M>>, x: Scored<M>, p: nat)
    requires p < |ys| && ys[p].score >= x.score
    ensures ys[..p] + Insert(ys[p..], x) == ys[..p + 1] + Insert(ys[p + 1..], x)
  {
    assert ys[p..][1..] == ys[p + 1..];
    assert Insert(ys[p..], x) == [ys[p]] + Insert(ys[p + 1..], x);
    assert ys[..p + 1] == ys[..p] + [ys[p]];
  }

  // ---------------------------------------------------------------- top_k

  /** Where Python's slice `[:k]` stops in a list of length `n`; a negative `k`
      counts from the end. */
  function SliceStop(n: nat, k: int): (m: nat)
    ensures m <= n
    ensures k >= 0 ==> m == (if k <= n then k else n)
  {
    if k >= 0 then (if k <= n then k else n)
    else if n + k >= 0 then n + k else 0
  }

  /** The entries `rerank_documents` returns. */
  function Reranked<M>(docs: seq<string>, metas: seq<M>, scores: seq<real>, topK: int): seq<Scored<M>> {
    var sorted := SortDesc(Zip3(docs, metas, scores));
    sorted[..SliceStop(|sorted|, topK)]
  }

  /** `rerank_documents(query, documents, metadata_list, top_k)` with the
      normalised scores as `scores`: the three returned lists. */
  method RerankDocuments<M>(documents: seq<string>, metadataList: seq<M>, normScores: seq<real>, topK: int)
    returns (rerankedDocs: seq<string>, rerankedMetadata: seq<M>, rerankedScores: seq<real>)
    ensures var top := Reranked(documents, metadataList, normScores, topK);
      && |rerankedDocs| == |rerankedMetadata| == |rerankedScores| == |top|
      && forall i :: 0 <= i < |top| ==>
        top[i] == Scored(rerankedDocs[i], rerankedMetadata[i], rerankedScores[i])
  {
    var docScorePairs := Zip3(documents, metadataList, normScores);
    docScorePairs := SortByScore(docScorePairs);
    var top := docScorePairs[..SliceStop(|docScorePairs|, topK)];
    rerankedDocs, rerankedMetadata, rerankedScores := [], [], [];
    for i := 0 to |top|
      invariant |rerankedDocs| == |rerankedMetadata| == |rerankedScores| == i
      invariant forall j :: 0 <= j < i ==> top[j] == Scored(rerankedDocs[j], rerankedMetadata[j], rerankedScores[j])
    {
      rerankedDocs := rerankedDocs + [top[i].doc];
      rerankedMetadata := rerankedMetadata + [top[i].meta];
      rerankedScores := rerankedScores + [top[i].score];
    }
  }

  /** The result holds `min(top_k, n)` entries for a non-negative `top_k`, in
      descending score, and each is one of the input triples, kept together. */
  lemma {:induction false} RerankedSpec<M>(docs: seq<string>, metas: seq<M>, scores: seq<real>, topK: int)
    ensures var all := Zip3(docs, metas, scores);
      var top := Reranked(docs, metas, scores, topK);
      && |top| == SliceStop(|all|, topK)
      && Descending(top)
      && multiset(top) <= multiset(all)
  {
    var all := Zip3(docs, metas, scores);
    var sorted := SortDesc(all);
    SortDescDescending(all);
    SortDescPermutes(all);
    PrefixMultiset(sorted, SliceStop(|sorted|, topK));
  }

  lemma {:induction false} PrefixMultiset<M>(xs: seq<Scored<M>>, m: nat)
    requires m <= |xs|
    ensures multiset(xs[..m]) <= multiset(xs)
  {
    assert xs == xs[..m] + xs[m..];
  }

  /** No entry left out scores higher than an entry kept. */
  lemma {:induction false} RerankedBest<M>(docs: seq<string>, metas: seq<M>, scores: seq<real>, topK: int)
    ensures var all := Zip3(docs, metas, scores);
      var top := Reranked(docs, metas, scores, topK);
      forall x, y :: x in top && y in multiset(all) - multiset(top) ==> x.score >= y.score
  {
    var all := Zip3(docs, metas, scores);
    var sorted := SortDesc(all);
    SortDescDescending(all);
    SortDescPermutes(all);
    PrefixBest(sorted, SliceStop(|sorted|, topK));
  }

  /** In a descending list, no entry after position `m` scores higher than one before. */
  lemma {:induction false} PrefixBest<M>(sorted: seq<Scored<M>>, m: nat)
    requires Descending(sorted) && m <= |sorted|
    ensures forall x, y :: x in sorted[..m] && y in multiset(sorted) - multiset(sorted[..m]) ==> x.score >= y.score
  {
    var top, rest := sorted[..m], sorted[m..];
    RestMultiset(sorted, m);
    forall x: Scored<M>, y: Scored<M> | x in top && y in rest
      ensures x.score >= y.score
    {
      var i :| 0 <= i < |top| && top[i] == x;
      var j :| 0 <= j < |rest| && rest[j] == y;
      assert sorted[i] == x && sorted[m + j] == y;
    }
  }

  /** What a prefix leaves of a list's multiset is the multiset of the rest. */
  lemma {:induction false} RestMultiset<M>(xs: seq<Scored<M>>, m: nat)
    requires m <= |xs|
    ensures multiset(xs) - multiset(xs[..m]) == multiset(xs[m..])
  {
    assert xs == xs[..m] + xs[m..];
  }
}
