/**
 * The greedy sentence-packing chunker. The same loop appears in six scripts
 * (`create_chunks` of code/pdf_processor.py and code/shinhan_ppt_processor.py,
 * `create_chunks_with_subsection` of temp/code/pdf_processor_vision.py,
 * `create_chunks_base` of temp/code/pdf_processor_base.py and
 * temp/code/ppt_processor_base.py, `create_chunks` of
 * temp/code/pptx_chunks_with_structure.py). They differ only in how a sentence is
 * cleaned (`strip()` or `preprocess_text`), whether the joined chunk text is cleaned
 * again, and the metadata attached; those three are parameters here.
 */
module Packing {
  import opened Outcomes
  import opened Text

  /** A chunk: its text and the metadata record its script attaches. */
  datatype Chunk<M> = Chunk(text: string, metadata: M)

  predicate IsTerminal(c: char) {
    c == '.' || c == '!' || c == '?'
  }

  /** The first position `i >= from` at which `(?<=[.!?])\s+` can match: `s[i]` is
      whitespace and `s[i - 1]` ends a sentence. */
  function BreakFrom(s: string, from: nat): (r: Option<nat>)
    requires 1 <= from
    ensures r.Some? ==> from <= r.value < |s| && IsTerminal(s[r.value - 1]) && IsSpace(s[r.value])
    ensures forall j :: from <= j < (if r.Some? then r.value else |s|) ==>
      !(IsTerminal(s[j - 1]) && IsSpace(s[j]))
    decreases |s| - from
  {
    if from >= |s| then None
    else if IsTerminal(s[from - 1]) && IsSpace(s[from]) then Some(from)
    else BreakFrom(s, from + 1)
  }

  /** `re.split(r'(?<=[.!?])\s+', s)`: the text is cut at every whitespace run that
      follows a `.`, `!` or `?`, and the run itself is dropped. */
  function SplitSentences(s: string): (pieces: seq<string>)
    ensures |pieces| >= 1
    decreases |s|
  {
    match BreakFrom(s, 1)
    case None => [s]
    case Some(i) => [s[..i]] + SplitSentences(LStrip(s[i..]))
  }

  /** Every piece but the last ends a sentence, and no piece holds a further break:
      the pieces are exactly the sentences. */
  lemma {:induction false} SplitSentencesShape(s: string)
    ensures var p := SplitSentences(s);
      forall k :: 0 <= k < |p| - 1 ==> p[k] != [] && IsTerminal(p[k][|p[k]| - 1])
    ensures var p := SplitSentences(s);
      forall k :: 0 <= k < |p| ==> BreakFrom(p[k], 1).None?
    decreases |s|
  {
    match BreakFrom(s, 1)
    case None =>
    case Some(i) =>
      var rest := LStrip(s[i..]);
      SplitSentencesShape(rest);
      BreakFromPrefix(s, i);
      assert SplitSentences(s) == [s[..i]] + SplitSentences(rest);
  }

  /** Cutting `s` before its first break leaves a piece with no break. */
  lemma {:induction false} BreakFromPrefix(s: string, i: nat)
    requires BreakFrom(s, 1) == Some(i)
    ensures BreakFrom(s[..i], 1).None?
  {
  }

  /** The sentences that survive cleaning, in order: `clean` stands for `strip()` or
      for `preprocess_text` with `None` read as the empty string, and the loop
      skips a sentence that cleans to nothing. */
  function Kept(sentences: seq<string>, clean: string -> string): (r: seq<string>)
    ensures forall k :: 0 <= k < |r| ==> r[k] != []
    ensures |r| <= |sentences|
  {
    if sentences == [] then []
    else
      var last := clean(sentences[|sentences| - 1]);
      Kept(sentences[..|sentences| - 1], clean) + (if last == [] then [] else [last])
  }

  function KeepOne(clean: string -> string): string -> seq<string> {
    s => if clean(s) != [] then [clean(s)] else []
  }

  function CleansToSome(clean: string -> string): string -> bool {
    s => clean(s) != []
  }

  lemma {:induction false} KeptFlat(sentences: seq<string>, clean: string -> string)
    ensures Kept(sentences, clean) == FlatMap(sentences, KeepOne(clean))
    decreases |sentences|
  {
    if sentences != [] {
      KeptFlat(sentences[..|sentences| - 1], clean);
    }
  }

  /** The loop's `if not sentence: continue`: the kept sentences are the cleaned
      forms of exactly the sentences that do not clean to nothing, each once and in
      order. */
  lemma {:induction false} KeptSpec(sentences: seq<string>, clean: string -> string)
    ensures var ks := Positions(sentences, CleansToSome(clean));
      && |Kept(sentences, clean)| == |ks|
      && (forall j :: 0 <= j < |ks| ==>
            && ks[j] < |sentences| && clean(sentences[ks[j]]) != []
            && Kept(sentences, clean)[j] == clean(sentences[ks[j]]))
      && (forall i, j :: 0 <= i < j < |ks| ==> ks[i] < ks[j])
      && (forall k :: 0 <= k < |sentences| ==> (clean(sentences[k]) != [] <==> k in ks))
  {
    KeptFlat(sentences, clean);
    FilterMapSpec(sentences, CleansToSome(clean), clean, KeepOne(clean));
  }

  /** The sum of the lengths of a group's sentences, the loop's `current_length`. */
  function TotalLen(g: seq<string>): nat {
    if g == [] then 0 else TotalLen(g[..|g| - 1]) + |g[|g| - 1]|
  }

  function Flatten(gs: seq<seq<string>>): seq<string> {
    if gs == [] then [] else Flatten(gs[..|gs| - 1]) + gs[|gs| - 1]
  }

  /** The loop state: flushed groups, the open group and its length. */
  datatype PackState = PackState(done: seq<seq<string>>, current: seq<string>, length: int)

  /** One iteration on a kept sentence `s`: a sentence that would push the open group
      past `size` closes it (when it is not empty) and opens a new one. */
  function Step(st: PackState, s: string, size: int): PackState {
    if st.length + |s| > size then
      PackState(if st.current != [] then st.done + [st.current] else st.done, [s], |s|)
    else
      PackState(st.done, st.current + [s], st.length + |s|)
  }

  function Run(xs: seq<string>, size: int): PackState {
    if xs == [] then PackState([], [], 0)
    else Step(Run(xs[..|xs| - 1], size), xs[|xs| - 1], size)
  }

  /** The groups the packer produces from the kept sentences `xs`. */
  function Pack(xs: seq<string>, size: int): seq<seq<string>> {
    var st := Run(xs, size);
    if st.current != [] then st.done + [st.current] else st.done
  }

  /** A group within the bound, or a lone sentence that exceeds it by itself. */
  predicate Fits(g: seq<string>, size: int) {
    TotalLen(g) <= size || |g| == 1
  }

  /** What holds of the loop state after the sentences `xs`. */
  predicate GoodState(st: PackState, xs: seq<string>, size: int) {
    && st.length == TotalLen(st.current)
    && Flatten(st.done) + st.current == xs
    && (forall k :: 0 <= k < |st.done| ==> st.done[k] != [] && Fits(st.done[k], size))
    && (st.current != [] ==> Fits(st.current, size))
    && (st.done != [] ==> st.current != [])
    && (forall k :: 0 < k < |st.done| ==> TotalLen(st.done[k - 1]) + |st.done[k][0]| > size)
    && (st.done != [] ==> TotalLen(st.done[|st.done| - 1]) + |st.current[0]| > size)
  }

  lemma {:induction false} TotalLenAppend(g: seq<string>, s: string)
    ensures TotalLen(g + [s]) == TotalLen(g) + |s|
  {
    assert (g + [s])[..|g|] == g;
  }

  lemma {:induction false} FlattenAppend(gs: seq<seq<string>>, g: seq<string>)
    ensures Flatten(gs + [g]) == Flatten(gs) + g
  {
    assert (gs + [g])[..|gs|] == gs;
  }

  /** A sentence that closes the open group keeps the state good. */
  lemma {:induction false} StepFlush(st: PackState, xs: seq<string>, s: string, size: int)
    requires GoodState(st, xs, size) && st.length + |s| > size
    ensures GoodState(Step(st, s, size), xs + [s], size)
  {
    TotalLenAppend([], s);
    if st.current != [] {
      FlattenAppend(st.done, st.current);
      var d := st.done + [st.current];
      assert forall k :: 0 <= k < |st.done| ==> d[k] == st.done[k];
    }
  }

  /** A sentence that fits in the open group keeps the state good. */
  lemma {:induction false} StepExtend(st: PackState, xs: seq<string>, s: string, size: int)
    requires GoodState(st, xs, size) && st.length + |s| <= size
    ensures GoodState(Step(st, s, size), xs + [s], size)
  {
    TotalLenAppend(st.current, s);
    if st.current != [] {
      assert (st.current + [s])[0] == st.current[0];
    }
  }

  lemma {:induction false} RunGood(xs: seq<string>, size: int)
    ensures GoodState(Run(xs, size), xs, size)
  {
    if xs != [] {
      var pre := xs[..|xs| - 1];
      var s := xs[|xs| - 1];
      RunGood(pre, size);
      var st := Run(pre, size);
      assert xs == pre + [s];
      if st.length + |s| > size {
        StepFlush(st, pre, s, size);
      } else {
        StepExtend(st, pre, s, size);
      }
    }
  }

  /** The greedy packing keeps every kept sentence once and in order; each group is
      non-empty and within `size` unless it is a single sentence; and a group is
      closed only when its next sentence would have pushed it past `size`. */
  lemma {:induction false} PackSpec(xs: seq<string>, size: int)
    ensures Flatten(Pack(xs, size)) == xs
    ensures forall k :: 0 <= k < |Pack(xs, size)| ==>
      Pack(xs, size)[k] != [] && Fits(Pack(xs, size)[k], size)
    ensures forall k :: 0 < k < |Pack(xs, size)| ==>
      TotalLen(Pack(xs, size)[k - 1]) + |Pack(xs, size)[k][0]| > size
  {
    RunGood(xs, size);
    var st := Run(xs, size);
    if st.current != [] {
      FlattenAppend(st.done, st.current);
    }
  }

  /** No sentences, no groups. */
  lemma {:induction false} PackEmpty(xs: seq<string>, size: int)
    ensures Pack(xs, size) == [] <==> xs == []
  {
    PackSpec(xs, size);
  }

  /** Every sentence of a packed group is one of the kept sentences. */
  lemma {:induction false} FlattenMember(gs: seq<seq<string>>, k: nat, j: nat)
    requires k < |gs| && j < |gs[k]|
    ensures gs[k][j] in Flatten(gs)
  {
    var pre := gs[..|gs| - 1];
    assert Flatten(gs) == Flatten(pre) + gs[|gs| - 1];
    if k < |gs| - 1 {
      FlattenMember(pre, k, j);
    }
  }

  /** The chunks emitted for one closed group: its joined text, passed through the
      optional second cleaning `finish`, which may drop it. */
  function EmitOne<M>(g: seq<string>, finish: string -> Option<string>, meta: M): seq<Chunk<M>> {
    match finish(Join(g, " "))
    case Some(t) => [Chunk(t, meta)]
    case None => []
  }

  function Emit<M>(gs: seq<seq<string>>, finish: string -> Option<string>, meta: M): (r: seq<Chunk<M>>)
    ensures forall k :: 0 <= k < |r| ==> r[k].metadata == meta
  {
    if gs == [] then []
    else Emit(gs[..|gs| - 1], finish, meta) + EmitOne(gs[|gs| - 1], finish, meta)
  }

  /** Without a second cleaning, there is one chunk per group, holding the group's
      sentences joined by single spaces. */
  lemma {:induction false} EmitPlain<M>(gs: seq<seq<string>>, meta: M)
    ensures var r := Emit(gs, t => Some(t), meta);
      |r| == |gs| && forall k :: 0 <= k < |gs| ==> r[k] == Chunk(Join(gs[k], " "), meta)
  {
    if gs != [] {
      EmitPlain(gs[..|gs| - 1], meta);
    }
  }

  /** The chunkers that keep every joined group (no second cleaning): one chunk per
      group, none with empty text, and none at all exactly when no sentence
      survives the cleaning. */
  lemma {:induction false} PlainChunks<M>(sentences: seq<string>, clean: string -> string, meta: M, size: int)
    ensures var gs := Pack(Kept(sentences, clean), size);
      var r := Emit(gs, t => Some(t), meta);
      && |r| == |gs|
      && (forall k :: 0 <= k < |r| ==> r[k] == Chunk(Join(gs[k], " "), meta) && r[k].text != [])
      && (r == [] <==> Kept(sentences, clean) == [])
  {
    var xs := Kept(sentences, clean);
    var gs := Pack(xs, size);
    EmitPlain(gs, meta);
    PackSpec(xs, size);
    PackEmpty(xs, size);
    forall k | 0 <= k < |gs|
      ensures Join(gs[k], " ") != []
    {
      FlattenMember(gs, k, 0);
      var x := gs[k][0];
      assert x in xs;
      assert |x| > 0;
      assert |Join(gs[k], " ")| >= |x|;
    }
  }

  /** The sentence loop of the chunkers: `sentences` is the `re.split` result, `clean`
      the per-sentence cleaning, `finish` the cleaning of a joined chunk text
      (`None` drops the chunk), `meta` the metadata record and `size` the
      `chunk_size` argument. */
  method PackChunks<M>(sentences: seq<string>, clean: string -> string,
                       finish: string -> Option<string>, meta: M, size: int)
    returns (chunks: seq<Chunk<M>>)
    ensures chunks == Emit(Pack(Kept(sentences, clean), size), finish, meta)
  {
    chunks := [];
    var current: seq<string> := [];
    var currentLength := 0;
    ghost var done: seq<seq<string>> := [];
    for i := 0 to |sentences|
      invariant Run(Kept(sentences[..i], clean), size) == PackState(done, current, currentLength)
      invariant chunks == Emit(done, finish, meta)
    {
      ghost var before := Kept(sentences[..i], clean);
      var sentence := clean(sentences[i]);
      KeptAppend(sentences, clean, i);
      if sentence == [] {
        assert Kept(sentences[..i + 1], clean) == before;
      } else {
        assert Kept(sentences[..i + 1], clean) == before + [sentence];
        RunAppend(before, sentence, size);
        if currentLength + |sentence| > size {
          if current != [] {
            EmitAppend(done, current, finish, meta);
            chunks := chunks + EmitOne(current, finish, meta);
            done := done + [current];
          }
          current := [sentence];
          currentLength := |sentence|;
        } else {
          current := current + [sentence];
          currentLength := currentLength + |sentence|;
        }
      }
    }
    assert sentences[..|sentences|] == sentences;
    if current != [] {
      EmitAppend(done, current, finish, meta);
      chunks := chunks + EmitOne(current, finish, meta);
    }
  }

  lemma {:induction false} KeptAppend(sentences: seq<string>, clean: string -> string, i: nat)
    requires i < |sentences|
    ensures Kept(sentences[..i + 1], clean) == Kept(sentences[..i], clean)
      + (if clean(sentences[i]) == [] then [] else [clean(sentences[i])])
  {
    assert sentences[..i + 1][..i] == sentences[..i];
  }

  lemma {:induction false} RunAppend(xs: seq<string>, s: string, size: int)
    ensures Run(xs + [s], size) == Step(Run(xs, size), s, size)
  {
    assert (xs + [s])[..|xs|] == xs;
  }

  lemma {:induction false} EmitAppend<M>(gs: seq<seq<string>>, g: seq<string>, finish: string -> Option<string>, meta: M)
    ensures Emit(gs + [g], finish, meta) == Emit(gs, finish, meta) + EmitOne(g, finish, meta)
  {
    assert (gs + [g])[..|gs|] == gs;
  }
}
