/**
 * The table-of-contents colour helpers of temp/code/pdf_processor_vision.py,
 * temp/code/pdf_toc_color_extract.py and temp/code/pdf_processor_base.py: a span's
 * 24-bit colour is unpacked into its components, grey and black spans are set
 * aside, and the most frequent remaining colour marks the headings of a page.
 * A page is taken as the list of blocks PyMuPDF's `get_text("dict")` gives.
 */
module TocColors {
  import opened Outcomes
  import opened Text

  datatype Rgb = Rgb(r: int, g: int, b: int)

  predicate IsByte(x: int) {
    0 <= x < 256
  }

  /** `rgb_from_int`: `(c >> 16) & 255`, `(c >> 8) & 255`, `c & 255`. Python's `>>`
      floors and `& 255` keeps the low byte, which for a positive divisor is
      Dafny's `/` and `%`, for negative colours too. */
  function RgbFromInt(c: int): (rgb: Rgb)
    ensures IsByte(rgb.r) && IsByte(rgb.g) && IsByte(rgb.b)
  {
    Rgb((c / 65536) % 256, (c / 256) % 256, c % 256)
  }

  /** A colour below `2^24` is its components put back together. */
  lemma {:induction false} RgbRoundTrip(c: int)
    requires 0 <= c < 0x100_0000
    ensures var rgb := RgbFromInt(c); rgb.r * 65536 + rgb.g * 256 + rgb.b == c
  {
    var q := c / 256;
    assert c == q * 256 + c % 256;
    assert q == (q / 256) * 256 + q % 256;
    assert q / 256 == c / 65536;
    assert c / 65536 < 256;
  }

  /** Three bytes packed into one colour unpack to themselves. */
  lemma {:induction false} IntFromRgb(r: int, g: int, b: int)
    requires IsByte(r) && IsByte(g) && IsByte(b)
    ensures RgbFromInt(r * 65536 + g * 256 + b) == Rgb(r, g, b)
  {
    var c := r * 65536 + g * 256 + b;
    assert c == (r * 256 + g) * 256 + b;
    assert c / 256 == r * 256 + g;
    assert c / 65536 == (c / 256) / 256;
  }

  function Max3(rgb: Rgb): (m: int)
    ensures m == rgb.r || m == rgb.g || m == rgb.b
    ensures m >= rgb.r && m >= rgb.g && m >= rgb.b
  {
    if rgb.r >= rgb.g && rgb.r >= rgb.b then rgb.r else if rgb.g >= rgb.b then rgb.g else rgb.b
  }

  function Min3(rgb: Rgb): (m: int)
    ensures m == rgb.r || m == rgb.g || m == rgb.b
    ensures m <= rgb.r && m <= rgb.g && m <= rgb.b
  {
    if rgb.r <= rgb.g && rgb.r <= rgb.b then rgb.r else if rgb.g <= rgb.b then rgb.g else rgb.b
  }

  /** `is_gray_or_black`: all three components equal, or a spread under 10. */
  predicate IsGrayOrBlack(rgb: Rgb) {
    (rgb.r == rgb.g == rgb.b) || Max3(rgb) - Min3(rgb) < 10
  }

  /** The equal-components test is subsumed: the colour is grey or black exactly
      when its spread is under 10. */
  lemma {:induction false} GrayIff(rgb: Rgb)
    ensures IsGrayOrBlack(rgb) <==> Max3(rgb) - Min3(rgb) < 10
  {
    if rgb.r == rgb.g == rgb.b {
      assert Max3(rgb) == rgb.r;
    }
  }

  // ---------------------------------------------------------------- candidates

  /** A text span: its text, its colour as an integer and the right edge `bbox[2]`
      of its box. */
  datatype Span = Span(text: string, color: int, x1: real)

  /** A block of the page dictionary: a text block holds lines of spans (the
      `'lines'` key), an image block none. */
  datatype Block = Block(lines: Option<seq<seq<Span>>>)

  datatype Candidate = Candidate(text: string, rgb: Rgb)

  function LineSpans(line: seq<Span>): seq<Span> {
    line
  }

  function BlockSpans(b: Block): seq<Span> {
    if b.lines.Some? then FlatMap(b.lines.value, LineSpans) else []
  }

  /** The spans of a page in block, line and span order. */
  function Spans(blocks: seq<Block>): seq<Span> {
    FlatMap(blocks, BlockSpans)
  }

  /** A span is a candidate when its stripped text is not empty and its box ends
      at `xMax` or to the left of it. */
  predicate InToc(s: Span, xMax: real) {
    |Strip(s.text)| > 0 && s.x1 <= xMax
  }

  function SpanCandidates(s: Span, xMax: real): seq<Candidate> {
    if InToc(s, xMax) then [Candidate(Strip(s.text), RgbFromInt(s.color))] else []
  }

  function CandidateOf(xMax: real): Span -> seq<Candidate> {
    s => SpanCandidates(s, xMax)
  }

  /** `toc_candidates`: the stripped text and colour of every qualifying span, in
      page order. */
  function Candidates(blocks: seq<Block>, xMax: real): seq<Candidate> {
    FlatMap(Spans(blocks), CandidateOf(xMax))
  }

  /** The candidate loops: blocks, then their lines, then the spans of a line. */
  method CollectCandidates(blocks: seq<Block>, xMax: real) returns (candidates: seq<Candidate>)
    ensures candidates == Candidates(blocks, xMax)
  {
    candidates := [];
    for i := 0 to |blocks|
      invariant candidates == FlatMap(Spans(blocks[..i]), CandidateOf(xMax))
    {
      PageStep(blocks, i, xMax);
      if blocks[i].lines.Some? {
        var found := CollectBlock(blocks[i].lines.value, xMax);
        candidates := candidates + found;
      }
    }
    assert blocks[..|blocks|] == blocks;
  }

  method CollectBlock(lines: seq<seq<Span>>, xMax: real) returns (found: seq<Candidate>)
    ensures found == FlatMap(FlatMap(lines, LineSpans), CandidateOf(xMax))
  {
    found := [];
    for j := 0 to |lines|
      invariant found == FlatMap(FlatMap(lines[..j], LineSpans), CandidateOf(xMax))
    {
      BlockStep(lines, j, xMax);
      var more := CollectLine(lines[j], xMax);
      found := found + more;
    }
    assert lines[..|lines|] == lines;
  }

  method CollectLine(line: seq<Span>, xMax: real) returns (found: seq<Candidate>)
    ensures found == FlatMap(line, CandidateOf(xMax))
  {
    found := [];
    for k := 0 to |line|
      invariant found == FlatMap(line[..k], CandidateOf(xMax))
    {
      LineStep(line, k, xMax);
      var span := line[k];
      var text := Strip(span.text);
      if |text| > 0 && span.x1 <= xMax {
        found := found + [Candidate(text, RgbFromInt(span.color))];
      }
    }
    assert line[..|line|] == line;
  }

  lemma {:induction false} LineStep(line: seq<Span>, k: nat, xMax: real)
    requires k < |line|
    ensures FlatMap(line[..k + 1], CandidateOf(xMax)) == FlatMap(line[..k], CandidateOf(xMax)) + SpanCandidates(line[k], xMax)
  {
    FlatMapSnoc(line, k, CandidateOf(xMax));
  }

  lemma {:induction false} BlockStep(lines: seq<seq<Span>>, j: nat, xMax: real)
    requires j < |lines|
    ensures FlatMap(FlatMap(lines[..j + 1], LineSpans), CandidateOf(xMax))
         == FlatMap(FlatMap(lines[..j], LineSpans), CandidateOf(xMax)) + FlatMap(lines[j], CandidateOf(xMax))
  {
    FlatMapSnoc(lines, j, LineSpans);
    FlatMapAppend(FlatMap(lines[..j], LineSpans), lines[j], CandidateOf(xMax));
  }

  lemma {:induction false} PageStep(blocks: seq<Block>, i: nat, xMax: real)
    requires i < |blocks|
    ensures FlatMap(Spans(blocks[..i + 1]), CandidateOf(xMax))
         == FlatMap(Spans(blocks[..i]), CandidateOf(xMax))
            + (if blocks[i].lines.Some? then FlatMap(FlatMap(blocks[i].lines.value, LineSpans), CandidateOf(xMax)) else [])
  {
    FlatMapSnoc(blocks, i, BlockSpans);
    FlatMapAppend(Spans(blocks[..i]), BlockSpans(blocks[i]), CandidateOf(xMax));
  }

  function InTocAt(xMax: real): Span -> bool {
    s => InToc(s, xMax)
  }

  function CandidateAt(s: Span): Candidate {
    Candidate(Strip(s.text), RgbFromInt(s.color))
  }

  /** The candidates are one per qualifying span, in page order: every span with a
      non-blank text left of `xMax` gives its stripped text and colour, and no
      other span gives anything. */
  lemma {:induction false} CandidatesSpec(blocks: seq<Block>, xMax: real)
    ensures var spans := Spans(blocks);
      var ks := Positions(spans, InTocAt(xMax));
      && |Candidates(blocks, xMax)| == |ks|
      && (forall j :: 0 <= j < |ks| ==>
            && ks[j] < |spans| && InToc(spans[ks[j]], xMax)
            && Candidates(blocks, xMax)[j] == Candidate(Strip(spans[ks[j]].text), RgbFromInt(spans[ks[j]].color)))
      && (forall i, j :: 0 <= i < j < |ks| ==> ks[i] < ks[j])
      && (forall k :: 0 <= k < |spans| ==> (InToc(spans[k], xMax) <==> k in ks))
  {
    FilterMapSpec(Spans(blocks), InTocAt(xMax), CandidateAt, CandidateOf(xMax));
  }

  lemma {:induction false} CandidatesNone(blocks: seq<Block>, xMax: real)
    ensures Candidates(blocks, xMax) == [] <==> forall k :: 0 <= k < |Spans(blocks)| ==> !InToc(Spans(blocks)[k], xMax)
  {
    var spans := Spans(blocks);
    FlatMapEmpty(spans, CandidateOf(xMax));
    assert forall k :: 0 <= k < |spans| ==> (CandidateOf(xMax)(spans[k]) == [] <==> !InToc(spans[k], xMax));
  }

  // ---------------------------------------------------------------- the colour tally

  /** The candidates that are neither grey nor black, in order. */
  function Colored(cs: seq<Candidate>): (r: seq<Candidate>)
    ensures forall k :: 0 <= k < |r| ==> !IsGrayOrBlack(r[k].rgb)
    ensures |r| <= |cs|
  {
    if cs == [] then []
    else
      var last := cs[|cs| - 1];
      Colored(cs[..|cs| - 1]) + (if IsGrayOrBlack(last.rgb) then [] else [last])
  }

  function ColoredOne(c: Candidate): seq<Candidate> {
    if IsGrayOrBlack(c.rgb) then [] else [c]
  }

  function NotGray(c: Candidate): bool {
    !IsGrayOrBlack(c.rgb)
  }

  lemma {:induction false} ColoredFlat(cs: seq<Candidate>)
    ensures Colored(cs) == FlatMap(cs, ColoredOne)
    decreases |cs|
  {
    if cs != [] {
      ColoredFlat(cs[..|cs| - 1]);
    }
  }

  /** The comprehension `[c for c in candidates if not is_gray_or_black(c)]`: the
      non-grey candidates, each once and in order, and no other. */
  lemma {:induction false} ColoredSpec(cs: seq<Candidate>)
    ensures var ks := Positions(cs, NotGray);
      && |Colored(cs)| == |ks|
      && (forall j :: 0 <= j < |ks| ==> ks[j] < |cs| && !IsGrayOrBlack(cs[ks[j]].rgb) && Colored(cs)[j] == cs[ks[j]])
      && (forall i, j :: 0 <= i < j < |ks| ==> ks[i] < ks[j])
      && (forall k :: 0 <= k < |cs| ==> (!IsGrayOrBlack(cs[k].rgb) <==> k in ks))
  {
    ColoredFlat(cs);
    FilterMapSpec(cs, NotGray, c => c, ColoredOne);
  }

  /** How many candidates have colour `c`. */
  function Count(cs: seq<Candidate>, c: Rgb): nat {
    if cs == [] then 0
    else Count(cs[..|cs| - 1], c) + (if cs[|cs| - 1].rgb == c then 1 else 0)
  }

  /** The position of the first candidate of colour `c`, or `|cs|` when none has it. */
  function First(cs: seq<Candidate>, c: Rgb): (i: nat)
    ensures i <= |cs|
    ensures i < |cs| <==> Count(cs, c) > 0
    ensures i < |cs| ==> cs[i].rgb == c
    ensures forall j :: 0 <= j < i ==> cs[j].rgb != c
  {
    if cs == [] then 0
    else
      var pre := cs[..|cs| - 1];
      var i := First(pre, c);
      if i < |pre| then i
      else if cs[|cs| - 1].rgb == c then |pre|
      else |cs|
  }

  /** The dictionary `color_count`: its keys in insertion order with their counts. */
  type Tally = seq<(Rgb, nat)>

  /** The position of `c` among the keys, or `|t|` when it is not a key. */
  function Find(t: Tally, c: Rgb): (i: nat)
    ensures i <= |t|
    ensures i < |t| ==> t[i].0 == c
    ensures forall j :: 0 <= j < i ==> t[j].0 != c
  {
    if t == [] then 0 else if t[0].0 == c then 0 else 1 + Find(t[1..], c)
  }

  /** `color_count[c] = color_count.get(c, 0) + 1`. */
  function Bump(t: Tally, c: Rgb): Tally {
    var i := Find(t, c);
    if i < |t| then t[i := (c, t[i].1 + 1)] else t + [(c, 1)]
  }

  function TallyOf(cs: seq<Candidate>): Tally {
    if cs == [] then [] else Bump(TallyOf(cs[..|cs| - 1]), cs[|cs| - 1].rgb)
  }

  /** The tally loop. */
  method CountColors(colored: seq<Candidate>) returns (t: Tally)
    ensures t == TallyOf(colored)
  {
    t := [];
    for k := 0 to |colored|
      invariant t == TallyOf(colored[..k])
    {
      assert colored[..k + 1][..k] == colored[..k];
      var c := colored[k].rgb;
      var i := Find(t, c);
      if i < |t| {
        t := t[i := (c, t[i].1 + 1)];
      } else {
        t := t + [(c, 1)];
      }
    }
    assert colored[..|colored|] == colored;
  }

  /** What the dictionary holds: each colour once, with the number of candidates of
      that colour; a colour is a key exactly when some candidate has it; and the
      keys are in the order their colours first appear. */
  ghost predicate TallyOfShape(t: Tally, cs: seq<Candidate>) {
    Distinct(t) && Counted(t, cs) && Covers(t, cs) && Ordered(t, cs)
  }

  ghost predicate Distinct(t: Tally) {
    forall i, j :: 0 <= i < j < |t| ==> t[i].0 != t[j].0
  }

  ghost predicate Counted(t: Tally, cs: seq<Candidate>) {
    forall i :: 0 <= i < |t| ==> t[i].1 == Count(cs, t[i].0) && t[i].1 > 0
  }

  ghost predicate Covers(t: Tally, cs: seq<Candidate>) {
    forall c :: Count(cs, c) > 0 <==> Find(t, c) < |t|
  }

  ghost predicate Ordered(t: Tally, cs: seq<Candidate>) {
    forall i, j :: 0 <= i < j < |t| ==> First(cs, t[i].0) < First(cs, t[j].0)
  }

  lemma {:induction false} TallySpec(cs: seq<Candidate>)
    ensures TallyOfShape(TallyOf(cs), cs)
    decreases |cs|
  {
    if cs != [] {
      var pre := cs[..|cs| - 1];
      TallySpec(pre);
      var x := cs[|cs| - 1];
      assert pre + [x] == cs;
      if Find(TallyOf(pre), x.rgb) < |TallyOf(pre)| {
        TallyStepOld(TallyOf(pre), pre, x);
      } else {
        TallyStepNew(TallyOf(pre), pre, x);
      }
    }
  }

  lemma {:induction false} CountSnoc(cs: seq<Candidate>, x: Candidate, c: Rgb)
    ensures Count(cs + [x], c) == Count(cs, c) + (if x.rgb == c then 1 else 0)
    ensures First(cs + [x], c) == if First(cs, c) < |cs| then First(cs, c) else if x.rgb == c then |cs| else |cs| + 1
  {
    assert (cs + [x])[..|cs|] == cs;
  }

  /** A colour already counted: its count goes up by one, nothing else changes. */
  lemma {:induction false} TallyStepOld(t: Tally, cs: seq<Candidate>, x: Candidate)
    requires TallyOfShape(t, cs)
    requires Find(t, x.rgb) < |t|
    ensures TallyOfShape(Bump(t, x.rgb), cs + [x])
  {
    var i := Find(t, x.rgb);
    var t' := t[i := (x.rgb, t[i].1 + 1)];
    assert Bump(t, x.rgb) == t';
    assert forall j :: 0 <= j < |t| ==> t'[j].0 == t[j].0;
    OldCounted(t, cs, x, i);
    OldCovers(t, cs, x, t');
    OldOrdered(t, cs, x, t');
  }

  lemma {:induction false} OldCounted(t: Tally, cs: seq<Candidate>, x: Candidate, i: nat)
    requires Counted(t, cs) && Distinct(t) && i < |t| && t[i].0 == x.rgb
    ensures Counted(t[i := (x.rgb, t[i].1 + 1)], cs + [x])
  {
    var t' := t[i := (x.rgb, t[i].1 + 1)];
    forall j | 0 <= j < |t|
      ensures t'[j].1 == Count(cs + [x], t'[j].0) && t'[j].1 > 0
    {
      CountSnoc(cs, x, t[j].0);
      if j != i {
        assert t[j].0 != x.rgb;
      }
    }
  }

  lemma {:induction false} OldCovers(t: Tally, cs: seq<Candidate>, x: Candidate, t': Tally)
    requires Covers(t, cs) && Find(t, x.rgb) < |t|
    requires |t'| == |t| && forall j :: 0 <= j < |t| ==> t'[j].0 == t[j].0
    ensures Covers(t', cs + [x])
  {
    forall c
      ensures Count(cs + [x], c) > 0 <==> Find(t', c) < |t'|
    {
      FindSameKeys(t, t', c);
      CountSnoc(cs, x, c);
    }
  }

  lemma {:induction false} OldOrdered(t: Tally, cs: seq<Candidate>, x: Candidate, t': Tally)
    requires Counted(t, cs) && Ordered(t, cs)
    requires |t'| == |t| && forall j :: 0 <= j < |t| ==> t'[j].0 == t[j].0
    ensures Ordered(t', cs + [x])
  {
    forall j | 0 <= j < |t|
      ensures First(cs + [x], t'[j].0) == First(cs, t[j].0)
    {
      CountSnoc(cs, x, t[j].0);
    }
  }

  /** A colour seen for the first time: it is added last with count one. */
  lemma {:induction false} TallyStepNew(t: Tally, cs: seq<Candidate>, x: Candidate)
    requires TallyOfShape(t, cs)
    requires Find(t, x.rgb) == |t|
    ensures TallyOfShape(Bump(t, x.rgb), cs + [x])
  {
    var t' := Bump(t, x.rgb);
    assert t' == t + [(x.rgb, 1)];
    assert Count(cs, x.rgb) == 0;
    NewDistinctCounted(t, cs, x);
    NewCovers(t, cs, x);
    NewOrdered(t, cs, x);
  }

  lemma {:induction false} NewDistinctCounted(t: Tally, cs: seq<Candidate>, x: Candidate)
    requires Counted(t, cs) && Find(t, x.rgb) == |t| && Count(cs, x.rgb) == 0
    ensures Distinct(t) ==> Distinct(t + [(x.rgb, 1)])
    ensures Counted(t + [(x.rgb, 1)], cs + [x])
  {
    var t' := t + [(x.rgb, 1)];
    CountSnoc(cs, x, x.rgb);
    forall j | 0 <= j < |t|
      ensures t'[j].1 == Count(cs + [x], t'[j].0)
    {
      CountSnoc(cs, x, t[j].0);
    }
  }

  lemma {:induction false} NewCovers(t: Tally, cs: seq<Candidate>, x: Candidate)
    requires Covers(t, cs) && Find(t, x.rgb) == |t|
    ensures Covers(t + [(x.rgb, 1)], cs + [x])
  {
    forall c
      ensures Count(cs + [x], c) > 0 <==> Find(t + [(x.rgb, 1)], c) < |t| + 1
    {
      FindSnoc(t, (x.rgb, 1), c);
      CountSnoc(cs, x, c);
    }
  }

  lemma {:induction false} NewOrdered(t: Tally, cs: seq<Candidate>, x: Candidate)
    requires Counted(t, cs) && Ordered(t, cs) && Count(cs, x.rgb) == 0
    ensures Ordered(t + [(x.rgb, 1)], cs + [x])
  {
    var t' := t + [(x.rgb, 1)];
    CountSnoc(cs, x, x.rgb);
    forall j | 0 <= j < |t|
      ensures First(cs + [x], t[j].0) == First(cs, t[j].0) < |cs|
    {
      CountSnoc(cs, x, t[j].0);
    }
    assert First(cs + [x], x.rgb) == |cs|;
    forall i, j | 0 <= i < j < |t'|
      ensures First(cs + [x], t'[i].0) < First(cs + [x], t'[j].0)
    {
      assert t'[i] == t[i];
      if j < |t| {
        assert t'[j] == t[j];
      }
    }
  }

  lemma {:induction false} FindSameKeys(t: Tally, t': Tally, c: Rgb)
    requires |t| == |t'| && forall j :: 0 <= j < |t| ==> t'[j].0 == t[j].0
    ensures Find(t', c) == Find(t, c)
    decreases |t|
  {
    if t != [] && t[0].0 != c {
      FindSameKeys(t[1..], t'[1..], c);
    }
  }

  lemma {:induction false} FindSnoc(t: Tally, e: (Rgb, nat), c: Rgb)
    ensures Find(t + [e], c) == if Find(t, c) < |t| then Find(t, c) else if c == e.0 then |t| else |t| + 1
    decreases |t|
  {
    if t != [] {
      assert (t + [e])[1..] == t[1..] + [e];
      FindSnoc(t[1..], e, c);
    }
  }

  /** `max(color_count, key=color_count.get)`: the first key with the largest count. */
  function ArgMax(t: Tally): (i: nat)
    requires t != []
    ensures i < |t|
    ensures forall j :: 0 <= j < |t| ==> t[j].1 <= t[i].1
    ensures forall j :: 0 <= j < i ==> t[j].1 < t[i].1
  {
    if |t| == 1 then 0
    else
      var i := ArgMax(t[..|t| - 1]);
      if t[|t| - 1].1 > t[i].1 then |t| - 1 else i
  }

  /** The texts of the candidates of colour `c`, in order. */
  function TextsOf(cs: seq<Candidate>, c: Rgb): seq<string> {
    if cs == [] then []
    else TextsOf(cs[..|cs| - 1], c) + (if cs[|cs| - 1].rgb == c then [cs[|cs| - 1].text] else [])
  }

  /** The texts of `c` are as many as its candidates, and the first of them is
      its first candidate's. */
  lemma {:induction false} TextsOfCount(cs: seq<Candidate>, c: Rgb)
    ensures |TextsOf(cs, c)| == Count(cs, c)
    ensures Count(cs, c) > 0 ==> TextsOf(cs, c)[0] == cs[First(cs, c)].text
    decreases |cs|
  {
    if cs != [] {
      TextsOfCount(cs[..|cs| - 1], c);
    }
  }

  /** The headings: the texts of the coloured candidates in the most frequent
      colour, the first seen colour winning a tie, or none without a coloured
      candidate. */
  function MainTexts(cs: seq<Candidate>): seq<string> {
    var colored := Colored(cs);
    var t := TallyOf(colored);
    if t == [] then [] else TextsOf(colored, t[ArgMax(t)].0)
  }

  /** The colour chosen: no other coloured colour is more frequent, one that is as
      frequent appears later, and the result is every coloured candidate in that
      colour, in order. */
  ghost predicate MainColor(colored: seq<Candidate>, m: Rgb) {
    && Count(colored, m) > 0
    && (forall c :: Count(colored, c) <= Count(colored, m))
    && (forall c :: c != m && Count(colored, c) == Count(colored, m) ==> First(colored, m) < First(colored, c))
  }

  lemma {:induction false} MainTextsSpec(cs: seq<Candidate>)
    ensures MainTexts(cs) == [] <==> Colored(cs) == []
    ensures MainTexts(cs) != [] ==>
      exists m :: MainColor(Colored(cs), m) && MainTexts(cs) == TextsOf(Colored(cs), m)
  {
    var colored := Colored(cs);
    var t := TallyOf(colored);
    TallySpec(colored);
    if colored != [] {
      assert Count(colored, colored[0].rgb) > 0 by {
        CountPositive(colored, 0);
      }
      assert t != [];
      var i := ArgMax(t);
      var m := t[i].0;
      TextsOfCount(colored, m);
      forall c
        ensures Count(colored, c) <= Count(colored, m)
        ensures c != m && Count(colored, c) == Count(colored, m) ==> First(colored, m) < First(colored, c)
      {
        if Count(colored, c) > 0 {
          var j := Find(t, c);
          assert t[j].1 == Count(colored, c);
          if c != m && Count(colored, c) == Count(colored, m) {
            assert j != i;
            assert j > i;
          }
        }
      }
      assert MainColor(colored, m);
    } else {
      assert t == [];
    }
  }

  lemma {:induction false} CountPositive(cs: seq<Candidate>, k: nat)
    requires k < |cs|
    ensures Count(cs, cs[k].rgb) > 0
    decreases |cs|
  {
    if k < |cs| - 1 {
      CountPositive(cs[..|cs| - 1], k);
    }
  }

  /** The page step of `extract_colored_toc_for_pages`: the candidates, the coloured
      ones, their tally and the texts in the main colour. */
  method ColoredToc(blocks: seq<Block>, xMax: real) returns (subSections: seq<string>)
    ensures subSections == MainTexts(Candidates(blocks, xMax))
  {
    var candidates := CollectCandidates(blocks, xMax);
    var colored := Colored(candidates);
    var counts := CountColors(colored);
    if |counts| > 0 {
      var main := counts[ArgMax(counts)].0;
      subSections := TextsOf(colored, main);
    } else {
      subSections := [];
    }
  }

  /** The page step of `extract_page_sub_sections` in pdf_processor_vision.py: the
      first text in the main colour, or `None` without a coloured candidate. */
  function VisionSubSection(blocks: seq<Block>, xMax: real): Option<string> {
    var texts := MainTexts(Candidates(blocks, xMax));
    if texts != [] then Some(texts[0]) else None
  }

  /** The heading is the first coloured candidate of the main colour. */
  lemma {:induction false} VisionSubSectionSpec(blocks: seq<Block>, xMax: real)
    ensures var colored := Colored(Candidates(blocks, xMax));
      && (VisionSubSection(blocks, xMax).None? <==> colored == [])
      && (VisionSubSection(blocks, xMax).Some? ==>
            exists m :: MainColor(colored, m) && VisionSubSection(blocks, xMax).value == colored[First(colored, m)].text)
  {
    var cs := Candidates(blocks, xMax);
    MainTextsSpec(cs);
    if MainTexts(cs) != [] {
      var m :| MainColor(Colored(cs), m) && MainTexts(cs) == TextsOf(Colored(cs), m);
      TextsOfCount(Colored(cs), m);
    }
  }

  /** The page step of `extract_page_sub_sections` in pdf_processor_base.py: the
      first candidate's text, whatever its colour, or `None`. */
  function BaseSubSection(blocks: seq<Block>, xMax: real): Option<string> {
    var cs := Candidates(blocks, xMax);
    if cs != [] then Some(cs[0].text) else None
  }

  /** The heading is the stripped text of the first qualifying span in page order,
      and there is none exactly when no span qualifies. */
  lemma {:induction false} BaseSubSectionSpec(blocks: seq<Block>, xMax: real)
    ensures var spans := Spans(blocks);
      && (BaseSubSection(blocks, xMax).None? <==> forall k :: 0 <= k < |spans| ==> !InToc(spans[k], xMax))
      && (BaseSubSection(blocks, xMax).Some? ==>
            exists k :: 0 <= k < |spans| && InToc(spans[k], xMax)
              && BaseSubSection(blocks, xMax).value == Strip(spans[k].text)
              && forall j :: 0 <= j < k ==> !InToc(spans[j], xMax))
  {
    BaseSubSectionNone(blocks, xMax);
    if BaseSubSection(blocks, xMax).Some? {
      BaseSubSectionFirst(blocks, xMax);
    }
  }

  lemma {:induction false} BaseSubSectionNone(blocks: seq<Block>, xMax: real)
    ensures BaseSubSection(blocks, xMax).None? <==> forall k :: 0 <= k < |Spans(blocks)| ==> !InToc(Spans(blocks)[k], xMax)
  {
    var spans := Spans(blocks);
    var f := CandidateOf(xMax);
    FlatMapEmpty(spans, f);
    assert forall k :: 0 <= k < |spans| ==> (f(spans[k]) == [] <==> !InToc(spans[k], xMax));
  }

  lemma {:induction false} BaseSubSectionFirst(blocks: seq<Block>, xMax: real)
    requires BaseSubSection(blocks, xMax).Some?
    ensures var spans := Spans(blocks);
      exists k :: 0 <= k < |spans| && InToc(spans[k], xMax)
        && BaseSubSection(blocks, xMax).value == Strip(spans[k].text)
        && forall j :: 0 <= j < k ==> !InToc(spans[j], xMax)
  {
    var spans := Spans(blocks);
    var f := CandidateOf(xMax);
    FlatMapHead(spans, f);
    var k :| 0 <= k < |spans| && f(spans[k]) != [] && FlatMap(spans, f)[0] == f(spans[k])[0]
      && forall j :: 0 <= j < k ==> f(spans[j]) == [];
    BeforeFirst(spans, xMax, k);
    assert f(spans[k]) == SpanCandidates(spans[k], xMax);
    assert InToc(spans[k], xMax);
    assert BaseSubSection(blocks, xMax).value == Strip(spans[k].text);
  }

  lemma {:induction false} BeforeFirst(spans: seq<Span>, xMax: real, k: nat)
    requires k <= |spans| && forall j :: 0 <= j < k ==> CandidateOf(xMax)(spans[j]) == []
    ensures forall j :: 0 <= j < k ==> !InToc(spans[j], xMax)
  {
    forall j | 0 <= j < k
      ensures !InToc(spans[j], xMax)
    {
      assert CandidateOf(xMax)(spans[j]) == SpanCandidates(spans[j], xMax);
    }
  }
}
