/**
 * code/ppt_processor.py: the text of a slide is its cleaned shape texts, one per
 * line, cleaned once more as a whole; `process_ppt` groups the slides with text
 * by the (section, subsection) the configuration gives their page, in the order
 * the groups are first seen, and turns each group into numbered chunks that
 * carry the group's page range. The text splitter is a parameter; the
 * configuration text is `None` when the file is missing. Shapes are those of
 * PptxElements, of which only the text is read.
 */
module PptProcessor {
  import opened Outcomes
  import opened Text
  import opened Normalize
  import opened Packing
  import SectionConfig
  import opened PptxElements

  // ---------------------------------------------------------------- slide text

  /** The cleaned text of a shape with a `text` attribute, when it is not empty. */
  function ShapePart(s: Shape): seq<string> {
    if s.text.None? then []
    else match Preprocess(Strip(s.text.value))
      case Some(t) => [t]
      case None => []
  }

  /** `extract_slide_text` (identical in code/shinhan_ppt_processor.py). */
  function SlideText(slide: Slide): Option<string> {
    var combined := Join(FlatMap(slide, ShapePart), "\n");
    if |combined| > 0 then Preprocess(combined) else None
  }

  method ExtractSlideText(slide: Slide) returns (r: Option<string>)
    ensures r == SlideText(slide)
  {
    var parts: seq<string> := [];
    for k := 0 to |slide|
      invariant parts == FlatMap(slide[..k], ShapePart)
    {
      FlatMapSnoc(slide, k, ShapePart);
      var shape := slide[k];
      if shape.text.Some? {
        var processed := Preprocess(Strip(shape.text.value));
        if processed.Some? {
          parts := parts + [processed.value];
        }
      }
    }
    assert slide[..|slide|] == slide;
    var combined := Join(parts, "\n");
    r := if |combined| > 0 then Preprocess(combined) else None;
  }

  /** A text that starts with a character the cleaning keeps and that is not
      whitespace. */
  predicate Solid(t: string) {
    |t| > 0 && !IsSpace(t[0]) && IsKept(t[0])
  }

  lemma {:induction false} PreprocessSolid(text: string)
    ensures Preprocess(text).Some? ==> Solid(Preprocess(text).value)
  {
    if Preprocess(text).Some? {
      var t := Preprocess(text).value;
      PreprocessShape(text);
      StripKeeps(Cleaned(text), t[0]);
      CleanedChars(text, t[0]);
    }
  }

  /** A join that starts with a solid part survives the cleaning. */
  lemma {:induction false} SolidJoin(parts: seq<string>, sep: string)
    requires parts != [] && Solid(parts[0])
    ensures Preprocess(Join(parts, sep)).Some?
  {
    JoinHead(parts, sep);
    var j := Join(parts, sep);
    assert j[0] == parts[0][0];
    PreprocessSomeIff(j);
  }

  /** Every line of a slide's text is solid. */
  lemma {:induction false} PartsSolid(slide: Slide)
    ensures forall j :: 0 <= j < |FlatMap(slide, ShapePart)| ==> Solid(FlatMap(slide, ShapePart)[j])
  {
    forall k, j | 0 <= k < |slide| && 0 <= j < |ShapePart(slide[k])|
      ensures Solid(ShapePart(slide[k])[j])
    {
      PreprocessSolid(Strip(slide[k].text.value));
    }
    FlatMapAll(slide, ShapePart, Solid);
  }

  /** The final cleaning never drops a slide that has a line. */
  lemma {:induction false} SlideTextSome(slide: Slide)
    ensures SlideText(slide).Some? <==> FlatMap(slide, ShapePart) != []
  {
    var parts := FlatMap(slide, ShapePart);
    if parts != [] {
      PartsSolid(slide);
      SolidJoin(parts, "\n");
      JoinHead(parts, "\n");
    }
  }

  /** A slide has text exactly when one of its shapes has a text that survives
      the cleaning. */
  lemma {:induction false} SlideTextIff(slide: Slide)
    ensures SlideText(slide).Some? <==>
      exists k :: 0 <= k < |slide| && slide[k].text.Some? && Preprocess(Strip(slide[k].text.value)).Some?
  {
    SlideTextSome(slide);
    FlatMapEmpty(slide, ShapePart);
  }

  /** A slide's text is stripped, on one line, and free of doubled `.`, `!` and `?`. */
  lemma {:induction false} SlideTextShape(slide: Slide)
    ensures SlideText(slide).Some? ==> var t := SlideText(slide).value;
      && t != [] && !IsSpace(t[0]) && !IsSpace(t[|t| - 1]) && '\n' !in t
      && !Contains(t, "..") && !Contains(t, "!!") && !Contains(t, "??")
  {
    PreprocessShape(Join(FlatMap(slide, ShapePart), "\n"));
  }

  // ---------------------------------------------------------------- grouping

  /** An entry of `section_texts` with its `text_page_numbers` list. */
  datatype Group = Group(section: string, subSection: string, texts: seq<string>, pages: seq<nat>)

  /** The configured (section, subsection) of a page, or the error reading the
      configuration raises. */
  type KeyOf = int -> Result<(string, string)>

  function ConfigKey(config: Option<string>): KeyOf {
    p => SectionConfig.Lookup(config, p)
  }

  /** The text of every slide, in order. */
  function SlideTexts(slides: seq<Slide>): (r: seq<Option<string>>)
    ensures |r| == |slides| && forall i :: 0 <= i < |slides| ==> r[i] == SlideText(slides[i])
  {
    seq(|slides|, i requires 0 <= i < |slides| => SlideText(slides[i]))
  }

  /** The position of the key in the dictionary, if present. */
  function FindGroup(groups: seq<Group>, section: string, sub: string): (r: Option<nat>)
    ensures r.Some? ==> r.value < |groups| && groups[r.value].section == section && groups[r.value].subSection == sub
    ensures r.None? ==> forall i :: 0 <= i < |groups| ==> !(groups[i].section == section && groups[i].subSection == sub)
  {
    if groups == [] then None
    else if groups[|groups| - 1].section == section && groups[|groups| - 1].subSection == sub then Some(|groups| - 1)
    else FindGroup(groups[..|groups| - 1], section, sub)
  }

  /** Appending a slide's text and page to the group of its key, creating the
      group at the end when the key is new. */
  function AddText(groups: seq<Group>, section: string, sub: string, text: string, page: nat): seq<Group> {
    match FindGroup(groups, section, sub)
    case None => groups + [Group(section, sub, [text], [page])]
    case Some(i) => groups[i := Group(section, sub, groups[i].texts + [text], groups[i].pages + [page])]
  }

  /** The two dictionaries after the slide loop over slides whose texts are
      `texts` (page `p` is `texts[p - 1]`), or the error the configuration raised. */
  function Collect(key: KeyOf, texts: seq<Option<string>>): Result<seq<Group>> {
    if texts == [] then Ok([])
    else
      match Collect(key, texts[..|texts| - 1])
      case Err(e) => Err(e)
      case Ok(groups) =>
        match key(|texts|)
        case Err(e) => Err(e)
        case Ok(k) =>
          match texts[|texts| - 1]
          case None => Ok(groups)
          case Some(t) => Ok(AddText(groups, k.0, k.1, t, |texts|))
  }

  /** The slide loop of `process_ppt`. */
  method CollectGroups(config: Option<string>, slides: seq<Slide>) returns (r: Result<seq<Group>>)
    ensures r == Collect(ConfigKey(config), SlideTexts(slides))
  {
    ghost var texts := SlideTexts(slides);
    var groups: seq<Group> := [];
    for idx := 0 to |slides|
      invariant Collect(ConfigKey(config), texts[..idx]) == Ok(groups)
    {
      CollectSnoc(ConfigKey(config), texts, idx);
      var pageNum := idx + 1;
      var key := SectionConfig.GetSectionAndSubsection(config, pageNum);
      if key.Err? {
        CollectErrStays(ConfigKey(config), texts, idx + 1);
        return Err(key.error);
      }
      var slideText := ExtractSlideText(slides[idx]);
      if slideText.Some? {
        groups := AddToGroup(groups, key.value.0, key.value.1, slideText.value, pageNum);
      }
    }
    assert texts[..|slides|] == texts;
    r := Ok(groups);
  }

  /** The dictionary update for one slide with text. */
  method AddToGroup(groups: seq<Group>, section: string, sub: string, text: string, page: nat)
    returns (r: seq<Group>)
    ensures r == AddText(groups, section, sub, text, page)
  {
    var found := FindGroup(groups, section, sub);
    if found.None? {
      r := groups + [Group(section, sub, [text], [page])];
    } else {
      var i := found.value;
      r := groups[i := Group(section, sub, groups[i].texts + [text], groups[i].pages + [page])];
    }
  }

  /** One step of the slide loop. */
  lemma {:induction false} CollectSnoc(key: KeyOf, texts: seq<Option<string>>, n: nat)
    requires n < |texts|
    ensures Collect(key, texts[..n + 1]) ==
      match Collect(key, texts[..n])
      case Err(e) => Err(e)
      case Ok(groups) =>
        match key(n + 1)
        case Err(e) => Err(e)
        case Ok(k) =>
          match texts[n]
          case None => Ok(groups)
          case Some(t) => Ok(AddText(groups, k.0, k.1, t, n + 1))
  {
    assert texts[..n + 1][..n] == texts[..n];
  }

  /** Once the loop has raised, the result is that error. */
  lemma {:induction false} CollectErrStays(key: KeyOf, texts: seq<Option<string>>, n: nat)
    requires n <= |texts| && Collect(key, texts[..n]).Err?
    ensures Collect(key, texts) == Collect(key, texts[..n])
    decreases |texts| - n
  {
    if n < |texts| {
      assert texts[..n + 1][..n] == texts[..n];
      CollectErrStays(key, texts, n + 1);
    } else {
      assert texts[..n] == texts;
    }
  }

  /** The loop raises exactly when the configuration raises for one of the pages,
      with or without text. */
  lemma {:induction false} CollectErr(key: KeyOf, texts: seq<Option<string>>)
    ensures Collect(key, texts).Err? <==> exists p :: 1 <= p <= |texts| && key(p).Err?
  {
    if texts != [] {
      var pre := texts[..|texts| - 1];
      CollectErr(key, pre);
    }
  }

  /** The dictionary after the loop: keys are distinct; each group has one page
      per text, its pages strictly increase and exist; groups are in the order of
      their first pages. */
  predicate WellGrouped(groups: seq<Group>, n: nat) {
    && (forall i, j :: 0 <= i < j < |groups| ==>
         !(groups[i].section == groups[j].section && groups[i].subSection == groups[j].subSection))
    && (forall i :: 0 <= i < |groups| ==> |groups[i].texts| == |groups[i].pages| > 0)
    && (forall i, a, b :: 0 <= i < |groups| && 0 <= a < b < |groups[i].pages| ==>
         groups[i].pages[a] < groups[i].pages[b])
    && (forall i, a :: 0 <= i < |groups| && 0 <= a < |groups[i].pages| ==> 1 <= groups[i].pages[a] <= n)
    && (forall i, j :: 0 <= i < j < |groups| ==> groups[i].pages[0] < groups[j].pages[0])
  }

  /** Adding page `n + 1` keeps the dictionary well grouped. */
  lemma {:induction false} AddTextGrouped(groups: seq<Group>, n: nat, section: string, sub: string, t: string)
    requires WellGrouped(groups, n)
    ensures WellGrouped(AddText(groups, section, sub, t, n + 1), n + 1)
  {
    match FindGroup(groups, section, sub)
    case None =>
      NewGroupGrouped(groups, n, section, sub, t);
    case Some(k) =>
      ExtendGroupGrouped(groups, n, k, t);
  }

  /** A new key gets a new group at the end, after all the others. */
  lemma {:induction false} NewGroupGrouped(groups: seq<Group>, n: nat, section: string, sub: string, t: string)
    requires WellGrouped(groups, n)
    requires forall i :: 0 <= i < |groups| ==> !(groups[i].section == section && groups[i].subSection == sub)
    ensures WellGrouped(groups + [Group(section, sub, [t], [n + 1])], n + 1)
  {
    var g2 := groups + [Group(section, sub, [t], [n + 1])];
    assert forall i :: 0 <= i < |groups| ==> g2[i] == groups[i];
  }

  /** A known key gets page `n + 1` at the end of its group. */
  lemma {:induction false} ExtendGroupGrouped(groups: seq<Group>, n: nat, k: nat, t: string)
    requires WellGrouped(groups, n) && k < |groups|
    ensures WellGrouped(groups[k := Group(groups[k].section, groups[k].subSection,
                                          groups[k].texts + [t], groups[k].pages + [n + 1])], n + 1)
  {
    var g := groups[k];
    var g2 := groups[k := Group(g.section, g.subSection, g.texts + [t], g.pages + [n + 1])];
    assert forall i :: 0 <= i < |groups| && i != k ==> g2[i] == groups[i];
    assert g2[k].pages[0] == g.pages[0];
    forall a, b | 0 <= a < b < |g2[k].pages|
      ensures g2[k].pages[a] < g2[k].pages[b]
    {
      if b == |g.pages| {
        assert g2[k].pages[a] == g.pages[a];
      }
    }
  }

  lemma {:induction false} WellGroupedMore(groups: seq<Group>, n: nat)
    requires WellGrouped(groups, n)
    ensures WellGrouped(groups, n + 1)
  {
  }

  lemma {:induction false} CollectGrouped(key: KeyOf, texts: seq<Option<string>>)
    requires Collect(key, texts).Ok?
    ensures WellGrouped(Collect(key, texts).value, |texts|)
  {
    if texts != [] {
      var pre := texts[..|texts| - 1];
      CollectGrouped(key, pre);
      var groups := Collect(key, pre).value;
      var k := key(|texts|).value;
      if texts[|texts| - 1].Some? {
        AddTextGrouped(groups, |pre|, k.0, k.1, texts[|texts| - 1].value);
      } else {
        WellGroupedMore(groups, |pre|);
      }
    }
  }

  /** Every page listed in a group is a page with text whose configured key is the
      group's, listed with that text. */
  predicate Placed(groups: seq<Group>, key: KeyOf, texts: seq<Option<string>>) {
    forall i, a :: 0 <= i < |groups| && 0 <= a < |groups[i].pages| && a < |groups[i].texts| ==>
      && 1 <= groups[i].pages[a] <= |texts|
      && texts[groups[i].pages[a] - 1] == Some(groups[i].texts[a])
      && key(groups[i].pages[a]) == Ok((groups[i].section, groups[i].subSection))
  }

  /** Every page with text is listed in some group. */
  predicate Covered(groups: seq<Group>, texts: seq<Option<string>>) {
    forall q :: 0 <= q < |texts| && texts[q].Some? ==>
      exists i, a :: 0 <= i < |groups| && 0 <= a < |groups[i].pages| && groups[i].pages[a] == q + 1
  }

  lemma {:induction false} CollectPlaced(key: KeyOf, texts: seq<Option<string>>)
    requires Collect(key, texts).Ok?
    ensures Placed(Collect(key, texts).value, key, texts)
  {
    if texts != [] {
      var n := |texts| - 1;
      var pre := texts[..n];
      CollectPlaced(key, pre);
      CollectGrouped(key, pre);
      var groups := Collect(key, pre).value;
      if texts[n].Some? {
        var k := key(n + 1).value;
        AddTextPlaced(groups, key, texts, k.0, k.1);
      } else {
        PlacedMore(groups, key, texts);
      }
    }
  }

  lemma {:induction false} PlacedMore(groups: seq<Group>, key: KeyOf, texts: seq<Option<string>>)
    requires texts != [] && Placed(groups, key, texts[..|texts| - 1])
    ensures Placed(groups, key, texts)
  {
    var pre := texts[..|texts| - 1];
    assert forall q :: 0 <= q < |pre| ==> pre[q] == texts[q];
  }

  lemma {:induction false} AddTextPlaced(groups: seq<Group>, key: KeyOf, texts: seq<Option<string>>,
                                         section: string, sub: string)
    requires texts != [] && texts[|texts| - 1].Some?
    requires key(|texts|) == Ok((section, sub))
    requires forall i :: 0 <= i < |groups| ==> |groups[i].texts| == |groups[i].pages|
    requires Placed(groups, key, texts[..|texts| - 1])
    ensures Placed(AddText(groups, section, sub, texts[|texts| - 1].value, |texts|), key, texts)
  {
    PlacedMore(groups, key, texts);
    match FindGroup(groups, section, sub)
    case None =>
      NewGroupPlaced(groups, key, texts, section, sub);
    case Some(k) =>
      ExtendGroupPlaced(groups, key, texts, k);
  }

  lemma {:induction false} NewGroupPlaced(groups: seq<Group>, key: KeyOf, texts: seq<Option<string>>,
                                          section: string, sub: string)
    requires texts != [] && texts[|texts| - 1].Some?
    requires key(|texts|) == Ok((section, sub))
    requires Placed(groups, key, texts)
    ensures Placed(groups + [Group(section, sub, [texts[|texts| - 1].value], [|texts|])], key, texts)
  {
    var g2 := groups + [Group(section, sub, [texts[|texts| - 1].value], [|texts|])];
    assert forall i :: 0 <= i < |groups| ==> g2[i] == groups[i];
  }

  lemma {:induction false} ExtendGroupPlaced(groups: seq<Group>, key: KeyOf, texts: seq<Option<string>>, k: nat)
    requires texts != [] && texts[|texts| - 1].Some? && k < |groups|
    requires key(|texts|) == Ok((groups[k].section, groups[k].subSection))
    requires |groups[k].texts| == |groups[k].pages|
    requires Placed(groups, key, texts)
    ensures Placed(groups[k := Group(groups[k].section, groups[k].subSection,
                                     groups[k].texts + [texts[|texts| - 1].value], groups[k].pages + [|texts|])],
                   key, texts)
  {
    var g := groups[k];
    var g2 := groups[k := Group(g.section, g.subSection, g.texts + [texts[|texts| - 1].value], g.pages + [|texts|])];
    assert forall i :: 0 <= i < |groups| && i != k ==> g2[i] == groups[i];
    forall a | 0 <= a < |g2[k].pages| && a < |g2[k].texts|
      ensures 1 <= g2[k].pages[a] <= |texts|
      ensures texts[g2[k].pages[a] - 1] == Some(g2[k].texts[a])
      ensures key(g2[k].pages[a]) == Ok((g2[k].section, g2[k].subSection))
    {
      if a < |g.pages| {
        assert g2[k].pages[a] == g.pages[a];
        assert g2[k].texts[a] == g.texts[a];
      }
    }
  }

  lemma {:induction false} CollectCovered(key: KeyOf, texts: seq<Option<string>>)
    requires Collect(key, texts).Ok?
    ensures Covered(Collect(key, texts).value, texts)
  {
    if texts != [] {
      var n := |texts| - 1;
      var pre := texts[..n];
      CollectCovered(key, pre);
      var groups := Collect(key, pre).value;
      var g2 := Collect(key, texts).value;
      var k := key(n + 1).value;
      forall q | 0 <= q < |texts| && texts[q].Some?
        ensures exists i, a :: 0 <= i < |g2| && 0 <= a < |g2[i].pages| && g2[i].pages[a] == q + 1
      {
        if q < n {
          assert pre[q] == texts[q];
          var i, a :| 0 <= i < |groups| && 0 <= a < |groups[i].pages| && groups[i].pages[a] == q + 1;
          AddTextKeeps(groups, k.0, k.1, texts[n], n + 1, i, a);
        } else {
          AddTextHas(groups, k.0, k.1, texts[n].value, n + 1);
        }
      }
    }
  }

  /** Pages already listed stay listed. */
  lemma {:induction false} AddTextKeeps(groups: seq<Group>, section: string, sub: string, t: Option<string>,
                                        page: nat, i: nat, a: nat)
    requires i < |groups| && a < |groups[i].pages|
    ensures var g2 := if t.Some? then AddText(groups, section, sub, t.value, page) else groups;
      i < |g2| && a < |g2[i].pages| && g2[i].pages[a] == groups[i].pages[a]
  {
  }

  /** The new page is listed. */
  lemma {:induction false} AddTextHas(groups: seq<Group>, section: string, sub: string, t: string, page: nat)
    ensures var g2 := AddText(groups, section, sub, t, page);
      exists i, a :: 0 <= i < |g2| && 0 <= a < |g2[i].pages| && g2[i].pages[a] == page
  {
    var g2 := AddText(groups, section, sub, t, page);
    match FindGroup(groups, section, sub)
    case None =>
      assert g2[|groups|].pages[0] == page;
    case Some(k) =>
      assert g2[k].pages[|groups[k].pages|] == page;
  }

  /** `process_ppt`'s dictionaries: distinct keys in first-seen order, every page
      with text listed once under the key of its page with its text, and nothing
      else; or the configuration's error, raised by any page with or without
      text. `CollectGroups` runs it with `ConfigKey(config)` and `SlideTexts(slides)`. */
  lemma {:induction false} CollectSpec(key: KeyOf, texts: seq<Option<string>>)
    ensures Collect(key, texts).Err? <==> exists p :: 1 <= p <= |texts| && key(p).Err?
    ensures Collect(key, texts).Ok? ==>
      && WellGrouped(Collect(key, texts).value, |texts|)
      && Placed(Collect(key, texts).value, key, texts)
      && Covered(Collect(key, texts).value, texts)
  {
    CollectErr(key, texts);
    if Collect(key, texts).Ok? {
      CollectGrouped(key, texts);
      CollectPlaced(key, texts);
      CollectCovered(key, texts);
    }
  }

  // ---------------------------------------------------------------- chunks

  /** `min(page_numbers)` and `max(page_numbers)`. */
  function MinOf(xs: seq<nat>): (m: nat)
    requires |xs| > 0
    ensures m in xs && forall k :: 0 <= k < |xs| ==> m <= xs[k]
  {
    if |xs| == 1 then xs[0]
    else var r := MinOf(xs[1..]); if xs[0] <= r then xs[0] else r
  }

  function MaxOf(xs: seq<nat>): (m: nat)
    requires |xs| > 0
    ensures m in xs && forall k :: 0 <= k < |xs| ==> xs[k] <= m
  {
    if |xs| == 1 then xs[0]
    else var r := MaxOf(xs[1..]); if xs[0] >= r then xs[0] else r
  }

  /** `page_range`. */
  function PageRange(pages: seq<nat>): string
    requires |pages| > 0
  {
    NatToString(MinOf(pages)) + "-" + NatToString(MaxOf(pages))
  }

  /** For increasing pages the range runs from the first page to the last, and
      a single page `n` gives `n-n`. */
  lemma {:induction false} PageRangeEnds(pages: seq<nat>)
    requires |pages| > 0
    requires forall a, b :: 0 <= a < b < |pages| ==> pages[a] < pages[b]
    ensures PageRange(pages) == NatToString(pages[0]) + "-" + NatToString(pages[|pages| - 1])
    ensures |pages| == 1 ==> PageRange(pages) == NatToString(pages[0]) + "-" + NatToString(pages[0])
  {
    var lo, hi := MinOf(pages), MaxOf(pages);
    assert lo <= pages[0] && pages[|pages| - 1] <= hi;
    var a :| 0 <= a < |pages| && pages[a] == lo;
    var b :| 0 <= b < |pages| && pages[b] == hi;
    assert pages[0] <= pages[a] && pages[b] <= pages[|pages| - 1] by {
      IncreasingFirst(pages, a);
      IncreasingLast(pages, b);
    }
  }

  lemma {:induction false} IncreasingFirst(pages: seq<nat>, a: nat)
    requires a < |pages|
    requires forall i, j :: 0 <= i < j < |pages| ==> pages[i] < pages[j]
    ensures pages[0] <= pages[a]
  {
    if a > 0 {
      assert pages[0] < pages[a];
    }
  }

  lemma {:induction false} IncreasingLast(pages: seq<nat>, b: nat)
    requires b < |pages|
    requires forall i, j :: 0 <= i < j < |pages| ==> pages[i] < pages[j]
    ensures pages[b] <= pages[|pages| - 1]
  {
    if b < |pages| - 1 {
      assert pages[b] < pages[|pages| - 1];
    }
  }

  /** The metadata of a chunk of a group. */
  datatype GroupMeta = GroupMeta(section: string, subSection: string, source: string, pageRange: string,
                                 chunkIndex: nat, totalChunksInSection: nat)

  /** The text splitter: `split_text` of the splitter the source configures. */
  type Splitter = string -> seq<string>

  /** The pieces of a group's text as chunks, numbered. */
  function Numbered(pieces: seq<string>, section: string, sub: string, source: string, pageRange: string)
    : seq<Chunk<GroupMeta>>
  {
    seq(|pieces|, i requires 0 <= i < |pieces| =>
      Chunk(pieces[i], GroupMeta(section, sub, source, pageRange, i, |pieces|)))
  }

  /** The chunks of one group: the split of its texts, one per line, numbered. */
  function GroupChunks(g: Group, split: Splitter, source: string): seq<Chunk<GroupMeta>>
    requires |g.pages| > 0
  {
    Numbered(split(Join(g.texts, "\n")), g.section, g.subSection, Upper(source), PageRange(g.pages))
  }

  /** Each chunk of a group carries one piece of the split, in order, its index
      among the pieces and their number, the group's key and page range, and the
      upper-cased file stem. */
  lemma {:induction false} GroupChunksSpec(g: Group, split: Splitter, source: string)
    requires |g.pages| > 0
    ensures var pieces := split(Join(g.texts, "\n"));
      && |GroupChunks(g, split, source)| == |pieces|
      && forall i :: 0 <= i < |pieces| ==>
        && GroupChunks(g, split, source)[i].text == pieces[i]
        && GroupChunks(g, split, source)[i].metadata.chunkIndex == i
        && GroupChunks(g, split, source)[i].metadata.totalChunksInSection == |pieces|
        && GroupChunks(g, split, source)[i].metadata.section == g.section
        && GroupChunks(g, split, source)[i].metadata.subSection == g.subSection
        && GroupChunks(g, split, source)[i].metadata.pageRange == PageRange(g.pages)
        && |GroupChunks(g, split, source)[i].metadata.source| == |source|
    ensures forall i, k :: 0 <= i < |GroupChunks(g, split, source)| && 0 <= k < |source| ==>
      GroupChunks(g, split, source)[i].metadata.source[k] == UpperChar(source[k])
  {
  }

  /** The chunks of the groups, group by group. */
  function AllChunks(groups: seq<Group>, split: Splitter, source: string): seq<Chunk<GroupMeta>>
    requires forall i :: 0 <= i < |groups| ==> |groups[i].pages| > 0
  {
    if groups == [] then []
    else AllChunks(groups[..|groups| - 1], split, source) + GroupChunks(groups[|groups| - 1], split, source)
  }

  lemma {:induction false} AllChunksSnoc(groups: seq<Group>, i: nat, split: Splitter, source: string)
    requires i < |groups| && forall j :: 0 <= j < |groups| ==> |groups[j].pages| > 0
    ensures AllChunks(groups[..i + 1], split, source) == AllChunks(groups[..i], split, source) + GroupChunks(groups[i], split, source)
  {
    assert groups[..i + 1][..i] == groups[..i];
  }

  /** Every chunk comes from one of the groups: it carries that group's key and
      page range, and an index below the number of chunks of its group. */
  lemma {:induction false} AllChunksFrom(groups: seq<Group>, split: Splitter, source: string)
    requires forall j :: 0 <= j < |groups| ==> |groups[j].pages| > 0
    ensures forall c :: c in AllChunks(groups, split, source) ==>
      && c.metadata.chunkIndex < c.metadata.totalChunksInSection
      && exists i :: 0 <= i < |groups| && c.metadata.section == groups[i].section
           && c.metadata.subSection == groups[i].subSection && c.metadata.pageRange == PageRange(groups[i].pages)
  {
    if groups != [] {
      var n := |groups| - 1;
      var pre := groups[..n];
      AllChunksFrom(pre, split, source);
      GroupChunksSpec(groups[n], split, source);
      forall c | c in AllChunks(groups, split, source)
        ensures c.metadata.chunkIndex < c.metadata.totalChunksInSection
        ensures exists i :: 0 <= i < |groups| && c.metadata.section == groups[i].section
                  && c.metadata.subSection == groups[i].subSection && c.metadata.pageRange == PageRange(groups[i].pages)
      {
        if c in AllChunks(pre, split, source) {
          var i :| 0 <= i < |pre| && c.metadata.section == pre[i].section
           && c.metadata.subSection == pre[i].subSection && c.metadata.pageRange == PageRange(pre[i].pages);
          assert pre[i] == groups[i];
        } else {
          assert c in GroupChunks(groups[n], split, source);
        }
      }
    }
  }

  /** `process_ppt`: the chunks and the file stem, or the configuration's error. */
  function Processed(config: Option<string>, slides: seq<Slide>, stem: string, split: Splitter)
    : Result<(seq<Chunk<GroupMeta>>, string)>
  {
    match Collect(ConfigKey(config), SlideTexts(slides))
    case Err(e) => Err(e)
    case Ok(groups) =>
      CollectGrouped(ConfigKey(config), SlideTexts(slides));
      Ok((AllChunks(groups, split, stem), stem))
  }

  /** The inner loop of the chunk phase. */
  method ChunkGroup(g: Group, split: Splitter, stem: string) returns (found: seq<Chunk<GroupMeta>>)
    requires |g.pages| > 0
    ensures found == GroupChunks(g, split, stem)
  {
    var pieces := split(Join(g.texts, "\n"));
    var pageRange := NatToString(MinOf(g.pages)) + "-" + NatToString(MaxOf(g.pages));
    found := [];
    for k := 0 to |pieces|
      invariant |found| == k
      invariant forall j :: 0 <= j < k ==>
        found[j] == Chunk(pieces[j], GroupMeta(g.section, g.subSection, Upper(stem), pageRange, j, |pieces|))
    {
      found := found + [Chunk(pieces[k], GroupMeta(g.section, g.subSection, Upper(stem), pageRange, k, |pieces|))];
    }
  }

  method ProcessPpt(config: Option<string>, slides: seq<Slide>, stem: string, split: Splitter)
    returns (r: Result<(seq<Chunk<GroupMeta>>, string)>)
    ensures r == Processed(config, slides, stem, split)
  {
    var collected := CollectGroups(config, slides);
    if collected.Err? {
      return Err(collected.error);
    }
    var groups := collected.value;
    CollectGrouped(ConfigKey(config), SlideTexts(slides));
    var allChunks: seq<Chunk<GroupMeta>> := [];
    for i := 0 to |groups|
      invariant allChunks == AllChunks(groups[..i], split, stem)
    {
      AllChunksSnoc(groups, i, split, stem);
      var found := ChunkGroup(groups[i], split, stem);
      allChunks := allChunks + found;
    }
    assert groups[..|groups|] == groups;
    r := Ok((allChunks, stem));
  }
}
