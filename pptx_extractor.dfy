/**
 * temp/code/pptx_structured_extractor.py: every slide of the deck becomes the list
 * of its non-blank shapes, each as a JSON object with its class, its stripped
 * text and the font and fill attributes that are set; slides without such a
 * shape are left out. Shapes, fonts, fills, the class rule and the optional key
 * slots are those of PptxElements.
 */
module PptxExtractor {
  import opened Outcomes
  import opened Text
  import opened PptxElements

  /** The dictionary `get_shape_text_info` returns. */
  datatype TextInfo = TextInfo(text: string, color: Option<string>, bold: Option<bool>,
                               size: Option<real>, fillColor: Option<string>)

  /** `get_shape_text_info`: `None` for a shape without text or with blank text. */
  function GetShapeTextInfo(s: Shape): Option<TextInfo> {
    if !HasText(s) then None
    else
      var color := if s.font.Some? then s.font.value.color else None;
      var bold := if s.font.Some? then s.font.value.bold else None;
      var size := if s.font.Some? then s.font.value.size else None;
      Some(TextInfo(Strip(s.text.value), color, bold, size, s.fill))
  }

  /** `classify_shape` of this script: no class without information, else the
      same priority rule as `classify_shape` of the element scripts. */
  function ClassifyInfo(info: Option<TextInfo>): Option<string> {
    if info.None? then None
    else Some(Classify(info.value.size, info.value.bold, info.value.fillColor))
  }

  /** The entry of one shape: `type` and `text`, then the optional keys. */
  function Entry(info: TextInfo): Json {
    var kind := Classify(info.size, info.bold, info.fillColor);
    JObj([("type", JStr(kind)), ("text", JStr(info.text))] + InfoOptional(info))
  }

  /** The optional keys of an entry, each present when its attribute is set. */
  function InfoOptional(info: TextInfo): seq<(string, Json)> {
    Slot(Truthy(info.color), "color", if info.color.Some? then JStr(info.color.value) else JStr(""))
    + Slot(info.bold.Some?, "bold", if info.bold.Some? then JBool(info.bold.value) else JBool(false))
    + Slot(NonZero(info.size), "size", if info.size.Some? then JReal(info.size.value) else JReal(0.0))
    + Slot(Truthy(info.fillColor), "fill_color", if info.fillColor.Some? then JStr(info.fillColor.value) else JStr(""))
  }

  function ShapeEntries(s: Shape): seq<Json> {
    match GetShapeTextInfo(s)
    case None => []
    case Some(info) => [Entry(info)]
  }

  /** The entries of a slide, in shape order. */
  function SlideStructured(slide: Slide): seq<Json> {
    FlatMap(slide, ShapeEntries)
  }

  /** The body of the shape loop for a shape with information. */
  method BuildEntry(info: TextInfo) returns (entry: Json)
    ensures entry == Entry(info)
  {
    var kind := ClassifyInfo(Some(info));
    var fields := [("type", JStr(kind.value)), ("text", JStr(info.text))];
    var s1 := [];
    if Truthy(info.color) {
      s1 := [("color", JStr(info.color.value))];
    }
    var s2 := [];
    if info.bold.Some? {
      s2 := [("bold", JBool(info.bold.value))];
    }
    var s3 := [];
    if NonZero(info.size) {
      s3 := [("size", JReal(info.size.value))];
    }
    var s4 := [];
    if Truthy(info.fillColor) {
      s4 := [("fill_color", JStr(info.fillColor.value))];
    }
    var optional := s1 + s2 + s3 + s4;
    entry := JObj(fields + optional);
  }

  /** `extract_slide_structured`. */
  method ExtractSlideStructured(slide: Slide) returns (entries: seq<Json>)
    ensures entries == SlideStructured(slide)
  {
    entries := [];
    for k := 0 to |slide|
      invariant entries == FlatMap(slide[..k], ShapeEntries)
    {
      FlatMapSnoc(slide, k, ShapeEntries);
      var info := GetShapeTextInfo(slide[k]);
      if info.Some? {
        var entry := BuildEntry(info.value);
        entries := entries + [entry];
      }
    }
    assert slide[..|slide|] == slide;
  }

  // ------------------------------------------------- agreement with the elements

  /** An element written the way this script writes a shape: `text` in place of
      `content`, no `bbox` and no `children`. */
  function AsEntry(e: Element): Json {
    JObj([("type", JStr(e.kind)), ("text", JStr(e.content))] + OptionalFields(e))
  }

  function AsEntries(es: seq<Element>): seq<Json> {
    seq(|es|, j requires 0 <= j < |es| => AsEntry(es[j]))
  }

  /** The two scripts see the same shapes in the same order and classify them
      alike: each entry here is the corresponding structured element with the
      same text, class and optional attributes. */
  lemma {:induction false} StructuredMatchesElements(slide: Slide)
    ensures SlideStructured(slide) == AsEntries(Elements(slide))
    decreases |slide|
  {
    if slide != [] {
      var pre := slide[..|slide| - 1];
      var s := slide[|slide| - 1];
      StructuredMatchesElements(pre);
      assert SlideStructured(slide) == SlideStructured(pre) + ShapeEntries(s);
      assert Elements(slide) == Elements(pre) + ShapeElements(s);
      AsEntriesAppend(Elements(pre), ShapeElements(s));
      ShapeEntriesMatch(s);
    }
  }

  lemma {:induction false} ShapeEntriesMatch(s: Shape)
    ensures ShapeEntries(s) == AsEntries(ShapeElements(s))
  {
    if HasText(s) {
      assert |s.text.value| > 0;
      var info, e := GetShapeTextInfo(s).value, ElementOf(s);
      assert info.text == e.content;
      assert info.color == e.color && info.bold == e.bold && info.size == e.size && info.fillColor == e.fillColor;
      assert Classify(info.size, info.bold, info.fillColor) == e.kind;
      EntryMatch(info, e);
    }
  }

  lemma {:induction false} EntryMatch(info: TextInfo, e: Element)
    requires info.text == e.content && Classify(info.size, info.bold, info.fillColor) == e.kind
    requires info.color == e.color && info.bold == e.bold && info.size == e.size && info.fillColor == e.fillColor
    ensures Entry(info) == AsEntry(e)
  {
  }

  lemma {:induction false} AsEntriesAppend(a: seq<Element>, b: seq<Element>)
    ensures AsEntries(a + b) == AsEntries(a) + AsEntries(b)
  {
  }

  /** After `type` and `text` an entry holds exactly the keys and values that
      follow the four fixed keys in the element's `to_dict`. */
  lemma {:induction false} EntryOptionalAsDict(e: Element)
    ensures AsEntry(e).fields[2..] == ToDict(e).fields[4..]
    ensures AsEntry(e).fields[..2] == [("type", JStr(e.kind)), ("text", JStr(e.content))]
  {
    DictFields(e);
    assert |FixedFields(e)| == 4;
    assert (FixedFields(e) + OptionalFields(e))[4..] == OptionalFields(e);
  }

  /** A slide has entries exactly when it has structured elements, that is, when
      one of its shapes has a non-blank text. */
  lemma {:induction false} SlideStructuredEmpty(slide: Slide)
    ensures SlideStructured(slide) == [] <==> forall k :: 0 <= k < |slide| ==> !HasText(slide[k])
  {
    StructuredMatchesElements(slide);
    ElementsEmpty(slide);
  }

  // ------------------------------------------------- the deck

  /** An item of `all_slides`. */
  datatype SlideRecord = SlideRecord(slideNumber: nat, contents: seq<Json>)

  function RecordOf(slide: Slide, idx: nat): seq<SlideRecord> {
    var contents := SlideStructured(slide);
    if |contents| > 0 then [SlideRecord(idx + 1, contents)] else []
  }

  /** `all_slides` after the first `|slides|` slides. */
  function Records(slides: seq<Slide>): seq<SlideRecord> {
    if slides == [] then []
    else Records(slides[..|slides| - 1]) + RecordOf(slides[|slides| - 1], |slides| - 1)
  }

  /** `extract_pptx_structured`. */
  method ExtractPptxStructured(slides: seq<Slide>) returns (all: seq<SlideRecord>)
    ensures all == Records(slides)
  {
    all := [];
    for idx := 0 to |slides|
      invariant all == Records(slides[..idx])
    {
      assert slides[..idx + 1][..idx] == slides[..idx];
      var contents := ExtractSlideStructured(slides[idx]);
      if |contents| > 0 {
        all := all + [SlideRecord(idx + 1, contents)];
      }
    }
    assert slides[..|slides|] == slides;
  }

  /** Every record names an existing slide by its 1-based number and holds that
      slide's entries, which are not empty. */
  predicate Numbered(slides: seq<Slide>, rs: seq<SlideRecord>) {
    forall j :: 0 <= j < |rs| ==> NumberedRecord(slides, rs[j])
  }

  predicate NumberedRecord(slides: seq<Slide>, r: SlideRecord) {
    1 <= r.slideNumber <= |slides|
    && r.contents == SlideStructured(slides[r.slideNumber - 1])
    && r.contents != []
  }

  /** The slide numbers increase. */
  predicate Increasing(rs: seq<SlideRecord>) {
    forall i, j :: 0 <= i < j < |rs| ==> rs[i].slideNumber < rs[j].slideNumber
  }

  predicate Listed(rs: seq<SlideRecord>, number: nat) {
    exists j :: 0 <= j < |rs| && rs[j].slideNumber == number
  }

  /** A slide has a record exactly when it has entries. */
  predicate Complete(slides: seq<Slide>, rs: seq<SlideRecord>) {
    forall idx :: 0 <= idx < |slides| ==> (SlideStructured(slides[idx]) != [] <==> Listed(rs, idx + 1))
  }

  /** `all_slides` lists, in slide order, exactly the slides with entries, each
      once with its 1-based number and its entries. */
  lemma {:induction false} RecordsSpec(slides: seq<Slide>)
    ensures Numbered(slides, Records(slides))
    ensures Increasing(Records(slides))
    ensures Complete(slides, Records(slides))
  {
    RecordsNumbered(slides);
    RecordsIncreasing(slides);
    RecordsComplete(slides);
  }

  lemma {:induction false} RecordsNumbered(slides: seq<Slide>)
    ensures Numbered(slides, Records(slides))
    decreases |slides|
  {
    if slides != [] {
      var n := |slides| - 1;
      var pre := slides[..n];
      RecordsNumbered(pre);
      NumberedPrefix(slides, n, Records(pre));
      NumberedRecordOf(slides, n);
      NumberedAppend(slides, Records(pre), RecordOf(slides[n], n));
    }
  }

  /** A record numbered against the first `n` slides is numbered against them all. */
  lemma {:induction false} NumberedPrefix(slides: seq<Slide>, n: nat, rs: seq<SlideRecord>)
    requires n <= |slides| && Numbered(slides[..n], rs)
    ensures Numbered(slides, rs)
  {
    forall j | 0 <= j < |rs|
      ensures NumberedRecord(slides, rs[j])
    {
      assert NumberedRecord(slides[..n], rs[j]);
      assert slides[..n][rs[j].slideNumber - 1] == slides[rs[j].slideNumber - 1];
    }
  }

  lemma {:induction false} NumberedRecordOf(slides: seq<Slide>, n: nat)
    requires n < |slides|
    ensures Numbered(slides, RecordOf(slides[n], n))
  {
  }

  lemma {:induction false} NumberedAppend(slides: seq<Slide>, a: seq<SlideRecord>, b: seq<SlideRecord>)
    requires Numbered(slides, a) && Numbered(slides, b)
    ensures Numbered(slides, a + b)
  {
    forall j | 0 <= j < |a + b|
      ensures NumberedRecord(slides, (a + b)[j])
    {
      if j < |a| {
        assert (a + b)[j] == a[j];
      } else {
        assert (a + b)[j] == b[j - |a|];
      }
    }
  }

  lemma {:induction false} RecordsIncreasing(slides: seq<Slide>)
    ensures Increasing(Records(slides))
    decreases |slides|
  {
    if slides != [] {
      var n := |slides| - 1;
      var pre := slides[..n];
      RecordsIncreasing(pre);
      RecordsNumbered(pre);
      var a, b := Records(pre), RecordOf(slides[n], n);
      var all := Records(slides);
      assert all == a + b;
      forall i, j | 0 <= i < j < |all|
        ensures all[i].slideNumber < all[j].slideNumber
      {
        assert all[i] == a[i];
        if j < |a| {
          assert all[j] == a[j];
        }
      }
    }
  }

  lemma {:induction false} RecordsComplete(slides: seq<Slide>)
    ensures Complete(slides, Records(slides))
    decreases |slides|
  {
    if slides != [] {
      var n := |slides| - 1;
      var pre := slides[..n];
      RecordsComplete(pre);
      RecordsBelow(pre);
      CompleteStep(slides, Records(pre), RecordOf(slides[n], n));
    }
  }

  lemma {:induction false} CompleteStep(slides: seq<Slide>, a: seq<SlideRecord>, b: seq<SlideRecord>)
    requires slides != [] && Complete(slides[..|slides| - 1], a)
    requires forall j :: 0 <= j < |a| ==> a[j].slideNumber <= |slides| - 1
    requires b == RecordOf(slides[|slides| - 1], |slides| - 1)
    ensures Complete(slides, a + b)
  {
    var n := |slides| - 1;
    forall idx | 0 <= idx < |slides|
      ensures SlideStructured(slides[idx]) != [] <==> Listed(a + b, idx + 1)
    {
      if idx < n {
        assert slides[idx] == slides[..n][idx];
        ListedOld(a, b, n, idx + 1);
      } else {
        ListedNew(a, b, n, slides[n]);
      }
    }
  }

  lemma {:induction false} RecordsBelow(slides: seq<Slide>)
    ensures forall j :: 0 <= j < |Records(slides)| ==> Records(slides)[j].slideNumber <= |slides|
  {
    RecordsNumbered(slides);
  }

  /** A number at most `n` is listed after a record for slide `n + 1` exactly when
      it was listed before. */
  lemma {:induction false} ListedOld(a: seq<SlideRecord>, b: seq<SlideRecord>, n: nat, number: nat)
    requires forall j :: 0 <= j < |a| ==> a[j].slideNumber <= n
    requires forall j :: 0 <= j < |b| ==> b[j].slideNumber == n + 1
    requires number <= n
    ensures Listed(a + b, number) <==> Listed(a, number)
  {
    if Listed(a + b, number) {
      var j :| 0 <= j < |a + b| && (a + b)[j].slideNumber == number;
      assert (a + b)[j] == a[j];
    }
    if Listed(a, number) {
      var j :| 0 <= j < |a| && a[j].slideNumber == number;
      assert (a + b)[j] == a[j];
    }
  }

  lemma {:induction false} ListedNew(a: seq<SlideRecord>, b: seq<SlideRecord>, n: nat, slide: Slide)
    requires forall j :: 0 <= j < |a| ==> a[j].slideNumber <= n
    requires b == RecordOf(slide, n)
    ensures SlideStructured(slide) != [] <==> Listed(a + b, n + 1)
  {
    if SlideStructured(slide) != [] {
      assert (a + b)[|a|].slideNumber == n + 1;
    }
    if Listed(a + b, n + 1) {
      var j :| 0 <= j < |a + b| && (a + b)[j].slideNumber == n + 1;
      if j < |a| {
        assert (a + b)[j] == a[j];
      }
    }
  }
}
