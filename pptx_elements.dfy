/**
 * The structured elements of temp/code/pptx_structured_elements.py and
 * temp/code/pptx_chunks_with_structure.py, which carry identical copies of
 * `StructuredElement`, `get_shape_info`, `classify_shape` and
 * `extract_structured_elements`: every shape with text becomes an element
 * holding its stripped text, its bounding box, its first run's font and its
 * fill, classified by a priority rule; `to_dict` writes an element as a JSON
 * object with optional keys. `extract_pptx_structured_meta_by_section` lists
 * the elements of every slide of the three ESG index ranges.
 * A shape is taken as the values python-pptx gives for it.
 */
module PptxElements {
  import opened Outcomes
  import opened Text
  import PdfPages

  /** A JSON value as `json.dump` writes it; an object keeps its keys in insertion
      order. */
  datatype Json =
    | JBool(b: bool)
    | JInt(i: int)
    | JReal(r: real)
    | JStr(s: string)
    | JList(items: seq<Json>)
    | JObj(fields: seq<(string, Json)>)

  /** `d.get(key)`. */
  function Lookup(fields: seq<(string, Json)>, key: string): Option<Json> {
    if fields == [] then None
    else if fields[0].0 == key then Some(fields[0].1)
    else Lookup(fields[1..], key)
  }

  function Keys(fields: seq<(string, Json)>): seq<string> {
    seq(|fields|, i requires 0 <= i < |fields| => fields[i].0)
  }

  /** The font of the first run of a shape's first paragraph: `color` is
      `str(font.color.rgb)` when both are set, `bold` is `font.bold`, and `size`
      is `font.size.pt` when `font.size` is set. */
  datatype Font = Font(color: Option<string>, bold: Option<bool>, size: Option<real>)

  /** A shape: its text (`None` when it has no `text` attribute), its position and
      extent, the font of its first run (`None` when it has no text frame, its
      first paragraph has no run, or the lookup raised) and `str(fore_color.rgb)`
      of its fill when that is set. */
  datatype Shape = Shape(text: Option<string>, left: int, top: int, width: int, height: int,
                         font: Option<Font>, fill: Option<string>)

  type Slide = seq<Shape>

  /** Python truthiness of an optional string and of an optional number. */
  predicate Truthy(o: Option<string>) {
    o.Some? && |o.value| > 0
  }

  predicate NonZero(o: Option<real>) {
    o.Some? && o.value != 0.0
  }

  /** `StructuredElement`: `kind` is its `type` attribute. */
  datatype Element = Element(kind: string, content: string, bbox: seq<int>,
                             color: Option<string>, bold: Option<bool>, size: Option<real>,
                             fillColor: Option<string>, children: seq<Element>)

  function Ints(xs: seq<int>): seq<Json> {
    seq(|xs|, i requires 0 <= i < |xs| => JInt(xs[i]))
  }

  /** `StructuredElement.to_dict`. */
  function ToDict(e: Element): (r: Json)
    ensures r.JObj?
    decreases e
  {
    JObj(
      [("type", JStr(e.kind)), ("content", JStr(e.content)), ("bbox", JList(Ints(e.bbox))),
       ("children", JList(seq(|e.children|, i requires 0 <= i < |e.children| => ToDict(e.children[i]))))]
      + OptionalFields(e))
  }

  /** `[e.to_dict() for e in elements]`. */
  function Dicts(es: seq<Element>): seq<Json> {
    seq(|es|, i requires 0 <= i < |es| => ToDict(es[i]))
  }

  /** The keys of a dictionary: `type`, `content`, `bbox` and `children` always, in
      that order, then `color`, `size` and `fill_color` when truthy and `bold`
      whenever it is set, `False` included. */
  function DictKeys(e: Element): seq<string> {
    ["type", "content", "bbox", "children"]
    + (if Truthy(e.color) then ["color"] else [])
    + (if e.bold.Some? then ["bold"] else [])
    + (if NonZero(e.size) then ["size"] else [])
    + (if Truthy(e.fillColor) then ["fill_color"] else [])
  }

  /** The four keys every dictionary has. */
  function FixedFields(e: Element): seq<(string, Json)> {
    [("type", JStr(e.kind)), ("content", JStr(e.content)), ("bbox", JList(Ints(e.bbox))),
     ("children", JList(Dicts(e.children)))]
  }

  /** A key that is written only when `present`. */
  function Slot(present: bool, key: string, v: Json): seq<(string, Json)> {
    if present then [(key, v)] else []
  }

  /** The keys set only when their attribute is truthy (`bold`: when it is set). */
  function OptionalFields(e: Element): seq<(string, Json)> {
    Slot(Truthy(e.color), "color", if e.color.Some? then JStr(e.color.value) else JStr(""))
    + Slot(e.bold.Some?, "bold", if e.bold.Some? then JBool(e.bold.value) else JBool(false))
    + Slot(NonZero(e.size), "size", if e.size.Some? then JReal(e.size.value) else JReal(0.0))
    + Slot(Truthy(e.fillColor), "fill_color", if e.fillColor.Some? then JStr(e.fillColor.value) else JStr(""))
  }

  lemma {:induction false} DictFields(e: Element)
    ensures ToDict(e).fields == FixedFields(e) + OptionalFields(e)
  {
    var children := seq(|e.children|, i requires 0 <= i < |e.children| => ToDict(e.children[i]));
    assert children == Dicts(e.children);
  }

  /** A lookup in two runs of fields finds the first run's entry when it has one. */
  lemma {:induction false} LookupAppend(a: seq<(string, Json)>, b: seq<(string, Json)>, key: string)
    ensures Lookup(a + b, key) == if Lookup(a, key).Some? then Lookup(a, key) else Lookup(b, key)
    decreases |a|
  {
    if a != [] {
      assert (a + b)[0] == a[0];
      if a[0].0 == key {
        assert Lookup(a + b, key) == Some(a[0].1);
      } else {
        assert (a + b)[1..] == a[1..] + b;
        LookupAppend(a[1..], b, key);
        assert Lookup(a + b, key) == Lookup(a[1..] + b, key);
      }
    } else {
      assert a + b == b;
    }
  }

  lemma {:induction false} LookupSlot(present: bool, k: string, v: Json, key: string)
    ensures Lookup(Slot(present, k, v), key) == if present && k == key then Some(v) else None
  {
    if present {
      assert Slot(present, k, v)[1..] == [];
    }
  }

  lemma {:induction false} KeysAppend(a: seq<(string, Json)>, b: seq<(string, Json)>)
    ensures Keys(a + b) == Keys(a) + Keys(b)
  {
  }

  /** Looking a key up in four optional slots. */
  lemma {:induction false} LookupSlots(s1: seq<(string, Json)>, s2: seq<(string, Json)>,
                                       s3: seq<(string, Json)>, s4: seq<(string, Json)>, key: string)
    ensures Lookup(s1 + s2 + s3 + s4, key)
      == if Lookup(s1, key).Some? then Lookup(s1, key)
         else if Lookup(s2, key).Some? then Lookup(s2, key)
         else if Lookup(s3, key).Some? then Lookup(s3, key)
         else Lookup(s4, key)
  {
    LookupAppend(s1 + s2 + s3, s4, key);
    LookupAppend(s1 + s2, s3, key);
    LookupAppend(s1, s2, key);
  }

  /** What `to_dict` writes: the keys above, each once, each mapped to its
      attribute, with the children written by `to_dict` in turn. */
  lemma {:induction false} ToDictSpec(e: Element)
    ensures Keys(ToDict(e).fields) == DictKeys(e)
    ensures Lookup(ToDict(e).fields, "type") == Some(JStr(e.kind))
    ensures Lookup(ToDict(e).fields, "content") == Some(JStr(e.content))
    ensures Lookup(ToDict(e).fields, "bbox") == Some(JList(Ints(e.bbox)))
    ensures Lookup(ToDict(e).fields, "children") == Some(JList(Dicts(e.children)))
    ensures Lookup(ToDict(e).fields, "color") == if Truthy(e.color) then Some(JStr(e.color.value)) else None
    ensures Lookup(ToDict(e).fields, "bold") == if e.bold.Some? then Some(JBool(e.bold.value)) else None
    ensures Lookup(ToDict(e).fields, "size") == if NonZero(e.size) then Some(JReal(e.size.value)) else None
    ensures Lookup(ToDict(e).fields, "fill_color") == if Truthy(e.fillColor) then Some(JStr(e.fillColor.value)) else None
  {
    DictFields(e);
    DictKeysOf(e);
    FixedLookups(e);
    OptionalLookup(e, "color");
    OptionalLookup(e, "bold");
    OptionalLookup(e, "size");
    OptionalLookup(e, "fill_color");
  }

  lemma {:induction false} KeysSlot(present: bool, k: string, v: Json)
    ensures Keys(Slot(present, k, v)) == if present then [k] else []
  {
  }

  lemma {:induction false} DictKeysOf(e: Element)
    ensures Keys(FixedFields(e) + OptionalFields(e)) == DictKeys(e)
  {
    KeysAppend(FixedFields(e), OptionalFields(e));
    KeysFixed(e);
    KeysOptional(e);
  }

  lemma {:induction false} KeysFixed(e: Element)
    ensures Keys(FixedFields(e)) == ["type", "content", "bbox", "children"]
  {
  }

  lemma {:induction false} KeysOptional(e: Element)
    ensures Keys(OptionalFields(e)) ==
      (if Truthy(e.color) then ["color"] else [])
      + (if e.bold.Some? then ["bold"] else [])
      + (if NonZero(e.size) then ["size"] else [])
      + (if Truthy(e.fillColor) then ["fill_color"] else [])
  {
    var c1, k1, v1 := Truthy(e.color), "color", if e.color.Some? then JStr(e.color.value) else JStr("");
    var c2, k2, v2 := e.bold.Some?, "bold", if e.bold.Some? then JBool(e.bold.value) else JBool(false);
    var c3, k3, v3 := NonZero(e.size), "size", if e.size.Some? then JReal(e.size.value) else JReal(0.0);
    var c4, k4, v4 := Truthy(e.fillColor), "fill_color", if e.fillColor.Some? then JStr(e.fillColor.value) else JStr("");
    var s1, s2, s3, s4 := Slot(c1, k1, v1), Slot(c2, k2, v2), Slot(c3, k3, v3), Slot(c4, k4, v4);
    KeysAppend(s1 + s2 + s3, s4);
    KeysAppend(s1 + s2, s3);
    KeysAppend(s1, s2);
    KeysSlot(c1, k1, v1);
    KeysSlot(c2, k2, v2);
    KeysSlot(c3, k3, v3);
    KeysSlot(c4, k4, v4);
  }

  /** The lookup finds the first field with the key. */
  lemma {:induction false} LookupAt(fs: seq<(string, Json)>, i: nat, key: string)
    requires i < |fs| && fs[i].0 == key
    requires forall j :: 0 <= j < i ==> fs[j].0 != key
    ensures Lookup(fs, key) == Some(fs[i].1)
  {
    if i > 0 {
      LookupAt(fs[1..], i - 1, key);
    }
  }

  lemma {:induction false} LookupMissing(fs: seq<(string, Json)>, key: string)
    requires forall j :: 0 <= j < |fs| ==> fs[j].0 != key
    ensures Lookup(fs, key) == None
  {
    if fs != [] {
      LookupMissing(fs[1..], key);
    }
  }

  lemma {:induction false} FixedLookups(e: Element)
    ensures Lookup(FixedFields(e) + OptionalFields(e), "type") == Some(JStr(e.kind))
    ensures Lookup(FixedFields(e) + OptionalFields(e), "content") == Some(JStr(e.content))
    ensures Lookup(FixedFields(e) + OptionalFields(e), "bbox") == Some(JList(Ints(e.bbox)))
    ensures Lookup(FixedFields(e) + OptionalFields(e), "children") == Some(JList(Dicts(e.children)))
  {
    var fixed := FixedFields(e);
    LookupAt(fixed, 0, "type");
    LookupAt(fixed, 1, "content");
    LookupAt(fixed, 2, "bbox");
    LookupAt(fixed, 3, "children");
    LookupAppend(fixed, OptionalFields(e), "type");
    LookupAppend(fixed, OptionalFields(e), "content");
    LookupAppend(fixed, OptionalFields(e), "bbox");
    LookupAppend(fixed, OptionalFields(e), "children");
  }

  /** An optional key is not among the fixed ones, so its lookup goes to the
      optional slots, where each key is at most once. */
  lemma {:induction false} OptionalLookup(e: Element, key: string)
    requires key in ["color", "bold", "size", "fill_color"]
    ensures Lookup(FixedFields(e) + OptionalFields(e), key) ==
      if key == "color" then (if Truthy(e.color) then Some(JStr(e.color.value)) else None)
      else if key == "bold" then (if e.bold.Some? then Some(JBool(e.bold.value)) else None)
      else if key == "size" then (if NonZero(e.size) then Some(JReal(e.size.value)) else None)
      else (if Truthy(e.fillColor) then Some(JStr(e.fillColor.value)) else None)
  {
    var fixed := FixedFields(e);
    LookupMissing(fixed, key);
    LookupAppend(fixed, OptionalFields(e), key);
    var c1, k1, v1 := Truthy(e.color), "color", if e.color.Some? then JStr(e.color.value) else JStr("");
    var c2, k2, v2 := e.bold.Some?, "bold", if e.bold.Some? then JBool(e.bold.value) else JBool(false);
    var c3, k3, v3 := NonZero(e.size), "size", if e.size.Some? then JReal(e.size.value) else JReal(0.0);
    var c4, k4, v4 := Truthy(e.fillColor), "fill_color", if e.fillColor.Some? then JStr(e.fillColor.value) else JStr("");
    LookupSlots(Slot(c1, k1, v1), Slot(c2, k2, v2), Slot(c3, k3, v3), Slot(c4, k4, v4), key);
    LookupSlot(c1, k1, v1, key);
    LookupSlot(c2, k2, v2, key);
    LookupSlot(c3, k3, v3, key);
    LookupSlot(c4, k4, v4, key);
    if key == "color" {
      assert k2 != key && k3 != key && k4 != key;
    } else if key == "bold" {
      assert k1 != key && k3 != key && k4 != key;
    } else if key == "size" {
      assert k1 != key && k2 != key && k4 != key;
    } else {
      assert k1 != key && k2 != key && k3 != key;
    }
  }

  /** `get_shape_info`'s text: the stripped text when there is a non-empty one. */
  function ShapeText(s: Shape): string {
    if s.text.Some? && |s.text.value| > 0 then Strip(s.text.value) else ""
  }

  /** `[left, top, left + width, top + height]`: the corners of the shape. */
  function BBox(s: Shape): (r: seq<int>)
    ensures |r| == 4 && r[0] == s.left && r[1] == s.top
    ensures r[2] - r[0] == s.width && r[3] - r[1] == s.height
  {
    [s.left, s.top, s.left + s.width, s.top + s.height]
  }

  /** `classify_shape`: `section` for a size of at least 24 points, else `group`
      for a fill other than the text `None`, else `subsection` when bold, else
      `text`. The shape-type argument of the source is never read and is not a
      parameter here. */
  function Classify(size: Option<real>, bold: Option<bool>, fill: Option<string>): string {
    if NonZero(size) && size.value >= 24.0 then "section"
    else if Truthy(fill) && fill.value != "None" then "group"
    else if bold == Some(true) then "subsection"
    else "text"
  }

  /** The shape loop keeps a shape whose text is not blank. */
  predicate HasText(s: Shape) {
    s.text.Some? && |Strip(s.text.value)| > 0
  }

  /** The element of a kept shape. */
  function ElementOf(s: Shape): Element {
    var color := if s.font.Some? then s.font.value.color else None;
    var bold := if s.font.Some? then s.font.value.bold else None;
    var size := if s.font.Some? then s.font.value.size else None;
    Element(Classify(size, bold, s.fill), ShapeText(s), BBox(s), color, bold, size, s.fill, [])
  }

  function ShapeElements(s: Shape): seq<Element> {
    if HasText(s) then [ElementOf(s)] else []
  }

  /** The elements of a slide, in shape order. */
  function Elements(slide: Slide): seq<Element> {
    FlatMap(slide, ShapeElements)
  }

  /** `extract_structured_elements`. */
  method ExtractStructuredElements(slide: Slide) returns (elements: seq<Element>)
    ensures elements == Elements(slide)
  {
    elements := [];
    for k := 0 to |slide|
      invariant elements == FlatMap(slide[..k], ShapeElements)
    {
      FlatMapSnoc(slide, k, ShapeElements);
      var shape := slide[k];
      if shape.text.Some? && |Strip(shape.text.value)| > 0 {
        var color, bold, size := None, None, None;
        if shape.font.Some? {
          color, bold, size := shape.font.value.color, shape.font.value.bold, shape.font.value.size;
        }
        var elem := Element(Classify(size, bold, shape.fill), ShapeText(shape), BBox(shape),
                            color, bold, size, shape.fill, []);
        elements := elements + [elem];
      }
    }
    assert slide[..|slide|] == slide;
  }

  /** The elements are one per shape with a non-blank text, in shape order: each
      holds the shape's stripped text, which is not empty, no children, and the
      class of the shape's font and fill. */
  lemma {:induction false} ElementsSpec(slide: Slide)
    ensures |Elements(slide)| == |Positions(slide, HasText)|
    ensures forall j :: 0 <= j < |Positions(slide, HasText)| ==> Positions(slide, HasText)[j] < |slide|
    ensures forall j :: 0 <= j < |Elements(slide)| ==>
      var s := slide[Positions(slide, HasText)[j]];
      && HasText(s) && Elements(slide)[j] == ElementOf(s)
      && Elements(slide)[j].content == Strip(s.text.value) && |Elements(slide)[j].content| > 0
      && Elements(slide)[j].children == []
    ensures forall i, j :: 0 <= i < j < |Elements(slide)| ==>
      Positions(slide, HasText)[i] < Positions(slide, HasText)[j]
    ensures forall k :: 0 <= k < |slide| ==> (HasText(slide[k]) <==> k in Positions(slide, HasText))
  {
    FilterMapSpec(slide, HasText, ElementOf, ShapeElements);
  }

  /** A slide has elements exactly when one of its shapes has a non-blank text. */
  lemma {:induction false} ElementsEmpty(slide: Slide)
    ensures Elements(slide) == [] <==> forall k :: 0 <= k < |slide| ==> !HasText(slide[k])
  {
    FlatMapEmpty(slide, ShapeElements);
  }

  // ---------------------------------------------------------------- by section

  /** An entry of a section's list: the 1-based slide number and the slide's
      element dictionaries. */
  datatype SlideEntry = SlideEntry(slideNumber: nat, elements: seq<Json>)

  function EntryItem(slide: Slide, idx: nat): SlideEntry {
    SlideEntry(idx + 1, Dicts(Elements(slide)))
  }

  function EntryOf(slide: Slide, idx: nat): seq<SlideEntry> {
    [EntryItem(slide, idx)]
  }

  function SectionList(slides: seq<Slide>, r: PdfPages.SectionRange): seq<SlideEntry> {
    FlatMapRange(slides, r.start, r.end, EntryOf)
  }

  /** The dictionary `section_data`, as its items in insertion order. */
  function MetaBySection(slides: seq<Slide>): seq<(string, seq<SlideEntry>)> {
    seq(|PdfPages.SectionRanges|, i requires 0 <= i < |PdfPages.SectionRanges| =>
      (PdfPages.SectionRanges[i].section, SectionList(slides, PdfPages.SectionRanges[i])))
  }

  /** `extract_pptx_structured_meta_by_section`: `section_data` starts with an
      empty list for each section and the slide loop appends to the list of the
      section at hand. */
  method ExtractPptxStructuredMetaBySection(slides: seq<Slide>)
    returns (sectionData: seq<(string, seq<SlideEntry>)>)
    ensures sectionData == MetaBySection(slides)
  {
    var ranges := PdfPages.SectionRanges;
    sectionData := seq(|ranges|, i requires 0 <= i < |ranges| => (ranges[i].section, []));
    for i := 0 to |ranges|
      invariant |sectionData| == |ranges|
      invariant forall j :: 0 <= j < |ranges| ==> sectionData[j].0 == ranges[j].section
      invariant forall j :: 0 <= j < i ==> sectionData[j].1 == SectionList(slides, ranges[j])
      invariant forall j :: i <= j < |ranges| ==> sectionData[j].1 == []
    {
      var found := CollectEntries(slides, ranges[i]);
      sectionData := sectionData[i := (sectionData[i].0, sectionData[i].1 + found)];
    }
  }

  /** The slide loop of one section. */
  method CollectEntries(slides: seq<Slide>, r: PdfPages.SectionRange) returns (found: seq<SlideEntry>)
    ensures found == SectionList(slides, r)
  {
    found := [];
    var idx := r.start;
    while idx <= r.end
      invariant r.start <= idx
      invariant found + FlatMapRange(slides, idx, r.end, EntryOf) == FlatMapRange(slides, r.start, r.end, EntryOf)
      decreases r.end + 1 - idx
    {
      var entries := [];
      if idx < |slides| {
        var elements := ExtractStructuredElements(slides[idx]);
        entries := [SlideEntry(idx + 1, Dicts(elements))];
      }
      FlatMapRangeStep(slides, idx, r.end, EntryOf, found, entries);
      found := found + entries;
      idx := idx + 1;
    }
    assert found + [] == found;
  }

  /** Every existing slide of `lo..hi` has an entry, in slide order, with its
      1-based number and its element dictionaries, even when it has no element. */
  lemma {:induction false} EntriesSpec(slides: seq<Slide>, lo: nat, hi: nat)
    ensures |FlatMapRange(slides, lo, hi, EntryOf)| == Existing(lo, hi, |slides|)
    ensures forall j :: 0 <= j < |FlatMapRange(slides, lo, hi, EntryOf)| ==>
      lo + j < |slides| &&
      FlatMapRange(slides, lo, hi, EntryOf)[j] == SlideEntry(lo + j + 1, Dicts(Elements(slides[lo + j])))
  {
    FlatMapRangeOnes(slides, lo, hi, EntryOf, EntryItem);
  }

  lemma {:induction false} EntriesPast(slides: seq<Slide>, lo: nat, hi: nat)
    requires lo >= |slides|
    ensures FlatMapRange(slides, lo, hi, EntryOf) == []
    decreases hi + 1 - lo
  {
    if lo <= hi {
      EntriesPast(slides, lo + 1, hi);
    }
  }

  /** The result always has the three sections, in order, whatever the deck; each
      lists its existing slides. */
  lemma {:induction false} MetaBySectionSpec(slides: seq<Slide>)
    ensures |MetaBySection(slides)| == 3
    ensures MetaBySection(slides)[0].0 == "Environmental"
    ensures MetaBySection(slides)[1].0 == "Social"
    ensures MetaBySection(slides)[2].0 == "Governance"
    ensures forall i :: 0 <= i < 3 ==>
      |MetaBySection(slides)[i].1|
        == Existing(PdfPages.SectionRanges[i].start, PdfPages.SectionRanges[i].end, |slides|)
  {
    forall i | 0 <= i < 3
      ensures |MetaBySection(slides)[i].1|
        == Existing(PdfPages.SectionRanges[i].start, PdfPages.SectionRanges[i].end, |slides|)
    {
      var r := PdfPages.SectionRanges[i];
      EntriesSpec(slides, r.start, r.end);
    }
  }
}
