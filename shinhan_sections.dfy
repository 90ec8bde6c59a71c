/**
 * The hard-coded page-to-section map of the Shinhan Life 2023 report
 * (`get_section_and_subsection` of code/shinhan_ppt_processor.py).
 */
module ShinhanSections {

  /** The if-chain of the source: section and subsection of a 1-based page number. */
  function SectionAndSubsection(page: int): (string, string) {
    if 1 <= page <= 13 then
      var section := "Environmental";
      if page == 2 then (section, "환경경영 추진 체계")
      else if 3 <= page <= 4 then (section, "내부 탄소배출량 관리")
      else if 5 <= page <= 6 then (section, "금융 배출량 관리")
      else if 7 <= page <= 11 then (section, "친환경 금융 확대")
      else if 12 <= page <= 13 then (section, "친환경 실천 교육 및 캠페인")
      else (section, section)
    else if 14 <= page <= 52 then
      var section := "Social";
      if 15 <= page <= 27 then (section, "혁신 및 포용금융")
      else if 28 <= page <= 32 then (section, "지역사회 발전 및 투자")
      else if 33 <= page <= 37 then (section, "고객 만족도 제고")
      else if 38 <= page <= 45 then (section, "인재 경영")
      else if 46 <= page <= 48 then (section, "인권 및 다양성")
      else if 49 <= page <= 51 then (section, "안전 및 보건")
      else if page == 52 then (section, "지속가능한 공급망")
      else (section, section)
    else if 53 <= page <= 69 then
      var section := "Governance";
      if 54 <= page <= 58 then (section, "건전한 지배구조")
      else if 59 <= page <= 61 then (section, "윤리 및 준법 경영")
      else if 62 <= page <= 64 then (section, "소비자 권익 보호")
      else if 65 <= page <= 67 then (section, "개인정보보호 및 데이터 보안")
      else if 68 <= page <= 69 then (section, "리스크 관리")
      else (section, section)
    else ("Other", "Other")
  }

  /** An inclusive page range with the name it gives. */
  datatype Band = Band(lo: int, hi: int, name: string)

  predicate InBand(b: Band, page: int) {
    b.lo <= page <= b.hi
  }

  /** The same map written as data: each section band with its subsection bands. */
  const EnvironmentalBands: seq<Band> := [
    Band(2, 2, "환경경영 추진 체계"),
    Band(3, 4, "내부 탄소배출량 관리"),
    Band(5, 6, "금융 배출량 관리"),
    Band(7, 11, "친환경 금융 확대"),
    Band(12, 13, "친환경 실천 교육 및 캠페인")]

  const SocialBands: seq<Band> := [
    Band(15, 27, "혁신 및 포용금융"),
    Band(28, 32, "지역사회 발전 및 투자"),
    Band(33, 37, "고객 만족도 제고"),
    Band(38, 45, "인재 경영"),
    Band(46, 48, "인권 및 다양성"),
    Band(49, 51, "안전 및 보건"),
    Band(52, 52, "지속가능한 공급망")]

  const GovernanceBands: seq<Band> := [
    Band(54, 58, "건전한 지배구조"),
    Band(59, 61, "윤리 및 준법 경영"),
    Band(62, 64, "소비자 권익 보호"),
    Band(65, 67, "개인정보보호 및 데이터 보안"),
    Band(68, 69, "리스크 관리")]

  const Table: seq<(Band, seq<Band>)> := [
    (Band(1, 13, "Environmental"), EnvironmentalBands),
    (Band(14, 52, "Social"), SocialBands),
    (Band(53, 69, "Governance"), GovernanceBands)]

  /** The name of the first band holding `page`, or `fallback`. */
  function FirstBand(bands: seq<Band>, page: int, fallback: string): string {
    if bands == [] then fallback
    else if InBand(bands[0], page) then bands[0].name
    else FirstBand(bands[1..], page, fallback)
  }

  /** Table lookup: the first section band holding the page, then its first
      subsection band, the section's own name when none holds it. */
  function Lookup(table: seq<(Band, seq<Band>)>, page: int): (string, string) {
    if table == [] then ("Other", "Other")
    else if InBand(table[0].0, page) then
      (table[0].0.name, FirstBand(table[0].1, page, table[0].0.name))
    else Lookup(table[1..], page)
  }

  /** Non-empty bands in increasing page order, each ending before the next starts. */
  predicate Ascending(bs: seq<Band>) {
    && (forall i :: 0 <= i < |bs| ==> bs[i].lo <= bs[i].hi)
    && (forall i :: 0 < i < |bs| ==> bs[i - 1].hi < bs[i].lo)
  }

  /** Bands that share no page. */
  ghost predicate Disjoint(bs: seq<Band>) {
    forall i, j, page :: 0 <= i < j < |bs| && InBand(bs[i], page) ==> !InBand(bs[j], page)
  }

  lemma {:induction false} AscendingDisjoint(bs: seq<Band>)
    requires Ascending(bs)
    ensures Disjoint(bs)
  {
    forall i, j | 0 <= i < j < |bs|
      ensures bs[i].hi < bs[j].lo
    {
      AscendingGap(bs, i, j);
    }
  }

  lemma {:induction false} AscendingGap(bs: seq<Band>, i: nat, j: nat)
    requires Ascending(bs) && i < j < |bs|
    ensures bs[i].hi < bs[j].lo
    decreases j - i
  {
    if i + 1 < j {
      AscendingGap(bs, i, j - 1);
      assert bs[j - 1].lo <= bs[j - 1].hi;
    }
  }

  /** Subsection bands that are ascending and lie inside their section band. */
  predicate Nested(section: Band, bands: seq<Band>) {
    && Ascending(bands)
    && forall k :: 0 <= k < |bands| ==> section.lo <= bands[k].lo <= bands[k].hi <= section.hi
  }

  lemma {:induction false} NestedDisjoint(section: Band, bands: seq<Band>)
    requires Nested(section, bands)
    ensures Disjoint(bands)
    ensures forall k :: 0 <= k < |bands| ==> section.lo <= bands[k].lo <= bands[k].hi <= section.hi
  {
    AscendingDisjoint(bands);
  }

  /** The section bands are disjoint, each subsection band lies inside its section
      band, and the subsection bands of a section are disjoint; so no page is
      claimed twice and the order of the tests does not matter. */
  lemma {:induction false} TableWellFormed()
    ensures Disjoint([Table[0].0, Table[1].0, Table[2].0])
    ensures forall i :: 0 <= i < |Table| ==> Disjoint(Table[i].1)
    ensures forall i, k :: 0 <= i < |Table| && 0 <= k < |Table[i].1| ==>
      Table[i].0.lo <= Table[i].1[k].lo <= Table[i].1[k].hi <= Table[i].0.hi
  {
    AscendingDisjoint([Table[0].0, Table[1].0, Table[2].0]);
    SectionNested(0);
    SectionNested(1);
    SectionNested(2);
  }

  /** Section `i` of the table holds ascending subsection bands inside its band. */
  lemma {:induction false} SectionNested(i: nat)
    requires i < |Table|
    ensures Disjoint(Table[i].1)
    ensures forall k :: 0 <= k < |Table[i].1| ==>
      Table[i].0.lo <= Table[i].1[k].lo <= Table[i].1[k].hi <= Table[i].0.hi
  {
    if i == 0 {
      EnvironmentalNested();
    } else if i == 1 {
      SocialNested();
    } else {
      GovernanceNested();
    }
    NestedDisjoint(Table[i].0, Table[i].1);
  }

  lemma {:induction false} EnvironmentalNested()
    ensures Nested(Table[0].0, Table[0].1)
  {
    assert Table[0].1 == EnvironmentalBands;
  }

  lemma {:induction false} SocialNested()
    ensures Nested(Table[1].0, Table[1].1)
  {
    assert Table[1].1 == SocialBands;
  }

  lemma {:induction false} GovernanceNested()
    ensures Nested(Table[2].0, Table[2].1)
  {
    assert Table[2].1 == GovernanceBands;
  }

  /** `FirstBand` over a list of bands, one band at a time. */
  lemma {:induction false} FirstBandCons(bands: seq<Band>, page: int, fallback: string)
    requires bands != []
    ensures FirstBand(bands, page, fallback)
      == if InBand(bands[0], page) then bands[0].name else FirstBand(bands[1..], page, fallback)
  {
  }

  /** `FirstBand` on the subsection bands of one section, unfolded band by band. */
  lemma {:induction false} FirstBandUnfold(bands: seq<Band>, page: int, fallback: string)
    requires |bands| <= 7
    ensures FirstBand(bands, page, fallback) ==
      if bands == [] then fallback
      else if InBand(bands[0], page) then bands[0].name
      else if |bands| == 1 then fallback
      else if InBand(bands[1], page) then bands[1].name
      else if |bands| == 2 then fallback
      else if InBand(bands[2], page) then bands[2].name
      else if |bands| == 3 then fallback
      else if InBand(bands[3], page) then bands[3].name
      else if |bands| == 4 then fallback
      else if InBand(bands[4], page) then bands[4].name
      else if |bands| == 5 then fallback
      else if InBand(bands[5], page) then bands[5].name
      else if |bands| == 6 then fallback
      else if InBand(bands[6], page) then bands[6].name
      else fallback
  {
    var b := bands;
    if |b| > 1 { FirstBandCons(b, page, fallback); b := b[1..]; }
    if |b| > 1 { FirstBandCons(b, page, fallback); b := b[1..]; }
    if |b| > 1 { FirstBandCons(b, page, fallback); b := b[1..]; }
    if |b| > 1 { FirstBandCons(b, page, fallback); b := b[1..]; }
    if |b| > 1 { FirstBandCons(b, page, fallback); b := b[1..]; }
    if |b| > 1 { FirstBandCons(b, page, fallback); b := b[1..]; }
    if |b| == 1 { FirstBandCons(b, page, fallback); assert b[1..] == []; }
  }

  lemma {:induction false} ChainEnvironmental(page: int)
    requires 1 <= page <= 13
    ensures SectionAndSubsection(page) == ("Environmental", FirstBand(EnvironmentalBands, page, "Environmental"))
  {
    FirstBandUnfold(EnvironmentalBands, page, "Environmental");
  }

  lemma {:induction false} ChainSocial(page: int)
    requires 14 <= page <= 52
    ensures SectionAndSubsection(page) == ("Social", FirstBand(SocialBands, page, "Social"))
  {
    FirstBandUnfold(SocialBands, page, "Social");
  }

  lemma {:induction false} ChainGovernance(page: int)
    requires 53 <= page <= 69
    ensures SectionAndSubsection(page) == ("Governance", FirstBand(GovernanceBands, page, "Governance"))
  {
    FirstBandUnfold(GovernanceBands, page, "Governance");
  }

  /** The if-chain and the table agree on every page. */
  lemma {:induction false} ChainIsTable(page: int)
    ensures SectionAndSubsection(page) == Lookup(Table, page)
  {
    var t1, t2 := Table[1..], Table[1..][1..];
    assert t1 == [Table[1], Table[2]];
    assert t2 == [Table[2]];
    assert t2[1..] == [];
    if 1 <= page <= 13 {
      ChainEnvironmental(page);
    } else if 14 <= page <= 52 {
      assert Lookup(Table, page) == Lookup(t1, page);
      ChainSocial(page);
    } else if 53 <= page <= 69 {
      assert Lookup(Table, page) == Lookup(t1, page) == Lookup(t2, page);
      ChainGovernance(page);
    } else {
      assert Lookup(Table, page) == Lookup(t1, page) == Lookup(t2, page) == Lookup(t2[1..], page);
    }
  }

  /** The three section bands, and `Other` outside them. */
  lemma {:induction false} SectionBands(page: int)
    ensures SectionAndSubsection(page).0 == "Environmental" <==> 1 <= page <= 13
    ensures SectionAndSubsection(page).0 == "Social" <==> 14 <= page <= 52
    ensures SectionAndSubsection(page).0 == "Governance" <==> 53 <= page <= 69
    ensures SectionAndSubsection(page).0 == "Other" <==> page < 1 || page > 69
  {
  }

  /** A page no subsection band covers gets its section's name as subsection,
      never an absent value; page 52 is the one-page supply-chain band. */
  lemma {:induction false} UncoveredPages(page: int)
    ensures page in {1, 14, 53} || page < 1 || page > 69 ==>
      SectionAndSubsection(page).1 == SectionAndSubsection(page).0
    ensures SectionAndSubsection(52) == ("Social", "지속가능한 공급망")
  {
  }
}
