/**
 * The query side of code/rag_chatbot.py: `expand_query` asks the chat model to
 * rewrite a short question and falls back to the question itself; the keyword
 * tables of `extract_metadata_filters` pick at most one section and one company;
 * the filters become a vector-store `where` clause. The chat model is a reply
 * given as a parameter, `Err` when the call raises.
 */
module Queries {
  import opened Outcomes
  import opened Text

  // ---------------------------------------------------------------- expand_query

  /** `expand_query(query, min_length)`: `reply` is what the chat model call would
      give (its stripped content, or the exception it raises). A question longer
      than `min_length` is kept without consulting the model, and a failing call
      leaves the question as it is (fail-open). */
  function ExpandQuery(query: string, minLength: int, reply: Result<string>): (r: string)
    ensures |query| > minLength ==> r == query
    ensures reply.Err? ==> r == query
    ensures |query| <= minLength && reply.Ok? ==> r == Strip(reply.value)
  {
    if |query| > minLength then query
    else
      match reply
      case Ok(content) => Strip(content)
      case Err(_) => query
  }

  /** What the model says does not matter for a long question. */
  lemma {:induction false} ExpandQueryLong(query: string, minLength: int, a: Result<string>, b: Result<string>)
    requires |query| > minLength
    ensures ExpandQuery(query, minLength, a) == ExpandQuery(query, minLength, b)
  {
    assert ExpandQuery(query, minLength, a) == query;
  }

  // ---------------------------------------------------------------- filters

  /** A keyword table: a filter value and the keywords that select it, in the
      dictionary's order. */
  type Table = seq<(string, seq<string>)>

  function SectionTable(): Table {
    [("Environment", ["환경", "environment", "기후", "탄소"]),
     ("Social", ["사회", "social", "직원", "인권", "안전"]),
     ("Governance", ["지배구조", "governance", "윤리", "준법"])]
  }

  function CompanyTable(): Table {
    [("KTNG", ["ktng", "케이티앤지", "kt&g"]),
     ("CJ", ["cj", "씨제이"]),
     ("SHINHAN", ["신한", "shinhan"]),
     ("SAMPYO", ["삼표", "sampyo"])]
  }

  /** `any(keyword in q for keyword in keywords)`. */
  predicate AnyIn(keywords: seq<string>, q: string) {
    exists k :: 0 <= k < |keywords| && Contains(q, keywords[k])
  }

  /** The value of the first entry with a keyword in `q`. */
  function FirstMatch(table: Table, q: string): Option<string> {
    if table == [] then None
    else if AnyIn(table[0].1, q) then Some(table[0].0)
    else FirstMatch(table[1..], q)
  }

  /** `FirstMatch` is the first matching entry, and `None` means no entry matches. */
  lemma {:induction false} FirstMatchSpec(table: Table, q: string)
    ensures FirstMatch(table, q).Some? ==>
      exists i :: 0 <= i < |table| && table[i].0 == FirstMatch(table, q).value && AnyIn(table[i].1, q)
        && forall j :: 0 <= j < i ==> !AnyIn(table[j].1, q)
    ensures FirstMatch(table, q).None? <==> forall i :: 0 <= i < |table| ==> !AnyIn(table[i].1, q)
  {
    if table != [] && !AnyIn(table[0].1, q) {
      FirstMatchSpec(table[1..], q);
      if FirstMatch(table, q).Some? {
        var i :| 0 <= i < |table[1..]| && table[1..][i].0 == FirstMatch(table, q).value && AnyIn(table[1..][i].1, q)
          && forall j :: 0 <= j < i ==> !AnyIn(table[1..][j].1, q);
        assert table[i + 1] == table[1..][i];
        assert forall j :: 1 <= j < i + 1 ==> table[j] == table[1..][j - 1];
      }
      assert forall i :: 1 <= i < |table| ==> table[i] == table[1..][i - 1];
    }
  }

  /** The dictionary `extract_metadata_filters` returns, as its pairs in
      insertion order, for the lower-cased question `q`. */
  function FiltersFrom(q: string, sections: Table, companies: Table): seq<(string, string)> {
    (match FirstMatch(sections, q) case Some(s) => [("section", s)] case None => [])
      + (match FirstMatch(companies, q) case Some(c) => [("source", c)] case None => [])
  }

  function Filters(query: string): seq<(string, string)> {
    FiltersFrom(Lower(query), SectionTable(), CompanyTable())
  }

  /** The loop over one table with its `break`. */
  method FirstMatching(table: Table, q: string) returns (r: Option<string>)
    ensures r == FirstMatch(table, q)
  {
    r := None;
    var i := 0;
    while i < |table|
      invariant i <= |table|
      invariant FirstMatch(table, q) == FirstMatch(table[i..], q)
    {
      assert table[i..][1..] == table[i + 1..];
      if exists k :: 0 <= k < |table[i].1| && Contains(q, table[i].1[k]) {
        r := Some(table[i].0);
        break;
      }
      i := i + 1;
    }
  }

  method ExtractMetadataFilters(query: string) returns (filters: seq<(string, string)>)
    ensures filters == Filters(query)
  {
    filters := [];
    var queryLower := Lower(query);
    var section := FirstMatching(SectionTable(), queryLower);
    if section.Some? {
      filters := filters + [("section", section.value)];
    }
    var company := FirstMatching(CompanyTable(), queryLower);
    if company.Some? {
      filters := filters + [("source", company.value)];
    }
  }

  /** Only the keys `section` and `source` are set, each at most once and in that
      order; `section` is set exactly when a section keyword occurs in the
      lower-cased question, to the first such section, and `source` likewise for
      the companies. */
  lemma {:induction false} FiltersKeys(q: string, sections: Table, companies: Table)
    ensures var f := FiltersFrom(q, sections, companies);
      && |f| <= 2
      && (forall i :: 0 <= i < |f| ==> f[i].0 == "section" || f[i].0 == "source")
      && (|f| == 2 ==> f[0].0 == "section" && f[1].0 == "source")
      && ((exists i :: 0 <= i < |f| && f[i].0 == "section") <==>
           exists t :: 0 <= t < |sections| && AnyIn(sections[t].1, q))
      && ((exists i :: 0 <= i < |f| && f[i].0 == "source") <==>
           exists t :: 0 <= t < |companies| && AnyIn(companies[t].1, q))
      && (forall i :: 0 <= i < |f| && f[i].0 == "section" ==> FirstMatch(sections, q) == Some(f[i].1))
      && (forall i :: 0 <= i < |f| && f[i].0 == "source" ==> FirstMatch(companies, q) == Some(f[i].1))
  {
    FirstMatchSpec(sections, q);
    FirstMatchSpec(companies, q);
    var f := FiltersFrom(q, sections, companies);
    assert "section" != "source";
    if FirstMatch(sections, q).Some? {
      assert f[0].0 == "section";
    }
    if FirstMatch(companies, q).Some? {
      assert f[|f| - 1].0 == "source";
    }
  }

  /** "탄소배출량?" mentions carbon and no company: its filters are
      `{"section": "Environment"}`. */
  lemma {:induction false} FiltersCarbon()
    ensures Filters("탄소배출량?") == [("section", "Environment")]
  {
    var q := "탄소배출량?";
    CarbonLower();
    CarbonSection();
    CarbonNoCompany();
  }

  lemma {:induction false} CarbonLower()
    ensures Lower("탄소배출량?") == "탄소배출량?"
  {
    var q := "탄소배출량?";
    assert forall i :: 0 <= i < |q| ==> LowerChar(q[i]) == q[i];
  }

  lemma {:induction false} CarbonSection()
    ensures FirstMatch(SectionTable(), "탄소배출량?") == Some("Environment")
  {
    var q := "탄소배출량?";
    var kw := SectionTable()[0].1;
    ContainsAt(q, kw[3], 0);
    assert AnyIn(kw, q);
  }

  lemma {:induction false} CarbonNoCompany()
    ensures FirstMatch(CompanyTable(), "탄소배출량?").None?
  {
    var q := "탄소배출량?";
    var t := CompanyTable();
    forall i, k | 0 <= i < |t| && 0 <= k < |t[i].1|
      ensures !Contains(q, t[i].1[k])
    {
      ContainsHead(q, t[i].1[k]);
    }
    FirstMatchSpec(t, q);
  }

  /** A string contains only patterns whose first character it holds. */
  lemma {:induction false} ContainsHead(s: string, p: string)
    requires p != []
    ensures Contains(s, p) ==> p[0] in s
  {
    if Contains(s, p) {
      var j := Find(s, p).value;
      assert s[j..][..|p|] == p;
      assert s[j] == p[0];
    }
  }

  // ---------------------------------------------------------------- where clause

  /** `{field: {"$eq": value}}`. */
  datatype Cond = Cond(field: string, value: string)

  /** A single condition, or `{"$and": conditions}`. */
  datatype Where = Single(cond: Cond) | And(conds: seq<Cond>)

  /** The `where` clause for the filters (`None` for an absent dictionary). */
  function WhereOf(filters: Option<seq<(string, string)>>): Option<Where> {
    match filters
    case None => None
    case Some(f) =>
      if |f| == 0 then None
      else
        var conds := seq(|f|, i requires 0 <= i < |f| => Cond(f[i].0, f[i].1));
        if |conds| == 1 then Some(Single(conds[0])) else Some(And(conds))
  }

  method BuildWhereClause(filters: Option<seq<(string, string)>>) returns (whereClause: Option<Where>)
    ensures whereClause == WhereOf(filters)
  {
    whereClause := None;
    if filters.Some? && |filters.value| > 0 {
      var f := filters.value;
      var conditions: seq<Cond> := [];
      for i := 0 to |f|
        invariant conditions == seq(i, j requires 0 <= j < i => Cond(f[j].0, f[j].1))
      {
        conditions := conditions + [Cond(f[i].0, f[i].1)];
      }
      if |conditions| == 1 {
        whereClause := Some(Single(conditions[0]));
      } else {
        whereClause := Some(And(conditions));
      }
    }
  }

  /** The store's reading of a clause, for a document whose metadata gives
      `field(key)` for a key. */
  predicate Holds(c: Cond, field: string -> Option<string>) {
    field(c.field) == Some(c.value)
  }

  predicate Selects(w: Option<Where>, field: string -> Option<string>) {
    match w
    case None => true
    case Some(Single(c)) => Holds(c, field)
    case Some(And(cs)) => forall i :: 0 <= i < |cs| ==> Holds(cs[i], field)
  }

  /** The clause selects exactly the documents that agree with every filter; no
      clause (and so every document) for absent or empty filters. */
  lemma {:induction false} WhereSelects(filters: Option<seq<(string, string)>>, field: string -> Option<string>)
    ensures WhereOf(filters).None? <==> filters.None? || filters.value == []
    ensures Selects(WhereOf(filters), field) <==>
      filters.None? || forall i :: 0 <= i < |filters.value| ==> field(filters.value[i].0) == Some(filters.value[i].1)
  {
    if filters.Some? && |filters.value| >= 2 {
      var f := filters.value;
      var cs := WhereOf(filters).value.conds;
      assert forall i :: 0 <= i < |f| ==> cs[i] == Cond(f[i].0, f[i].1);
    }
  }

  /** One filter gives its condition unwrapped; two or more give `$and` over the
      conditions in the filters' order. */
  lemma {:induction false} WhereShape(f: seq<(string, string)>)
    ensures |f| == 1 ==> WhereOf(Some(f)) == Some(Single(Cond(f[0].0, f[0].1)))
    ensures |f| >= 2 ==>
      && WhereOf(Some(f)).Some? && WhereOf(Some(f)).value.And?
      && |WhereOf(Some(f)).value.conds| == |f|
      && forall i :: 0 <= i < |f| ==> WhereOf(Some(f)).value.conds[i] == Cond(f[i].0, f[i].1)
  {
  }
}
