/**
 * The paragraph step of `save_text_to_file` in code/pdf_preprocess.py: the text
 * is cut at blank lines, short paragraphs are dropped, paragraphs longer than
 * 1000 characters are re-packed from their sentences, and the result is joined
 * with blank lines; the statistics that follow divide by the paragraph count.
 */
module Paragraphs {
  import opened Outcomes
  import opened Text
  import opened Packing

  /** Non-empty, with no whitespace at either end: what `strip()` leaves. */
  predicate Tidy(s: string) {
    |s| > 0 && !IsSpace(s[0]) && !IsSpace(s[|s| - 1])
  }

  /** The list comprehension over `text.split('\n\n')`: each piece cleaned by
      `clean` (`strip()` here), kept when longer than 10 characters. */
  function KeptParagraphs(pieces: seq<string>, clean: string -> string): (r: seq<string>)
    ensures forall k :: 0 <= k < |r| ==> |r[k]| > 10
    ensures |r| <= |pieces|
  {
    if pieces == [] then []
    else
      var q := clean(pieces[|pieces| - 1]);
      KeptParagraphs(pieces[..|pieces| - 1], clean) + (if |q| > 10 then [q] else [])
  }

  function Paragraphs(text: string): seq<string> {
    KeptParagraphs(SplitOn(text, "\n\n"), Strip)
  }

  /** A paragraph is kept exactly when it is the cleaned form, longer than 10
      characters, of some piece between blank lines. */
  lemma {:induction false} KeptParagraphsMember(pieces: seq<string>, clean: string -> string, q: string)
    ensures q in KeptParagraphs(pieces, clean) <==>
      |q| > 10 && exists k :: 0 <= k < |pieces| && q == clean(pieces[k])
  {
    if pieces != [] {
      var pre := pieces[..|pieces| - 1];
      KeptParagraphsMember(pre, clean, q);
      if exists k :: 0 <= k < |pieces| && q == clean(pieces[k]) {
        var k :| 0 <= k < |pieces| && q == clean(pieces[k]);
        if k < |pre| {
          assert q == clean(pre[k]);
        }
      }
      if exists k :: 0 <= k < |pre| && q == clean(pre[k]) {
        var k :| 0 <= k < |pre| && q == clean(pre[k]);
        assert q == clean(pieces[k]);
      }
    }
  }

  /** Stripped paragraphs are tidy. */
  lemma {:induction false} KeptParagraphsTidy(pieces: seq<string>)
    ensures forall k :: 0 <= k < |KeptParagraphs(pieces, Strip)| ==> Tidy(KeptParagraphs(pieces, Strip)[k])
  {
    if pieces != [] {
      KeptParagraphsTidy(pieces[..|pieces| - 1]);
      StripEnds(pieces[|pieces| - 1]);
    }
  }

  /** The sentence units of `re.split(r'([.!?])\s+', p)`: each text piece with its
      captured punctuation mark. The loop steps over the split list two items at
      a time and never reaches the text after the last boundary, so the units are
      the pieces of the sentence split without its last piece. */
  function Units(p: string): seq<string> {
    var pieces := SplitSentences(p);
    pieces[..|pieces| - 1]
  }

  /** The state of the re-packing loop: the pieces appended so far and `current_para`. */
  datatype Carry = Carry(pieces: seq<string>, current: string)

  /** One iteration: a unit that keeps `current_para` under 1000 characters is
      appended after a space; otherwise the open piece is closed (when it is not
      empty) and the unit opens the next one. */
  function Feed(c: Carry, unit: string): Carry {
    if |c.current| + |unit| < 1000 then Carry(c.pieces, c.current + " " + unit)
    else Carry(if |c.current| > 0 then c.pieces + [Strip(c.current)] else c.pieces, unit)
  }

  function FeedAll(units: seq<string>): Carry {
    if units == [] then Carry([], "")
    else Feed(FeedAll(units[..|units| - 1]), units[|units| - 1])
  }

  lemma {:induction false} FeedAllSnoc(units: seq<string>, i: nat)
    requires i < |units|
    ensures FeedAll(units[..i + 1]) == Feed(FeedAll(units[..i]), units[i])
  {
    assert units[..i + 1][..i] == units[..i];
  }

  /** The pieces a long paragraph is re-packed into. */
  function Repack(units: seq<string>): seq<string> {
    Close(FeedAll(units))
  }

  /** After the loop: the open piece, stripped, is appended when it is not empty. */
  function Close(c: Carry): seq<string> {
    if |c.current| > 0 then c.pieces + [Strip(c.current)] else c.pieces
  }

  /** What one kept paragraph becomes. */
  function SplitLong(p: string): seq<string> {
    if |p| > 1000 then Repack(Units(p)) else [p]
  }

  /** `split_paragraphs` for the kept paragraphs `ps`. */
  function Pieces(ps: seq<string>): seq<string> {
    FlatMap(ps, SplitLong)
  }

  /** The statistics printed after the file is written. */
  datatype Report = Report(formatted: string, characters: nat, paragraphs: nat,
                           average: real, longest: nat, shortest: nat)

  /** `max(len(p) for p in ps)`. */
  function Longest(ps: seq<string>): (m: nat)
    requires ps != []
    ensures forall k :: 0 <= k < |ps| ==> |ps[k]| <= m
    ensures exists k :: 0 <= k < |ps| && |ps[k]| == m
  {
    if |ps| == 1 then |ps[0]|
    else
      var m := Longest(ps[..|ps| - 1]);
      var last := |ps[|ps| - 1]|;
      assert forall k :: 0 <= k < |ps| - 1 ==> ps[..|ps| - 1][k] == ps[k];
      if last > m then last else m
  }

  /** `min(len(p) for p in ps)`. */
  function Shortest(ps: seq<string>): (m: nat)
    requires ps != []
    ensures forall k :: 0 <= k < |ps| ==> m <= |ps[k]|
    ensures exists k :: 0 <= k < |ps| && |ps[k]| == m
  {
    if |ps| == 1 then |ps[0]|
    else
      var m := Shortest(ps[..|ps| - 1]);
      var last := |ps[|ps| - 1]|;
      assert forall k :: 0 <= k < |ps| - 1 ==> ps[..|ps| - 1][k] == ps[k];
      if last < m then last else m
  }

  /** The inner loop over the units of one long paragraph, appending its pieces
      to `split`. */
  method RepackInto(split: seq<string>, units: seq<string>) returns (out: seq<string>)
    ensures out == split + Repack(units)
  {
    out := split;
    var current := "";
    for i := 0 to |units|
      invariant out == split + FeedAll(units[..i]).pieces
      invariant current == FeedAll(units[..i]).current
    {
      FeedAllSnoc(units, i);
      out, current := FeedInto(split, FeedAll(units[..i]), out, current, units[i]);
    }
    assert units[..|units|] == units;
    CloseInto(split, FeedAll(units), out, current);
    if |current| > 0 {
      out := out + [Strip(current)];
    }
  }

  lemma {:induction false} CloseInto(split: seq<string>, c: Carry, out: seq<string>, current: string)
    requires out == split + c.pieces && current == c.current
    ensures split + Close(c) == if |current| > 0 then out + [Strip(current)] else out
  {
  }

  /** The body of the unit loop, appending to `out` what `Feed` closes. */
  method FeedInto(ghost split: seq<string>, ghost c: Carry, out: seq<string>, current: string, sentence: string)
    returns (out2: seq<string>, current2: string)
    requires out == split + c.pieces && current == c.current
    ensures out2 == split + Feed(c, sentence).pieces && current2 == Feed(c, sentence).current
  {
    out2 := out;
    if |current| + |sentence| < 1000 {
      current2 := current + " " + sentence;
    } else {
      if |current| > 0 {
        out2 := out + [Strip(current)];
      }
      current2 := sentence;
    }
  }

  /** `save_text_to_file(text, ...)` without the file: the text written and the
      statistics, or the division by zero of the average when no piece is left. */
  method SaveTextToFile(text: string) returns (r: Result<Report>)
    ensures r.Err? <==> Pieces(Paragraphs(text)) == []
    ensures r.Err? ==> r.error == ZeroDivisionError
    ensures r.Ok? ==> var ps := Pieces(Paragraphs(text));
      && r.value.formatted == Join(ps, "\n\n")
      && r.value.characters == |r.value.formatted|
      && r.value.paragraphs == |ps|
      && r.value.average == |r.value.formatted| as real / |ps| as real
      && r.value.longest == Longest(ps)
      && r.value.shortest == Shortest(ps)
  {
    var paragraphs := Paragraphs(text);
    var split := SplitParagraphs(paragraphs);
    var formatted := Join(split, "\n\n");
    if |split| == 0 {
      return Err(ZeroDivisionError);
    }
    r := Ok(Report(formatted, |formatted|, |split|, |formatted| as real / |split| as real,
                   Longest(split), Shortest(split)));
  }

  /** The loop over the kept paragraphs: a short one is appended as it is, a long
      one is re-packed. */
  method SplitParagraphs(paragraphs: seq<string>) returns (split: seq<string>)
    ensures split == Pieces(paragraphs)
  {
    split := [];
    for k := 0 to |paragraphs|
      invariant split == FlatMap(paragraphs[..k], SplitLong)
    {
      var p := paragraphs[k];
      assert paragraphs[..k + 1][..k] == paragraphs[..k];
      if |p| > 1000 {
        split := RepackInto(split, Units(p));
      } else {
        split := split + [p];
      }
    }
    assert paragraphs[..|paragraphs|] == paragraphs;
  }

  /** A piece of a re-packed paragraph is at most 1000 characters long, or is one
      unit on its own. */
  lemma {:induction false} RepackBound(units: seq<string>)
    ensures forall k :: 0 <= k < |Repack(units)| ==>
      |Repack(units)[k]| <= 1000 || exists u :: u in units && Repack(units)[k] == Strip(u)
  {
    FeedAllBound(units);
    var c := FeedAll(units);
    if |c.current| > 0 {
      StripShorter(c.current);
    }
  }

  lemma {:induction false} StripShorter(s: string)
    ensures |Strip(s)| <= |s|
  {
  }

  /** Bounded pieces and a bounded open piece, or an open piece that is one unit. */
  lemma {:induction false} FeedAllBound(units: seq<string>)
    ensures var c := FeedAll(units);
      && (forall k :: 0 <= k < |c.pieces| ==>
        |c.pieces[k]| <= 1000 || exists u :: u in units && c.pieces[k] == Strip(u))
      && (|c.current| <= 1000 || c.current in units)
  {
    if units != [] {
      var pre := units[..|units| - 1];
      var u := units[|units| - 1];
      FeedAllBound(pre);
      var c := FeedAll(pre);
      assert forall x :: x in pre ==> x in units;
      if |c.current| + |u| >= 1000 && |c.current| > 0 {
        StripShorter(c.current);
      }
    }
  }

  /** Joining tidy parts with spaces gives a tidy string. */
  lemma {:induction false} JoinTidy(parts: seq<string>)
    requires parts != [] && forall k :: 0 <= k < |parts| ==> Tidy(parts[k])
    ensures Tidy(Join(parts, " "))
    decreases |parts|
  {
    if |parts| > 1 {
      JoinTidy(parts[1..]);
      assert Tidy(parts[1..][0]);
    }
  }

  lemma {:induction false} LStripLead(s: string)
    requires Tidy(s)
    ensures LStrip(" " + s) == s
  {
    var t := " " + s;
    assert t[1..] == s;
    assert LStrip(t) == LStrip(t[1..]);
  }

  /** `strip()` leaves a tidy string alone, and removes a single space before it. */
  lemma {:induction false} StripLead(s: string)
    requires Tidy(s)
    ensures Strip(s) == s && Strip(" " + s) == s
  {
    StripNoop(s);
    LStripLead(s);
  }

  /** The open group of units behind `current_para`. */
  ghost function OpenGroup(units: seq<string>): seq<string> {
    if units == [] then []
    else
      var pre := units[..|units| - 1];
      var u := units[|units| - 1];
      if |FeedAll(pre).current| + |u| < 1000 then OpenGroup(pre) + [u] else [u]
  }

  /** `current_para` is the open group `g` of tidy units joined by spaces, with a
      leading space in the first piece; the closed pieces are tidy; and the closed
      pieces followed by the open group give back `units` joined by spaces. */
  ghost predicate Shaped(c: Carry, g: seq<string>, units: seq<string>) {
    && g != [] && (forall k :: 0 <= k < |g| ==> Tidy(g[k]))
    && (c.current == Join(g, " ") || c.current == " " + Join(g, " "))
    && (forall k :: 0 <= k < |c.pieces| ==> Tidy(c.pieces[k]))
    && Join(c.pieces + [Join(g, " ")], " ") == Join(units, " ")
  }

  /** A unit that fits joins the open group. */
  lemma {:induction false} FeedExtend(c: Carry, g: seq<string>, units: seq<string>, u: string)
    requires Shaped(c, g, units) && Tidy(u) && units != []
    requires |c.current| + |u| < 1000
    ensures Shaped(Feed(c, u), g + [u], units + [u])
  {
    JoinSnoc(units, u, " ");
    JoinSnoc(g, u, " ");
    JoinAfterLast(c.pieces, Join(g, " "), u);
    assert forall k :: 0 <= k < |g| ==> (g + [u])[k] == g[k];
  }

  /** A unit that does not fit closes the open group, stripped, and opens the next. */
  lemma {:induction false} FeedClose(c: Carry, g: seq<string>, units: seq<string>, u: string)
    requires Shaped(c, g, units) && Tidy(u) && units != []
    requires |c.current| + |u| >= 1000
    ensures Shaped(Feed(c, u), [u], units + [u])
  {
    var j := Join(g, " ");
    JoinTidy(g);
    StripLead(j);
    assert Strip(c.current) == j;
    var ps := c.pieces + [j];
    assert Feed(c, u) == Carry(ps, u);
    JoinSnoc(units, u, " ");
    JoinSnoc(ps, u, " ");
    assert Join([u], " ") == u;
    forall k | 0 <= k < |ps|
      ensures Tidy(ps[k])
    {
      if k < |c.pieces| {
        assert ps[k] == c.pieces[k];
      }
    }
  }

  /** With tidy units, the loop state always has the shape above. */
  lemma {:induction false} FeedAllShape(units: seq<string>)
    requires forall k :: 0 <= k < |units| ==> Tidy(units[k])
    requires units != []
    ensures Shaped(FeedAll(units), OpenGroup(units), units)
  {
    var n := |units| - 1;
    var pre := units[..n];
    var u := units[n];
    assert units == pre + [u];
    assert Tidy(u);
    if pre == [] {
      assert FeedAll(pre) == Carry([], "");
      assert OpenGroup(units) == [u];
      assert Join([u], " ") == u;
      assert Join([] + [u], " ") == u;
    } else {
      assert forall k :: 0 <= k < |pre| ==> pre[k] == units[k];
      FeedAllShape(pre);
      var c := FeedAll(pre);
      if |c.current| + |u| < 1000 {
        FeedExtend(c, OpenGroup(pre), pre, u);
      } else {
        FeedClose(c, OpenGroup(pre), pre, u);
      }
    }
  }

  /** Appending to the last part of a join appends to the join. */
  lemma {:induction false} JoinAfterLast(parts: seq<string>, last: string, u: string)
    ensures Join(parts + [last + " " + u], " ") == Join(parts + [last], " ") + " " + u
  {
    if parts != [] {
      JoinSnoc(parts, last + " " + u, " ");
      JoinSnoc(parts, last, " ");
    }
  }

  /** Closing a shaped state gives tidy pieces that join to the units. */
  lemma {:induction false} CloseShaped(c: Carry, g: seq<string>, units: seq<string>)
    requires Shaped(c, g, units)
    ensures forall k :: 0 <= k < |Close(c)| ==> Tidy(Close(c)[k])
    ensures Join(Close(c), " ") == Join(units, " ")
  {
    var j := Join(g, " ");
    JoinTidy(g);
    StripLead(j);
    if c.current == j {
      assert Strip(c.current) == j;
    } else {
      assert Strip(c.current) == j;
    }
    var r := c.pieces + [j];
    assert Close(c) == r;
    forall k | 0 <= k < |r|
      ensures Tidy(r[k])
    {
      if k < |c.pieces| {
        assert r[k] == c.pieces[k];
      }
    }
  }

  /** Re-packing tidy units loses none and reorders none: the pieces are tidy, and
      joined by spaces they give back the units joined by spaces. */
  lemma {:induction false} RepackJoin(units: seq<string>)
    requires forall k :: 0 <= k < |units| ==> Tidy(units[k])
    ensures forall k :: 0 <= k < |Repack(units)| ==> Tidy(Repack(units)[k])
    ensures Join(Repack(units), " ") == Join(units, " ")
  {
    if units != [] {
      FeedAllShape(units);
      CloseShaped(FeedAll(units), OpenGroup(units), units);
    }
  }

  /** The first sentence piece of a text that starts with a non-space character. */
  lemma {:induction false} HeadTidy(p: string, i: nat)
    requires 1 <= i <= |p| && !IsSpace(p[0]) && IsTerminal(p[i - 1])
    ensures Tidy(p[..i])
  {
  }

  lemma {:induction false} UnitsCons(p: string, i: nat)
    requires BreakFrom(p, 1) == Some(i)
    ensures Units(p) == [p[..i]] + Units(LStrip(p[i..]))
  {
    var whole := SplitSentences(p);
    var rest := SplitSentences(LStrip(p[i..]));
    assert whole == [p[..i]] + rest;
    DropLastCons(whole, p[..i], rest);
  }

  lemma {:induction false} DropLastCons<T>(xs: seq<T>, a: T, b: seq<T>)
    requires b != [] && xs == [a] + b
    ensures xs[..|xs| - 1] == [a] + b[..|b| - 1]
  {
  }

  /** The sentence pieces of a tidy text, but the last, are tidy: each starts after
      a stripped whitespace run and ends with its punctuation mark. */
  lemma {:induction false} UnitsTidy(p: string)
    requires p == [] || !IsSpace(p[0])
    ensures forall k :: 0 <= k < |Units(p)| ==> Tidy(Units(p)[k])
    decreases |p|
  {
    match BreakFrom(p, 1)
    case None =>
      assert SplitSentences(p) == [p];
    case Some(i) =>
      var rest := LStrip(p[i..]);
      UnitsTidy(rest);
      UnitsCons(p, i);
      HeadTidy(p, i);
      TidyCons(p[..i], Units(rest));
  }

  lemma {:induction false} TidyCons(a: string, xs: seq<string>)
    requires Tidy(a) && forall k :: 0 <= k < |xs| ==> Tidy(xs[k])
    ensures forall k :: 0 <= k < |[a] + xs| ==> Tidy(([a] + xs)[k])
  {
    forall k | 0 <= k < |[a] + xs|
      ensures Tidy(([a] + xs)[k])
    {
      if k > 0 {
        assert ([a] + xs)[k] == xs[k - 1];
      }
    }
  }

  /** A paragraph longer than 1000 characters becomes pieces that, joined by
      spaces, are its sentence units joined by spaces: the text after the last
      sentence boundary is dropped and nothing else is. Each piece is at most 1000
      characters long or is a single unit. */
  lemma {:induction false} LongParagraph(p: string)
    requires Tidy(p) && |p| > 1000
    ensures Join(SplitLong(p), " ") == Join(Units(p), " ")
    ensures forall k :: 0 <= k < |SplitLong(p)| ==>
      Tidy(SplitLong(p)[k]) && (|SplitLong(p)[k]| <= 1000 || SplitLong(p)[k] in Units(p))
  {
    var units := Units(p);
    UnitsTidy(p);
    RepackJoin(units);
    RepackBound(units);
    forall k | 0 <= k < |Repack(units)| && |Repack(units)[k]| > 1000
      ensures Repack(units)[k] in units
    {
      var u :| u in units && Repack(units)[k] == Strip(u);
      StripNoop(u);
    }
  }

  /** A long paragraph with no sentence boundary yields no piece at all. */
  lemma {:induction false} NoBoundary(p: string)
    requires |p| > 1000 && BreakFrom(p, 1).None?
    ensures SplitLong(p) == []
  {
    assert SplitSentences(p) == [p];
  }

  /** A kept paragraph yields no piece only when it is long and has no unit. */
  lemma {:induction false} SplitLongEmpty(p: string)
    requires Tidy(p)
    ensures SplitLong(p) == [] <==> |p| > 1000 && Units(p) == []
  {
    if |p| > 1000 {
      UnitsTidy(p);
      RepackJoin(Units(p));
      if Units(p) != [] {
        JoinTidy(Units(p));
      }
    }
  }

  /** `save_text_to_file` fails on its statistics exactly when every kept
      paragraph is longer than 1000 characters and has no sentence boundary; in
      particular when no paragraph is kept. */
  lemma {:induction false} SaveFails(text: string)
    ensures var ps := Paragraphs(text);
      Pieces(ps) == [] <==> forall k :: 0 <= k < |ps| ==> |ps[k]| > 1000 && Units(ps[k]) == []
  {
    var ps := Paragraphs(text);
    FlatMapEmpty(ps, SplitLong);
    KeptParagraphsTidy(SplitOn(text, "\n\n"));
    forall k | 0 <= k < |ps|
      ensures SplitLong(ps[k]) == [] <==> |ps[k]| > 1000 && Units(ps[k]) == []
    {
      SplitLongEmpty(ps[k]);
    }
  }
}
