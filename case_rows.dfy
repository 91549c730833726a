/**
 * The result table of a search (`table.data-table-1 tbody tr`): one record per row, the parties
 * cell turned into one line of text by replacing every `<br>` tag with `" | "`.
 */
module CaseRows {
  import opened Text
  import opened Js

  /** The length of the white-space run at the start of `s`. */
  function WsRun(s: string): (n: nat)
    ensures n <= |s|
    ensures forall i :: 0 <= i < n ==> IsWs(s[i])
    ensures n == |s| || !IsWs(s[n])
  {
    if s != [] && IsWs(s[0]) then 1 + WsRun(s[1..]) else 0
  }

  /** A whole match of `/<br\s*\/?>/i`: `<`, `b` or `B`, `r` or `R`, white space, an optional
      `/`, and `>`. */
  predicate IsBrTag(t: string) {
    && |t| >= 4 && t[0] == '<' && (t[1] == 'b' || t[1] == 'B') && (t[2] == 'r' || t[2] == 'R')
    && t[|t| - 1] == '>'
    && (forall i :: 3 <= i < |t| - 2 ==> IsWs(t[i]))
    && (|t| == 4 || IsWs(t[|t| - 2]) || t[|t| - 2] == '/')
  }

  /** The length of the tag the expression matches at the start of `s`, or 0 when it does not
      match there. The white-space run is taken whole; giving some of it back never lets `/`
      or `>` match, so backtracking finds no other match. */
  function BrLen(s: string): (n: nat)
    ensures n == 0 || 4 <= n <= |s|
  {
    if 3 <= |s| && s[0] == '<' && (s[1] == 'b' || s[1] == 'B') && (s[2] == 'r' || s[2] == 'R') then
      var k := 3 + WsRun(s[3..]);
      if k < |s| && s[k] == '>' then k + 1
      else if k + 1 < |s| && s[k] == '/' && s[k + 1] == '>' then k + 2
      else 0
    else 0
  }

  /** What `BrLen` measures is a tag. */
  lemma BrLenSound(s: string)
    requires BrLen(s) > 0
    ensures IsBrTag(s[..BrLen(s)])
  {
    var k := 3 + WsRun(s[3..]);
    forall i | 3 <= i < k
      ensures IsWs(s[i])
    {
      assert s[3..][i - 3] == s[i];
    }
  }

  /** A tag is found whatever follows it, and found whole. */
  lemma BrLenComplete(t: string, rest: string)
    requires IsBrTag(t)
    ensures BrLen(t + rest) == |t|
  {
    var s := t + rest;
    var m := if t[|t| - 2] == '/' && |t| > 4 then |t| - 2 else |t| - 1;
    forall i | 0 <= i < m - 3
      ensures IsWs(s[3..][i])
    {
      assert s[3..][i] == t[i + 3];
    }
    assert !IsWs(s[3..][m - 3]);
    assert WsRun(s[3..]) == m - 3;
  }

  /** `s.replace(/<br\s*\/?>/gi, ' | ')`: scanning from the left, every tag becomes `" | "` and
      every other character is copied. */
  function ReplaceBr(s: string): string
    decreases |s|
  {
    if s == [] then []
    else if BrLen(s) > 0 then " | " + ReplaceBr(s[BrLen(s)..])
    else [s[0]] + ReplaceBr(s[1..])
  }

  /** Text without `<` is copied unchanged, and so is the part of a text before its first
      `<`. */
  lemma {:induction false} ReplaceBrPlain(a: string, b: string)
    requires '<' !in a
    ensures ReplaceBr(a + b) == a + ReplaceBr(b)
    decreases |a|
  {
    if a != [] {
      var s := a + b;
      assert s[0] == a[0] && s[0] != '<';
      assert BrLen(s) == 0;
      assert s[1..] == a[1..] + b;
      ReplaceBrPlain(a[1..], b);
      var r := ReplaceBr(b);
      calc {
        ReplaceBr(s);
        [a[0]] + ReplaceBr(a[1..] + b);
        [a[0]] + (a[1..] + r);
        ([a[0]] + a[1..]) + r;
        { assert [a[0]] + a[1..] == a; }
        a + r;
      }
    } else {
      assert a + b == b;
    }
  }

  /** A tag becomes `" | "`, and the scan goes on right after it. */
  lemma ReplaceBrTag(t: string, b: string)
    requires IsBrTag(t)
    ensures ReplaceBr(t + b) == " | " + ReplaceBr(b)
  {
    BrLenComplete(t, b);
    assert (t + b)[|t|..] == b;
  }

  /** The three spellings the expression is meant for, between two names. */
  lemma ReplaceBrExamples(s: string)
    requires s == "A<br>B" || s == "A<br/>B" || s == "A<BR />B"
    ensures ReplaceBr(s) == "A | B"
  {
    var t := if s == "A<br>B" then "<br>" else if s == "A<br/>B" then "<br/>" else "<BR />";
    assert s == "A" + t + "B";
    assert IsBrTag(t);
    ReplaceBrExample(t);
  }

  lemma ReplaceBrExample(t: string)
    requires IsBrTag(t)
    ensures ReplaceBr("A" + t + "B") == "A | B"
  {
    ReplaceBrPlain("A", t + "B");
    ReplaceBrTag(t, "B");
    ReplaceBrPlain("B", "");
    assert "A" + t + "B" == "A" + (t + "B");
    assert "B" + "" == "B";
  }

  /** No two white-space characters in a row. */
  predicate SingleSpaced(s: string) {
    forall i :: 0 <= i < |s| - 1 ==> !(IsWs(s[i]) && IsWs(s[i + 1]))
  }

  /** `s.replace(/\s{2,}/g, ' ')`: every run of two or more white-space characters becomes one
      space; a lone white-space character is kept as it is. */
  function Squeeze(s: string): (r: string)
    ensures |r| <= |s|
    ensures r == [] <==> s == []
    ensures s != [] ==> (IsWs(r[0]) <==> IsWs(s[0]))
    decreases |s|
  {
    if s == [] then []
    else if 2 <= |s| && IsWs(s[0]) && IsWs(s[1]) then " " + Squeeze(s[WsRun(s)..])
    else [s[0]] + Squeeze(s[1..])
  }

  /** After squeezing, white space never comes two in a row. */
  lemma {:induction false} SqueezeSingleSpaced(s: string)
    ensures SingleSpaced(Squeeze(s))
    decreases |s|
  {
    if s != [] {
      if 2 <= |s| && IsWs(s[0]) && IsWs(s[1]) {
        var rest := s[WsRun(s)..];
        SqueezeSingleSpaced(rest);
        var r := Squeeze(rest);
        assert Squeeze(s) == " " + r;
        assert r != [] ==> !IsWs(r[0]);
      } else {
        SqueezeSingleSpaced(s[1..]);
        var r := Squeeze(s[1..]);
        assert Squeeze(s) == [s[0]] + r;
        assert IsWs(s[0]) && r != [] ==> !IsWs(r[0]);
      }
    }
  }

  /** Text already single-spaced is left as it is, so squeezing twice is squeezing once. */
  lemma {:induction false} SqueezeOfSingleSpaced(s: string)
    requires SingleSpaced(s)
    ensures Squeeze(s) == s
    decreases |s|
  {
    if s != [] {
      assert SingleSpaced(s[1..]);
      SqueezeOfSingleSpaced(s[1..]);
    }
  }

  lemma SqueezeIdempotent(s: string)
    ensures Squeeze(Squeeze(s)) == Squeeze(s)
  {
    SqueezeSingleSpaced(s);
    SqueezeOfSingleSpaced(Squeeze(s));
  }

  /** A run of two or more white-space characters, taken whole, becomes exactly one space. */
  lemma SqueezeRun(w: string, b: string)
    requires |w| >= 2 && forall i :: 0 <= i < |w| ==> IsWs(w[i])
    requires b == [] || !IsWs(b[0])
    ensures Squeeze(w + b) == " " + Squeeze(b)
  {
    var s := w + b;
    assert s[0] == w[0] && s[1] == w[1];
    var n := WsRun(s);
    assert n >= |w|;
    assert n <= |w| by {
      if b != [] {
        assert s[|w|] == b[0];
        assert !IsWs(s[|w|]);
      }
    }
    assert s[n..] == b;
  }

  /** A lone white-space character is not a run and is kept as it is. */
  lemma SqueezeLoneWs(c: char, b: string)
    requires IsWs(c)
    requires b == [] || !IsWs(b[0])
    ensures Squeeze([c] + b) == [c] + Squeeze(b)
  {
    assert ([c] + b)[1..] == b;
  }

  /** A character that is not white space is copied. */
  lemma SqueezeVisibleCons(c: char, s: string)
    requires !IsWs(c)
    ensures Squeeze([c] + s) == [c] + Squeeze(s)
  {
    assert ([c] + s)[1..] == s;
  }

  /** The characters of `s` that are not white space, in order. */
  function Visible(s: string): (v: string)
    ensures |v| <= |s|
  {
    if s == [] then [] else (if IsWs(s[0]) then [] else [s[0]]) + Visible(s[1..])
  }

  lemma {:induction false} VisibleAppend(a: string, b: string)
    ensures Visible(a + b) == Visible(a) + Visible(b)
    decreases |a|
  {
    if a == [] {
      assert a + b == b;
    } else {
      assert (a + b)[1..] == a[1..] + b;
      VisibleAppend(a[1..], b);
    }
  }

  lemma {:induction false} VisibleOfBlank(s: string)
    requires forall i :: 0 <= i < |s| ==> IsWs(s[i])
    ensures Visible(s) == []
    decreases |s|
  {
    if s != [] {
      VisibleOfBlank(s[1..]);
    }
  }

  /** Squeezing touches white space only: the visible characters stay, all of them, in
      order. */
  lemma {:induction false} SqueezeKeepsVisible(s: string)
    ensures Visible(Squeeze(s)) == Visible(s)
    decreases |s|
  {
    if s != [] {
      if 2 <= |s| && IsWs(s[0]) && IsWs(s[1]) {
        var n := WsRun(s);
        var rest := s[n..];
        SqueezeKeepsVisible(rest);
        assert s == s[..n] + rest;
        VisibleAppend(s[..n], rest);
        VisibleOfBlank(s[..n]);
        VisibleAppend(" ", Squeeze(rest));
      } else {
        SqueezeKeepsVisible(s[1..]);
        assert s == [s[0]] + s[1..];
        VisibleAppend([s[0]], s[1..]);
        VisibleAppend([s[0]], Squeeze(s[1..]));
      }
    }
  }

  /** Trimming keeps the visible characters and keeps text single-spaced. */
  lemma TrimKeepsVisible(s: string)
    ensures Visible(Trim(s)) == Visible(s)
    ensures SingleSpaced(s) ==> SingleSpaced(Trim(s))
  {
    TrimIsInfix(s);
    var i := |s| - |TrimStart(s)|;
    var r := Trim(s);
    TrimVisible(s, s[..i], r, s[i + |r|..]);
    if SingleSpaced(s) {
      InfixSingleSpaced(s, i, r);
    }
  }

  lemma TrimVisible(s: string, pre: string, r: string, post: string)
    requires s == pre + r + post
    requires forall j :: 0 <= j < |pre| ==> IsWs(pre[j])
    requires forall j :: 0 <= j < |post| ==> IsWs(post[j])
    ensures Visible(r) == Visible(s)
  {
    VisibleAppend(pre + r, post);
    VisibleAppend(pre, r);
    VisibleOfBlank(pre);
    VisibleOfBlank(post);
  }

  lemma InfixSingleSpaced(s: string, i: nat, r: string)
    requires i + |r| <= |s| && r == s[i..i + |r|]
    requires SingleSpaced(s)
    ensures SingleSpaced(r)
  {
    forall j | 0 <= j < |r| - 1
      ensures !(IsWs(r[j]) && IsWs(r[j + 1]))
    {
      assert r[j] == s[i + j] && r[j + 1] == s[i + j + 1];
    }
  }

  /** The parties cell of the litigant search: `<br>` tags become `" | "`, white-space runs
      become one space, the ends are trimmed; a missing or empty cell gives `""`. */
  function PartiesSummary(html: Option<string>): string {
    if html.Some? && html.value != "" then Trim(Squeeze(ReplaceBr(html.value))) else ""
  }

  /** The parties cell of the case-number search: `<br>` tags become `" | "` and the ends are
      trimmed, with no squeezing; a missing cell stays missing (`html()?.`). */
  function PartiesLine(html: Option<string>): Option<string> {
    if html.Some? then Some(Trim(ReplaceBr(html.value))) else None
  }

  /** The litigant-search parties text is trimmed, single-spaced, and shows exactly the visible
      characters of the cell after tag replacement. */
  lemma PartiesSummaryClean(html: Option<string>)
    ensures Trimmed(PartiesSummary(html)) && SingleSpaced(PartiesSummary(html))
    ensures Visible(PartiesSummary(html))
         == if html.Some? then Visible(ReplaceBr(html.value)) else []
  {
    if html.Some? && html.value != "" {
      var r := ReplaceBr(html.value);
      SqueezeSingleSpaced(r);
      SqueezeKeepsVisible(r);
      TrimKeepsVisible(Squeeze(r));
    } else if html.Some? {
      assert ReplaceBr(html.value) == [];
    }
  }

  /** A tag padded with spaces and a newline comes out as one bar between single spaces. */
  lemma PartiesSummaryExample(cell: string)
    requires cell == "A  <br>\n B"
    ensures PartiesSummary(Some(cell)) == "A | B"
  {
    var replaced := PartiesReplaced(cell);
    var squeezed := PartiesSqueezed(replaced);
    assert Trimmed(squeezed);
    TrimOfTrimmed(squeezed);
  }

  lemma PartiesReplaced(cell: string) returns (replaced: string)
    requires cell == "A  <br>\n B"
    ensures replaced == ReplaceBr(cell) && replaced == "A   | \n B"
  {
    assert IsBrTag("<br>");
    assert cell == "A  " + ("<br>" + "\n B");
    ReplaceOneTag("A  ", "<br>", "\n B");
    assert "A  " + (" | " + "\n B") == "A   | \n B";
    replaced := ReplaceBr(cell);
  }

  /** One tag between two texts without `<`. */
  lemma ReplaceOneTag(a: string, t: string, b: string)
    requires '<' !in a && IsBrTag(t) && '<' !in b
    ensures ReplaceBr(a + (t + b)) == a + (" | " + b)
  {
    ReplaceBrPlain(b, []);
    assert b + [] == b;
    var rb := ReplaceBr(b);
    assert rb == b;
    ReplaceBrTag(t, b);
    ReplaceBrPlain(a, t + b);
  }

  lemma PartiesSqueezed(replaced: string) returns (squeezed: string)
    requires replaced == "A   | \n B"
    ensures squeezed == Squeeze(replaced) && squeezed == "A | B"
  {
    assert replaced == ['A'] + ("   " + (['|'] + (" \n " + ['B'])));
    SqueezeTwoRuns('A', "   ", '|', " \n ", 'B');
    assert ['A'] + (" " + (['|'] + (" " + ['B']))) == "A | B";
    squeezed := Squeeze(replaced);
  }

  /** Three visible characters separated by two runs give the three characters single-spaced. */
  lemma SqueezeTwoRuns(x: char, w1: string, y: char, w2: string, z: char)
    requires !IsWs(x) && !IsWs(y) && !IsWs(z)
    requires |w1| >= 2 && forall i :: 0 <= i < |w1| ==> IsWs(w1[i])
    requires |w2| >= 2 && forall i :: 0 <= i < |w2| ==> IsWs(w2[i])
    ensures Squeeze([x] + (w1 + ([y] + (w2 + [z])))) == [x] + (" " + ([y] + (" " + [z])))
  {
    var last: string := [z];
    SqueezeVisibleCons(z, []);
    assert last + [] == last;
    var r1 := Squeeze(last);
    assert r1 == [z];
    var tail := w2 + last;
    SqueezeRun(w2, last);
    var r2 := Squeeze(tail);
    assert r2 == " " + r1;
    var mid := [y] + tail;
    SqueezeVisibleCons(y, tail);
    var r3 := Squeeze(mid);
    assert r3 == [y] + r2;
    var body := w1 + mid;
    SqueezeRun(w1, mid);
    var r4 := Squeeze(body);
    assert r4 == " " + r3;
    SqueezeVisibleCons(x, body);
    assert Squeeze([x] + body) == [x] + r4;
  }

  /** The two searches clean the parties cell alike whenever the cell, tags replaced, has no
      white-space run to squeeze. */
  lemma PartiesAgree(html: Option<string>)
    requires html.Some? && SingleSpaced(ReplaceBr(html.value))
    ensures PartiesLine(html) == Some(PartiesSummary(html))
  {
    SqueezeOfSingleSpaced(ReplaceBr(html.value));
    if html.value == "" {
      assert ReplaceBr(html.value) == [];
    }
  }

  /** One `td` as cheerio reports it: its `text()`, its `html()`, and the `href` and `data-cno`
      attributes of the `a.viewCnrDetails` inside it (missing when there is no such link or no
      such attribute). */
  datatype Cell = Cell(text: string, html: string, viewHref: Option<string>, viewCno: Option<string>)

  /** A `tr` of the result table, as its cells in order. */
  datatype Row = Row(cells: seq<Cell>)

  /** `td:nth-child(n)`, one-based: a missing cell has the empty text, no html, and no link. */
  function CellText(row: Row, n: nat): string {
    if 1 <= n <= |row.cells| then row.cells[n - 1].text else ""
  }

  function CellHtml(row: Row, n: nat): Option<string> {
    if 1 <= n <= |row.cells| then Some(row.cells[n - 1].html) else None
  }

  function CellHref(row: Row, n: nat): Option<string> {
    if 1 <= n <= |row.cells| then row.cells[n - 1].viewHref else None
  }

  function CellCno(row: Row, n: nat): Option<string> {
    if 1 <= n <= |row.cells| then row.cells[n - 1].viewCno else None
  }

  /** `viewDetails`: where the client can look the case up. */
  datatype ViewDetails = ViewDetails(url: Option<string>, caseNumberOnly: Option<string>)

  /** A row of the case-number search: five columns, the view link in the fifth. */
  datatype CaseNumberRecord = CaseNumberRecord(
    serialNumber: string, caseTypeNumberYear: string, filingNumber: string,
    petitionerRespondent: Option<string>, viewDetails: ViewDetails)

  /** A row of the litigant search: four columns, the view link in the fourth. */
  datatype PartySearchRecord = PartySearchRecord(
    serialNumber: string, caseTypeNumberYear: string, petitionerRespondent: string,
    viewDetails: ViewDetails)

  function CaseNumberRecordOf(row: Row): CaseNumberRecord {
    CaseNumberRecord(
      Trim(CellText(row, 1)), Trim(CellText(row, 2)), Trim(CellText(row, 3)),
      PartiesLine(CellHtml(row, 4)),
      ViewDetails(CellHref(row, 5), CellCno(row, 5)))
  }

  function PartySearchRecordOf(row: Row): PartySearchRecord {
    PartySearchRecord(
      Trim(CellText(row, 1)), Trim(CellText(row, 2)),
      PartiesSummary(CellHtml(row, 3)),
      ViewDetails(CellHref(row, 4), CellCno(row, 4)))
  }

  /** The text fields of a case-number record have no white space at either end. */
  predicate WellFormedCaseNumber(c: CaseNumberRecord) {
    && Trimmed(c.serialNumber) && Trimmed(c.caseTypeNumberYear) && Trimmed(c.filingNumber)
    && (c.petitionerRespondent.Some? ==> Trimmed(c.petitionerRespondent.value))
  }

  /** The text fields of a litigant-search record have no white space at either end, and the
      parties text is single-spaced. */
  predicate WellFormedPartySearch(c: PartySearchRecord) {
    && Trimmed(c.serialNumber) && Trimmed(c.caseTypeNumberYear)
    && Trimmed(c.petitionerRespondent) && SingleSpaced(c.petitionerRespondent)
  }

  /** Every case-number record is well formed, and a row too short to have a fourth cell has
      no parties text. */
  lemma CaseNumberRecordClean(row: Row)
    ensures WellFormedCaseNumber(CaseNumberRecordOf(row))
    ensures |row.cells| < 4 ==> CaseNumberRecordOf(row).petitionerRespondent.None?
  {
  }

  /** Every litigant-search record is well formed, and a row too short to have a third cell has
      an empty parties text. */
  lemma PartySearchRecordClean(row: Row)
    ensures WellFormedPartySearch(PartySearchRecordOf(row))
    ensures |row.cells| < 3 ==> PartySearchRecordOf(row).petitionerRespondent == ""
  {
    PartiesSummaryClean(CellHtml(row, 3));
  }

  /** The rows loop of the case-number search: one record per row, in row order. */
  method ParseCaseNumberRows(rows: seq<Row>) returns (cases: seq<CaseNumberRecord>)
    ensures |cases| == |rows|
    ensures forall i :: 0 <= i < |rows| ==> cases[i] == CaseNumberRecordOf(rows[i])
    ensures forall i :: 0 <= i < |rows| ==> WellFormedCaseNumber(cases[i])
    ensures forall i :: 0 <= i < |rows| && |rows[i].cells| < 4 ==> cases[i].petitionerRespondent.None?
  {
    cases := [];
    var i := 0;
    while i < |rows|
      invariant 0 <= i <= |rows|
      invariant |cases| == i
      invariant forall j :: 0 <= j < i ==> cases[j] == CaseNumberRecordOf(rows[j])
    {
      var record := CaseNumberRecordOf(rows[i]);
      cases := cases + [record];
      i := i + 1;
    }
    forall j | 0 <= j < |rows|
      ensures WellFormedCaseNumber(cases[j])
      ensures |rows[j].cells| < 4 ==> cases[j].petitionerRespondent.None?
    {
      CaseNumberRecordClean(rows[j]);
    }
  }

  /** The rows loop of the litigant search: one record per row, in row order. */
  method ParsePartySearchRows(rows: seq<Row>) returns (cases: seq<PartySearchRecord>)
    ensures |cases| == |rows|
    ensures forall i :: 0 <= i < |rows| ==> cases[i] == PartySearchRecordOf(rows[i])
    ensures forall i :: 0 <= i < |rows| ==> WellFormedPartySearch(cases[i])
    ensures forall i :: 0 <= i < |rows| && |rows[i].cells| < 3 ==> cases[i].petitionerRespondent == ""
  {
    cases := [];
    var i := 0;
    while i < |rows|
      invariant 0 <= i <= |rows|
      invariant |cases| == i
      invariant forall j :: 0 <= j < i ==> cases[j] == PartySearchRecordOf(rows[j])
    {
      var record := PartySearchRecordOf(rows[i]);
      cases := cases + [record];
      i := i + 1;
    }
    forall j | 0 <= j < |rows|
      ensures WellFormedPartySearch(cases[j])
      ensures |rows[j].cells| < 3 ==> cases[j].petitionerRespondent == ""
    {
      PartySearchRecordClean(rows[j]);
    }
  }
}
