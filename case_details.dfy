/**
 * The case-details object of the CINO lookup, built from the tables cheerio finds on the
 * details page: header keys zipped with cell texts into one object, where a later assignment
 * to a key replaces an earlier one.
 */
module CaseDetails {
  import opened Text
  import opened Js
  import opened HeaderKeys

  /** The texts of one table: its `thead th` cells and its `tbody td` cells, each in document
      order and as cheerio returns them (untrimmed). */
  datatype TableText = TableText(headers: seq<string>, cells: seq<string>)

  /** The case-history table: its `thead th` texts and, for each `tbody tr`, its `td` texts. */
  datatype HistoryText = HistoryText(headers: seq<string>, rows: seq<seq<string>>)

  /** One `li` of the petitioner list: its text and, when the party pattern matched the trimmed
      text, what its name group and its advocate group captured. */
  datatype PetitionerItem = PetitionerItem(text: string, groups: Option<(string, string)>)

  /** One `li` of the respondent list; there the advocate group is optional, and `None` when it
      took no part in the match. */
  datatype RespondentItem = RespondentItem(text: string, groups: Option<(string, Option<string>)>)

  /** What cheerio finds on the details page; a table that is not on the page is `None`. */
  datatype DetailsPage = DetailsPage(
    summary: Option<TableText>, status: Option<TableText>,
    petitioners: seq<PetitionerItem>, respondents: seq<RespondentItem>,
    acts: Option<TableText>, fir: Option<TableText>, history: Option<HistoryText>)

  /** A party with its advocate (`null` when none was found). */
  datatype Party = Party(name: string, advocate: Option<string>)

  /** A property of the case-details object. */
  datatype Detail =
    | Unset                                   // `undefined`: assigned, then left out by `JSON.stringify`
    | Plain(s: string)
    | PartyList(parties: seq<Party>)
    | Columns(columns: map<string, string>)
    | Entries(entries: seq<map<string, string>>)

  // ----- assignments to an object -----

  /** The object `m` after the assignments `m[k] = v` of `writes`, in order. */
  function Apply<V>(m: map<string, V>, writes: seq<(string, V)>): map<string, V> {
    if writes == [] then m
    else
      var w := writes[|writes| - 1];
      Apply(m, writes[..|writes| - 1])[w.0 := w.1]
  }

  /** The keys `writes` assigns. */
  function KeysOf<V>(writes: seq<(string, V)>): set<string> {
    set j | 0 <= j < |writes| :: writes[j].0
  }

  lemma ApplySnoc<V>(m: map<string, V>, writes: seq<(string, V)>, w: (string, V))
    ensures Apply(m, writes + [w]) == Apply(m, writes)[w.0 := w.1]
  {
    assert (writes + [w])[..|writes|] == writes;
  }

  /** A loop of assignments `m[k] = v`, one per element of `writes`, in order. */
  method Assign<V>(m: map<string, V>, writes: seq<(string, V)>) returns (r: map<string, V>)
    ensures r == Apply(m, writes)
  {
    r := m;
    var index := 0;
    while index < |writes|
      invariant 0 <= index <= |writes|
      invariant r == Apply(m, writes[..index])
    {
      var w := writes[index];
      ApplySnoc(m, writes[..index], w);
      assert writes[..index + 1] == writes[..index] + [w];
      r := r[w.0 := w.1];
      index := index + 1;
    }
    assert writes[..index] == writes;
  }

  /** Last write wins: a key holds the value of its last assignment. */
  lemma {:induction false} ApplyLastWrite<V>(m: map<string, V>, writes: seq<(string, V)>, i: nat)
    requires i < |writes|
    requires forall j :: i < j < |writes| ==> writes[j].0 != writes[i].0
    ensures writes[i].0 in Apply(m, writes) && Apply(m, writes)[writes[i].0] == writes[i].1
  {
    var n := |writes| - 1;
    if i < n {
      var prefix := writes[..n];
      assert prefix[i] == writes[i];
      assert forall j :: i < j < |prefix| ==> prefix[j] == writes[j];
      ApplyLastWrite(m, prefix, i);
    }
  }

  /** A key no write assigns keeps what it had, or stays absent. */
  lemma {:induction false} ApplyUntouched<V>(m: map<string, V>, writes: seq<(string, V)>, k: string)
    requires forall j :: 0 <= j < |writes| ==> writes[j].0 != k
    ensures k in Apply(m, writes) <==> k in m
    ensures k in m ==> Apply(m, writes)[k] == m[k]
  {
    if writes != [] {
      var prefix := writes[..|writes| - 1];
      assert forall j :: 0 <= j < |prefix| ==> prefix[j] == writes[j];
      ApplyUntouched(m, prefix, k);
    }
  }

  /** The keys after the writes are the keys before and the keys written. */
  lemma {:induction false} ApplyKeys<V>(m: map<string, V>, writes: seq<(string, V)>)
    ensures Apply(m, writes).Keys == m.Keys + KeysOf(writes)
  {
    if writes != [] {
      var n := |writes| - 1;
      var prefix := writes[..n];
      ApplyKeys(m, prefix);
      assert KeysOf(writes) == KeysOf(prefix) + {writes[n].0} by {
        forall k | k in KeysOf(writes) ensures k in KeysOf(prefix) + {writes[n].0} {
          var j :| 0 <= j < |writes| && writes[j].0 == k;
          if j < n {
            assert prefix[j] == writes[j];
          }
        }
        forall k | k in KeysOf(prefix) ensures k in KeysOf(writes) {
          var j :| 0 <= j < |prefix| && prefix[j].0 == k;
          assert writes[j] == prefix[j];
        }
      }
    }
  }

  /** Writes that all carry non-empty text never erase: every key keeps its value or gets a
      non-empty text, and no key is lost. */
  lemma {:induction false} ApplyNeverErases(m: map<string, Detail>, writes: seq<(string, Detail)>)
    requires forall j :: 0 <= j < |writes| ==> writes[j].1.Plain? && writes[j].1.s != ""
    ensures forall k :: k in m ==> k in Apply(m, writes)
    ensures forall k :: k in Apply(m, writes) ==>
      (k in m && Apply(m, writes)[k] == m[k]) || (Apply(m, writes)[k].Plain? && Apply(m, writes)[k].s != "")
  {
    if writes != [] {
      var prefix := writes[..|writes| - 1];
      assert forall j :: 0 <= j < |prefix| ==> prefix[j] == writes[j];
      ApplyNeverErases(m, prefix);
    }
  }

  // ----- the first summary table -----

  /** `caseDetails[key] = values[index]` for each header in turn: the value of the same
      column, trimmed, or `undefined` when there are fewer values than headers. */
  function SummaryWrites(t: TableText): (writes: seq<(string, Detail)>)
    ensures |writes| == |t.headers|
  {
    seq(|t.headers|, i requires 0 <= i < |t.headers| =>
      (Key(SummaryHeader(t.headers[i])), if i < |t.cells| then Plain(Trim(t.cells[i])) else Unset))
  }

  method FillSummary(details: map<string, Detail>, t: TableText) returns (r: map<string, Detail>)
    ensures r == Apply(details, SummaryWrites(t))
  {
    r := Assign(details, SummaryWrites(t));
  }

  /** Each header's key holds the value of its own column unless a later header has the same
      key; a header past the last value sets `undefined`, erasing what was there. */
  lemma SummaryColumn(details: map<string, Detail>, t: TableText, i: nat)
    requires i < |t.headers|
    requires forall j :: i < j < |t.headers| ==> Key(SummaryHeader(t.headers[j])) != Key(SummaryHeader(t.headers[i]))
    ensures var r := Apply(details, SummaryWrites(t)); var k := Key(SummaryHeader(t.headers[i]));
      && k in r
      && (i < |t.cells| ==> r[k] == Plain(Trim(t.cells[i])))
      && (i >= |t.cells| ==> r[k] == Unset)
  {
    ApplyLastWrite(details, SummaryWrites(t), i);
  }

  // ----- the second summary table -----

  /** The key and the trimmed value of each column of the second table; a header past the last
      value reads `undefined`, as falsy as an empty text. */
  function StatusColumns(t: TableText): (columns: seq<(string, string)>)
    ensures |columns| == |t.headers|
  {
    seq(|t.headers|, i requires 0 <= i < |t.headers| =>
      (Key(StatusHeader(t.headers[i])), if i < |t.cells| then Trim(t.cells[i]) else ""))
  }

  /** The assignments of the first `n` columns of the second table: only a column whose value
      is non-empty is written. */
  function StatusWrites(columns: seq<(string, string)>, n: nat): (writes: seq<(string, Detail)>)
    requires n <= |columns|
  {
    if n == 0 then []
    else
      var c := columns[n - 1];
      StatusWrites(columns, n - 1) + (if c.1 != "" then [(c.0, Plain(c.1))] else [])
  }

  /** Every assignment of the second table writes a non-empty text. */
  lemma {:induction false} StatusWritesNonEmpty(columns: seq<(string, string)>, n: nat)
    requires n <= |columns|
    ensures forall j :: 0 <= j < |StatusWrites(columns, n)| ==>
      StatusWrites(columns, n)[j].1.Plain? && StatusWrites(columns, n)[j].1.s != ""
  {
    if n > 0 {
      StatusWritesNonEmpty(columns, n - 1);
      var front := StatusWrites(columns, n - 1);
      var c := columns[n - 1];
      var last: seq<(string, Detail)> := if c.1 != "" then [(c.0, Plain(c.1))] else [];
      assert StatusWrites(columns, n) == front + last;
      forall j | 0 <= j < |front + last|
        ensures (front + last)[j].1.Plain? && (front + last)[j].1.s != ""
      {
        if j < |front| {
          assert (front + last)[j] == front[j];
        } else {
          assert (front + last)[j] == last[j - |front|];
        }
      }
    }
  }

  /** The `forEach` over the headers of the second table, given each column's key and value. */
  method FillStatus(details: map<string, Detail>, columns: seq<(string, string)>) returns (r: map<string, Detail>)
    ensures r == Apply(details, StatusWrites(columns, |columns|))
  {
    r := details;
    var index := 0;
    while index < |columns|
      invariant 0 <= index <= |columns|
      invariant r == Apply(details, StatusWrites(columns, index))
    {
      var c := columns[index];
      var before := r;
      if c.1 != "" {
        r := r[c.0 := Plain(c.1)];
      }
      StatusStep(details, columns, index, before, r);
      index := index + 1;
    }
  }

  /** One more column: its key is assigned when its value is non-empty, and nothing happens
      otherwise. */
  lemma StatusStep(details: map<string, Detail>, columns: seq<(string, string)>, n: nat,
                   before: map<string, Detail>, after: map<string, Detail>)
    requires n < |columns| && before == Apply(details, StatusWrites(columns, n))
    requires after == if columns[n].1 != "" then before[columns[n].0 := Plain(columns[n].1)] else before
    ensures after == Apply(details, StatusWrites(columns, n + 1))
  {
    var c := columns[n];
    if c.1 != "" {
      assert StatusWrites(columns, n + 1) == StatusWrites(columns, n) + [(c.0, Plain(c.1))];
      ApplySnoc(details, StatusWrites(columns, n), (c.0, Plain(c.1)));
    } else {
      assert StatusWrites(columns, n + 1) == StatusWrites(columns, n) + [];
      assert StatusWrites(columns, n + 1) == StatusWrites(columns, n);
    }
  }

  /** The second table never erases: every key the first table set is still there, either
      unchanged or holding a non-empty text. */
  lemma StatusNeverErases(details: map<string, Detail>, t: TableText)
    ensures var r := Apply(details, StatusWrites(StatusColumns(t), |t.headers|));
      && (forall k :: k in details ==> k in r)
      && (forall k :: k in r ==> (k in details && r[k] == details[k]) || (r[k].Plain? && r[k].s != ""))
  {
    StatusWritesNonEmpty(StatusColumns(t), |t.headers|);
    ApplyNeverErases(details, StatusWrites(StatusColumns(t), |t.headers|));
  }

  /** Without a non-empty value the second table changes nothing at all. */
  lemma {:induction false} BlankStatusChangesNothing(columns: seq<(string, string)>, n: nat)
    requires n <= |columns|
    requires forall i :: 0 <= i < |columns| ==> columns[i].1 == ""
    ensures StatusWrites(columns, n) == []
  {
    if n > 0 {
      BlankStatusChangesNothing(columns, n - 1);
    }
  }

  // ----- the acts and FIR tables -----

  /** The columns of an acts or FIR table, each header's key to the trimmed value of its
      column; the lengths must agree. */
  function ColumnWrites(t: TableText): (writes: seq<(string, string)>)
    requires |t.headers| == |t.cells|
    ensures |writes| == |t.headers|
  {
    seq(|t.headers|, i requires 0 <= i < |t.headers| => (Key(Trim(t.headers[i])), Trim(t.cells[i])))
  }

  /** The object the handler creates for the table: filled only when there are as many values
      as headers, and left empty otherwise. */
  function ColumnsOf(t: TableText): map<string, string> {
    if |t.headers| == |t.cells| then Apply(map[], ColumnWrites(t)) else map[]
  }

  method FillColumns(t: TableText) returns (columns: map<string, string>)
    ensures columns == ColumnsOf(t)
  {
    columns := map[];
    if |t.headers| == |t.cells| {
      columns := Assign(map[], ColumnWrites(t));
    }
  }

  /** On a length mismatch the object stays empty; otherwise its keys are exactly the keys of
      the headers. */
  lemma ColumnsKeys(t: TableText)
    ensures |t.headers| != |t.cells| ==> ColumnsOf(t) == map[]
    ensures |t.headers| == |t.cells| ==>
      ColumnsOf(t).Keys == set i | 0 <= i < |t.headers| :: Key(Trim(t.headers[i]))
  {
    if |t.headers| == |t.cells| {
      var writes := ColumnWrites(t);
      ApplyKeys(map[], writes);
      forall k | k in KeysOf(writes) ensures exists i :: 0 <= i < |t.headers| && k == Key(Trim(t.headers[i])) {
        var j :| 0 <= j < |writes| && writes[j].0 == k;
        assert k == Key(Trim(t.headers[j]));
      }
      forall i | 0 <= i < |t.headers| ensures Key(Trim(t.headers[i])) in KeysOf(writes) {
        assert writes[i].0 == Key(Trim(t.headers[i]));
      }
    }
  }

  /** When the lengths agree, each header's key holds the value of its own column unless a
      later header has the same key. */
  lemma ColumnValue(t: TableText, i: nat)
    requires |t.headers| == |t.cells| && i < |t.headers|
    requires forall j :: i < j < |t.headers| ==> Key(Trim(t.headers[j])) != Key(Trim(t.headers[i]))
    ensures Key(Trim(t.headers[i])) in ColumnsOf(t)
    ensures ColumnsOf(t)[Key(Trim(t.headers[i]))] == Trim(t.cells[i])
  {
    ApplyLastWrite(map[], ColumnWrites(t), i);
  }

  // ----- the case-history table -----

  /** The key of each history header. */
  function HistoryKeys(headers: seq<string>): (keys: seq<string>)
    ensures |keys| == |headers|
  {
    seq(|headers|, j requires 0 <= j < |headers| => Key(Trim(headers[j])))
  }

  /** The assignments of the first `n` cells of a history row, each under its column's key. */
  function RowWrites(keys: seq<string>, row: seq<string>, n: nat): (writes: seq<(string, string)>)
    requires n <= |keys| && n <= |row|
    ensures |writes| == n
  {
    seq(n, j requires 0 <= j < n => (keys[j], Trim(row[j])))
  }

  /** A history row holding no more cells than there are headers. */
  predicate RowFits(headers: seq<string>, row: seq<string>) {
    |row| <= |headers|
  }

  /** The object of one history row. */
  function RowObject(headers: seq<string>, row: seq<string>): map<string, string>
    requires RowFits(headers, row)
  {
    Apply(map[], RowWrites(HistoryKeys(headers), row, |row|))
  }

  /** The history entries, one object per row in row order; `None` when a row has a cell past
      the last header, whose missing header text makes the key computation throw. */
  function HistoryOf(h: HistoryText): (entries: Option<seq<map<string, string>>>)
    ensures entries.Some? ==> |entries.value| == |h.rows|
  {
    if forall i :: 0 <= i < |h.rows| ==> RowFits(h.headers, h.rows[i])
    then Some(seq(|h.rows|, i requires 0 <= i < |h.rows| && RowFits(h.headers, h.rows[i]) =>
                RowObject(h.headers, h.rows[i])))
    else None
  }

  /** The `each` over the cells of one history row: `None` once a cell has no header. */
  method FillRow(keys: seq<string>, row: seq<string>) returns (rowData: Option<map<string, string>>)
    ensures rowData.None? <==> |row| > |keys|
    ensures rowData.Some? ==> rowData.value == Apply(map[], RowWrites(keys, row, |row|))
  {
    var data: map<string, string> := map[];
    var j := 0;
    while j < |row|
      invariant 0 <= j <= |row| && j <= |keys|
      invariant data == Apply(map[], RowWrites(keys, row, j))
    {
      if j == |keys| {
        return None;
      }
      var w := (keys[j], Trim(row[j]));
      ApplySnoc(map[], RowWrites(keys, row, j), w);
      assert RowWrites(keys, row, j + 1) == RowWrites(keys, row, j) + [w];
      data := data[w.0 := w.1];
      j := j + 1;
    }
    return Some(data);
  }

  /** The `forEach` over the rows of the history table. */
  method ListHistory(h: HistoryText) returns (entries: Option<seq<map<string, string>>>)
    ensures entries == HistoryOf(h)
  {
    var keys := HistoryKeys(h.headers);
    var done: seq<map<string, string>> := [];
    var i := 0;
    while i < |h.rows|
      invariant 0 <= i <= |h.rows|
      invariant forall k :: 0 <= k < i ==> RowFits(h.headers, h.rows[k])
      invariant |done| == i && forall k :: 0 <= k < i ==> done[k] == RowObject(h.headers, h.rows[k])
    {
      var rowData := FillRow(keys, h.rows[i]);
      if rowData.None? {
        HistoryMisfit(h, i);
        return None;
      }
      HistoryStep(h, done, i, rowData.value);
      done := done + [rowData.value];
      i := i + 1;
    }
    entries := Some(done);
    HistoryOfRows(h, done);
  }

  lemma HistoryStep(h: HistoryText, done: seq<map<string, string>>, i: nat, rowData: map<string, string>)
    requires i < |h.rows| && |h.rows[i]| <= |h.headers|
    requires rowData == Apply(map[], RowWrites(HistoryKeys(h.headers), h.rows[i], |h.rows[i]|))
    requires forall k :: 0 <= k < i ==> RowFits(h.headers, h.rows[k])
    requires |done| == i && forall k :: 0 <= k < i ==> done[k] == RowObject(h.headers, h.rows[k])
    ensures forall k :: 0 <= k < i + 1 ==> RowFits(h.headers, h.rows[k])
    ensures |done + [rowData]| == i + 1
    ensures forall k :: 0 <= k < i + 1 ==> (done + [rowData])[k] == RowObject(h.headers, h.rows[k])
  {
    assert RowFits(h.headers, h.rows[i]);
    var obj := RowObject(h.headers, h.rows[i]);
    assert rowData == obj;
    var next := done + [rowData];
    forall k | 0 <= k < i + 1
      ensures next[k] == RowObject(h.headers, h.rows[k])
    {
      if k < i {
        assert next[k] == done[k];
      } else {
        assert next[k] == obj;
      }
    }
  }

  lemma HistoryMisfit(h: HistoryText, i: nat)
    requires i < |h.rows| && |h.rows[i]| > |h.headers|
    ensures HistoryOf(h) == None
  {
    assert !RowFits(h.headers, h.rows[i]);
  }

  lemma HistoryOfRows(h: HistoryText, done: seq<map<string, string>>)
    requires forall k :: 0 <= k < |h.rows| ==> RowFits(h.headers, h.rows[k])
    requires |done| == |h.rows| && forall k :: 0 <= k < |h.rows| ==> done[k] == RowObject(h.headers, h.rows[k])
    ensures HistoryOf(h) == Some(done)
  {
    assert done == seq(|h.rows|, i requires 0 <= i < |h.rows| && RowFits(h.headers, h.rows[i]) =>
                RowObject(h.headers, h.rows[i]));
  }

  /** Each entry of the history holds, for every cell, the key of its column's header, with
      the value of the last cell under that key. */
  lemma HistoryCell(h: HistoryText, i: nat, j: nat)
    requires i < |h.rows| && j < |h.rows[i]|
    requires HistoryOf(h).Some?
    requires forall l :: j < l < |h.rows[i]| ==> Key(Trim(h.headers[l])) != Key(Trim(h.headers[j]))
    ensures Key(Trim(h.headers[j])) in HistoryOf(h).value[i]
    ensures HistoryOf(h).value[i][Key(Trim(h.headers[j]))] == Trim(h.rows[i][j])
  {
    var row := h.rows[i];
    assert RowFits(h.headers, row);
    var keys := HistoryKeys(h.headers);
    var writes := RowWrites(keys, row, |row|);
    assert forall l :: j < l < |writes| ==> writes[l].0 == Key(Trim(h.headers[l]));
    ApplyLastWrite(map[], writes, j);
  }

  // ----- the parties -----

  /** A petitioner: the trimmed groups of a match, or the whole trimmed text with no advocate. */
  function PetitionerOf(item: PetitionerItem): (p: Party)
    ensures Trimmed(p.name)
    ensures item.groups.None? <==> p.advocate.None?
    ensures p.advocate.Some? ==> Trimmed(p.advocate.value)
  {
    match item.groups
    case None => Party(Trim(item.text), None)
    case Some((name, advocate)) => Party(Trim(name), Some(Trim(advocate)))
  }

  /** A respondent: as a petitioner, except that an advocate group that took no part in the
      match or captured nothing gives no advocate. */
  function RespondentOf(item: RespondentItem): (p: Party)
    ensures Trimmed(p.name)
    ensures p.advocate.Some? <==> item.groups.Some? && item.groups.value.1.Some? && item.groups.value.1.value != ""
    ensures p.advocate.Some? ==> Trimmed(p.advocate.value)
  {
    match item.groups
    case None => Party(Trim(item.text), None)
    case Some((name, advocate)) =>
      Party(Trim(name), if advocate.Some? && advocate.value != "" then Some(Trim(advocate.value)) else None)
  }

  method ListPetitioners(items: seq<PetitionerItem>) returns (parties: seq<Party>)
    ensures |parties| == |items|
    ensures forall i :: 0 <= i < |items| ==> parties[i] == PetitionerOf(items[i])
  {
    parties := [];
    for i := 0 to |items|
      invariant |parties| == i
      invariant forall k :: 0 <= k < i ==> parties[k] == PetitionerOf(items[k])
    {
      parties := parties + [PetitionerOf(items[i])];
    }
  }

  method ListRespondents(items: seq<RespondentItem>) returns (parties: seq<Party>)
    ensures |parties| == |items|
    ensures forall i :: 0 <= i < |items| ==> parties[i] == RespondentOf(items[i])
  {
    parties := [];
    for i := 0 to |items|
      invariant |parties| == i
      invariant forall k :: 0 <= k < i ==> parties[k] == RespondentOf(items[k])
    {
      parties := parties + [RespondentOf(items[i])];
    }
  }

  // ----- the whole object -----

  /** The keys the handler assigns after the tables of headers, which replace a header key
      that happens to be spelled the same. */
  const ReservedKeys: set<string> := {"petitioners", "respondents", "acts", "fir_details", "case_history"}

  /** The object from the two summary tables alone. */
  function TablesOf(page: DetailsPage): map<string, Detail> {
    var first := if page.summary.Some? then Apply(map[], SummaryWrites(page.summary.value)) else map[];
    if page.status.Some? then Apply(first, StatusWrites(StatusColumns(page.status.value), |page.status.value.headers|))
    else first
  }

  /** The case-details object, or `None` when the history table makes the handler throw. */
  function CaseDetailsOf(page: DetailsPage): Option<map<string, Detail>> {
    if page.history.Some? && HistoryOf(page.history.value).None? then None
    else
      var petitioners := seq(|page.petitioners|, i requires 0 <= i < |page.petitioners| => PetitionerOf(page.petitioners[i]));
      var respondents := seq(|page.respondents|, i requires 0 <= i < |page.respondents| => RespondentOf(page.respondents[i]));
      var d := TablesOf(page)["petitioners" := PartyList(petitioners)]["respondents" := PartyList(respondents)];
      var d := if page.acts.Some? then d["acts" := Columns(ColumnsOf(page.acts.value))] else d;
      var d := if page.fir.Some? then d["fir_details" := Columns(ColumnsOf(page.fir.value))] else d;
      var d := if page.history.Some? then d["case_history" := Entries(HistoryOf(page.history.value).value)] else d;
      Some(d)
  }

  /** The body of the handler's `try` block after the call: the tables in page order, then
      the parties, then the acts, FIR and history tables. */
  method BuildCaseDetails(page: DetailsPage) returns (details: Option<map<string, Detail>>)
    ensures details == CaseDetailsOf(page)
  {
    var d: map<string, Detail> := map[];
    if page.summary.Some? {
      d := FillSummary(d, page.summary.value);
    }
    if page.status.Some? {
      d := FillStatus(d, StatusColumns(page.status.value));
    }
    var petitioners := ListPetitioners(page.petitioners);
    d := d["petitioners" := PartyList(petitioners)];
    var respondents := ListRespondents(page.respondents);
    d := d["respondents" := PartyList(respondents)];
    assert petitioners == seq(|page.petitioners|, i requires 0 <= i < |page.petitioners| => PetitionerOf(page.petitioners[i]));
    assert respondents == seq(|page.respondents|, i requires 0 <= i < |page.respondents| => RespondentOf(page.respondents[i]));
    if page.acts.Some? {
      var acts := FillColumns(page.acts.value);
      d := d["acts" := Columns(acts)];
    }
    if page.fir.Some? {
      var fir := FillColumns(page.fir.value);
      d := d["fir_details" := Columns(fir)];
    }
    if page.history.Some? {
      var history := ListHistory(page.history.value);
      if history.None? {
        assert CaseDetailsOf(page).None?;
        return None;
      }
      d := d["case_history" := Entries(history.value)];
    }
    details := Some(d);
  }

  /** The handler throws exactly when the history table has a row with more cells than
      headers; otherwise the parties are always there, the acts, FIR and history objects
      whenever their table is, and each replaces a header key of the same spelling. */
  lemma ReservedKeysWin(page: DetailsPage)
    ensures CaseDetailsOf(page).None? <==>
      page.history.Some? &&
      exists i :: 0 <= i < |page.history.value.rows| && |page.history.value.rows[i]| > |page.history.value.headers|
    ensures CaseDetailsOf(page).Some? ==>
      var d := CaseDetailsOf(page).value;
      && d["petitioners"].PartyList? && |d["petitioners"].parties| == |page.petitioners|
      && d["respondents"].PartyList? && |d["respondents"].parties| == |page.respondents|
      && (page.acts.Some? ==> d["acts"] == Columns(ColumnsOf(page.acts.value)))
      && (page.fir.Some? ==> d["fir_details"] == Columns(ColumnsOf(page.fir.value)))
      && (page.history.Some? ==> d["case_history"].Entries? && |d["case_history"].entries| == |page.history.value.rows|)
  {
  }

  /** Every other key comes from the two summary tables and nowhere else. */
  lemma OtherKeysFromTables(page: DetailsPage, k: string)
    requires CaseDetailsOf(page).Some? && k !in ReservedKeys
    ensures k in CaseDetailsOf(page).value <==> k in TablesOf(page)
    ensures k in TablesOf(page) ==> CaseDetailsOf(page).value[k] == TablesOf(page)[k]
  {
  }

  /** A header key can never be `__proto__`, so every header lands in an ordinary property
      rather than in the prototype setter. */
  lemma NoPrototypeKey(header: string)
    ensures Key(header) != "__proto__"
  {
    KeyIsCanonical(header);
  }
}
