/** `save_financial_data` in `db_util.py`: the scraped financial records go through
    `pd.DataFrame(data)`, `replace({np.nan: None})` and `to_dict('records')`, and the upsert
    statement into `financial_indicators` is built from the keys of the first resulting record,
    with the conflict target `(company_code, year, quarter_code)`. The frame's columns are the
    union of every record's keys in order of first appearance, so the "first record" the
    statement reads already holds every column of every record. */
module DbUtil {
  import opened Values
  import opened Text
  import opened Upsert
  import FinancialData

  const Table := "financial_indicators"

  const ConflictKeys: seq<string> := ["company_code", "year", "quarter_code"]

  predicate Distinct(xs: seq<string>)
  {
    forall i, j :: 0 <= i < j < |xs| ==> xs[i] != xs[j]
  }

  // ---------------------------------------------------------------- the frame's column index

  /** The column index `pd.DataFrame` grows while it reads one more dict: the keys it has not
      seen yet are appended in the dict's order. */
  function AddColumns(cols: seq<string>, ks: seq<string>): seq<string>
    decreases |ks|
  {
    if ks == [] then cols
    else AddColumns(if ks[0] in cols then cols else cols + [ks[0]], ks[1..])
  }

  /** The columns of `pd.DataFrame(data)` for a list of dicts. */
  function FrameColumns(data: seq<seq<Field>>): seq<string>
  {
    if data == [] then []
    else AddColumns(FrameColumns(data[..|data| - 1]), Keys(data[|data| - 1]))
  }

  /** Reading one dict keeps the columns already there, in place, adds exactly the dict's keys
      and never repeats a column. */
  lemma {:induction false} AddColumnsMeaning(cols: seq<string>, ks: seq<string>)
    ensures var r := AddColumns(cols, ks);
      && |cols| <= |r| && r[..|cols|] == cols
      && (forall c :: c in r <==> c in cols || c in ks)
      && (Distinct(cols) ==> Distinct(r))
    decreases |ks|
  {
    if ks != [] {
      var next := if ks[0] in cols then cols else cols + [ks[0]];
      AddColumnsMeaning(next, ks[1..]);
      var r := AddColumns(cols, ks);
      assert r == AddColumns(next, ks[1..]);
      assert r[..|cols|] == r[..|next|][..|cols|];
      assert ks == [ks[0]] + ks[1..];
    }
  }

  /** Keys that are all new and distinct are appended as they are. */
  lemma {:induction false} AddColumnsFresh(cols: seq<string>, ks: seq<string>)
    requires Distinct(ks) && forall i :: 0 <= i < |ks| ==> ks[i] !in cols
    ensures AddColumns(cols, ks) == cols + ks
    decreases |ks|
  {
    if ks != [] {
      assert ks[0] !in cols;
      forall i | 0 <= i < |ks[1..]| ensures ks[1..][i] !in cols + [ks[0]] {
        assert ks[1..][i] == ks[i + 1] != ks[0];
      }
      AddColumnsFresh(cols + [ks[0]], ks[1..]);
      assert cols + [ks[0]] + ks[1..] == cols + ks;
    }
  }

  /** Keys that are all present already add nothing. */
  lemma {:induction false} AddColumnsSeen(cols: seq<string>, ks: seq<string>)
    requires forall i :: 0 <= i < |ks| ==> ks[i] in cols
    ensures AddColumns(cols, ks) == cols
    decreases |ks|
  {
    if ks != [] {
      AddColumnsSeen(cols, ks[1..]);
    }
  }

  /** The frame has no repeated column, and its columns are exactly the keys of its dicts. */
  lemma {:induction false} FrameColumnsMeaning(data: seq<seq<Field>>)
    ensures Distinct(FrameColumns(data))
    ensures forall i, c :: 0 <= i < |data| && c in Keys(data[i]) ==> c in FrameColumns(data)
    ensures forall c :: c in FrameColumns(data) ==> exists i :: 0 <= i < |data| && c in Keys(data[i])
  {
    if data != [] {
      var n := |data| - 1;
      var init := data[..n];
      FrameColumnsMeaning(init);
      AddColumnsMeaning(FrameColumns(init), Keys(data[n]));
      forall i, c | 0 <= i < |data| && c in Keys(data[i]) ensures c in FrameColumns(data) {
        if i < n {
          assert init[i] == data[i];
        }
      }
      forall c | c in FrameColumns(data) ensures exists i :: 0 <= i < |data| && c in Keys(data[i]) {
        if c in FrameColumns(init) {
          var i :| 0 <= i < |init| && c in Keys(init[i]);
          assert data[i] == init[i];
        } else {
          assert c in Keys(data[n]);
        }
      }
    }
  }

  /** The frame's columns begin with the first dict's keys, in that dict's order. */
  lemma {:induction false} FrameColumnsFirst(data: seq<seq<Field>>)
    requires data != [] && Distinct(Keys(data[0]))
    ensures |Keys(data[0])| <= |FrameColumns(data)|
    ensures FrameColumns(data)[..|Keys(data[0])|] == Keys(data[0])
  {
    var n := |data| - 1;
    var ks := Keys(data[0]);
    if n == 0 {
      AddColumnsFresh([], ks);
      assert FrameColumns(data) == AddColumns([], ks);
    } else {
      var init := data[..n];
      assert init[0] == data[0];
      FrameColumnsFirst(init);
      AddColumnsMeaning(FrameColumns(init), Keys(data[n]));
      var r := FrameColumns(data);
      assert r[..|ks|] == r[..|FrameColumns(init)|][..|ks|];
    }
  }

  /** When every dict has the same distinct keys, those keys are the frame's columns. */
  lemma {:induction false} FrameColumnsUniform(data: seq<seq<Field>>, ks: seq<string>)
    requires data != [] && Distinct(ks)
    requires forall i :: 0 <= i < |data| ==> Keys(data[i]) == ks
    ensures FrameColumns(data) == ks
  {
    var n := |data| - 1;
    if n == 0 {
      AddColumnsFresh([], ks);
      assert [] + ks == ks;
    } else {
      var init := data[..n];
      assert forall i :: 0 <= i < |init| ==> init[i] == data[i];
      FrameColumnsUniform(init, ks);
      AddColumnsSeen(ks, ks);
    }
  }

  // ---------------------------------------------------------------- the records handed to the batch

  /** A frame cell: the dict's value under the column, NaN where the dict lacks the key. */
  function Cell(rec: seq<Field>, c: string): Value
  {
    match Lookup(rec, c)
    case None => VNaN
    case Some(v) => v
  }

  /** A frame row: one cell per column of the frame, in column order. */
  function Aligned(cols: seq<string>, rec: seq<Field>): (r: seq<Field>)
    ensures Keys(r) == cols
  {
    seq(|cols|, i requires 0 <= i < |cols| => (cols[i], Cell(rec, cols[i])))
  }

  /** `data_to_insert`: every row of the frame after `replace({np.nan: None})`, as a dict. */
  function Records(data: seq<seq<Field>>): (recs: seq<seq<Field>>)
    ensures |recs| == |data|
  {
    var cols := FrameColumns(data);
    seq(|data|, i requires 0 <= i < |data| => ReplaceNaN(Aligned(cols, data[i])))
  }

  /** Each record has every column of the frame, in order, and holds no NaN: the value of a
      key its dict had (NaN turned into None), None for a key its dict lacked. */
  lemma RecordsMeaning(data: seq<seq<Field>>)
    ensures forall i :: 0 <= i < |data| ==> Keys(Records(data)[i]) == FrameColumns(data)
    ensures forall i, k :: 0 <= i < |data| && 0 <= k < |Records(data)[i]| ==>
      && !Records(data)[i][k].1.VNaN?
      && Records(data)[i][k].1 == (match Lookup(data[i], FrameColumns(data)[k])
                                    case None => VNone
                                    case Some(v) => NaNToNone(v))
  {
    var cols := FrameColumns(data);
    forall i | 0 <= i < |data| ensures Keys(Records(data)[i]) == cols {
      assert Keys(Aligned(cols, data[i])) == cols;
    }
  }

  // ---------------------------------------------------------------- the statement

  /** `save_financial_data`: nothing for an empty list; otherwise the statement built from the
      first record's keys, with every non-key column in the SET clause, and the records. */
  function SaveFinancialData(data: seq<seq<Field>>): (r: Option<Batch>)
    ensures r.None? <==> data == []
    ensures r.Some? ==> r.value.records == Records(data)
  {
    if data == [] then None
    else
      var records := Records(data);
      var columns := Keys(records[0]);
      Some(Batch(Build(Table, columns, ConflictKeys, NonKey(columns, ConflictKeys), false), records))
  }

  /** The statement's columns are the frame's columns: the union of the dicts' keys, not only
      the first dict's. */
  lemma SaveFinancialDataColumns(data: seq<seq<Field>>)
    requires data != []
    ensures var cols := FrameColumns(data);
      SaveFinancialData(data) == Some(Batch(Build(Table, cols, ConflictKeys, NonKey(cols, ConflictKeys), false), Records(data)))
  {
    RecordsMeaning(data);
  }

  /** Column names without a comma give frame columns without a comma. */
  lemma FrameColumnsPlain(data: seq<seq<Field>>)
    requires forall i, k :: 0 <= i < |data| && 0 <= k < |data[i]| ==> PlainName(data[i][k].0)
    ensures forall j :: 0 <= j < |FrameColumns(data)| ==> PlainName(FrameColumns(data)[j])
  {
    var cols := FrameColumns(data);
    FrameColumnsMeaning(data);
    forall j | 0 <= j < |cols| ensures PlainName(cols[j]) {
      assert cols[j] in cols;
      var i :| 0 <= i < |data| && cols[j] in Keys(data[i]);
      var ks := Keys(data[i]);
      var k :| 0 <= k < |ks| && ks[k] == cols[j];
      assert data[i][k].0 == cols[j];
    }
  }

  /** No conflict key is assigned in the SET clause, and every other column is. */
  lemma ConflictKeysNotUpdated(cols: seq<string>)
    ensures forall c :: c in NonKey(cols, ConflictKeys) <==> c in cols && c !in ConflictKeys
    ensures forall k :: 0 <= k < |ConflictKeys| ==> SetItem(ConflictKeys[k]) !in SetItems(NonKey(cols, ConflictKeys))
  {
    NonKeyExactly(cols, ConflictKeys);
    forall k | 0 <= k < |ConflictKeys| ensures SetItem(ConflictKeys[k]) !in SetItems(NonKey(cols, ConflictKeys)) {
      KeysNeverUpdated(cols, ConflictKeys, ConflictKeys[k]);
    }
  }

  /** `save_financial_data`'s statement, read back item by item over the frame's columns. */
  lemma SaveFinancialDataItems(data: seq<seq<Field>>)
    requires data != []
    requires forall i, k :: 0 <= i < |data| && 0 <= k < |data[i]| ==> PlainName(data[i][k].0)
    requires NonKey(FrameColumns(data), ConflictKeys) != []
    ensures var cols := FrameColumns(data);
      var st := SaveFinancialData(data).value.statement;
      && Split(st.columns, ", ") == Quoted(cols)
      && Split(st.placeholders, ", ") == Placeholders(cols)
      && Split(st.setClause, ", ") == SetItems(NonKey(cols, ConflictKeys))
  {
    SaveFinancialDataColumns(data);
    FrameColumnsPlain(data);
    BuildNonKeyItems(Table, FrameColumns(data), ConflictKeys);
  }

  /** The conflict target is the three keys of one financial period of one company. */
  lemma SaveFinancialDataConflict(data: seq<seq<Field>>)
    requires data != []
    ensures SaveFinancialData(data).value.statement.conflict == "company_code, year, quarter_code"
  {
    assert Join(ConflictKeys, ", ") == "company_code, year, quarter_code";
  }

  // ---------------------------------------------------------------- the scraper's records

  lemma {:induction false} NonKeyAppend(a: seq<string>, b: seq<string>, keys: seq<string>)
    ensures NonKey(a + b, keys) == NonKey(a, keys) + NonKey(b, keys)
  {
    if a == [] {
      assert a + b == b;
    } else {
      assert (a + b)[0] == a[0] && (a + b)[1..] == a[1..] + b;
      NonKeyAppend(a[1..], b, keys);
    }
  }

  lemma {:induction false} NonKeyNone(b: seq<string>, keys: seq<string>)
    requires forall i :: 0 <= i < |b| ==> b[i] !in keys
    ensures NonKey(b, keys) == b
  {
    if b != [] {
      NonKeyNone(b[1..], keys);
    }
  }

  lemma BaseNonKey()
    ensures NonKey(FinancialData.BaseColumns, ConflictKeys) == ["company_name"]
  {
    var base := FinancialData.BaseColumns;
    assert base[1..][1..][1..][1..] == [];
    assert NonKey(base[1..][1..][1..], ConflictKeys) == [];
    assert NonKey(base[1..][1..], ConflictKeys) == [];
    assert NonKey(base[1..], ConflictKeys) == ["company_name"];
  }

  /** Records that all carry the four base keys followed by the same distinct indicator names
      make the statement name those columns, and update the company name and every indicator. */
  lemma {:induction false} ScrapedColumns(data: seq<seq<Field>>, all: seq<string>)
    requires data != [] && Distinct(all)
    requires forall k :: 0 <= k < |FinancialData.BaseColumns| ==> FinancialData.BaseColumns[k] !in all
    requires forall i :: 0 <= i < |data| ==> Keys(data[i]) == FinancialData.BaseColumns + all
    ensures FrameColumns(data) == FinancialData.BaseColumns + all
    ensures NonKey(FrameColumns(data), ConflictKeys) == ["company_name"] + all
  {
    var base := FinancialData.BaseColumns;
    var cols := base + all;
    forall i, j | 0 <= i < j < |cols| ensures cols[i] != cols[j] {
      if j < |base| {
        assert base[i] != base[j];
      } else if i >= |base| {
        assert cols[i] == all[i - |base|] && cols[j] == all[j - |base|];
      } else {
        assert cols[j] == all[j - |base|] && base[i] !in all;
      }
    }
    FrameColumnsUniform(data, cols);
    NonKeyAppend(base, all, ConflictKeys);
    BaseNonKey();
    forall i | 0 <= i < |all| ensures all[i] !in ConflictKeys {
      assert base[0] !in all && base[2] !in all && base[3] !in all;
      assert ConflictKeys == [base[0], base[2], base[3]];
    }
    NonKeyNone(all, ConflictKeys);
  }

  /** The records `scrape_financial_data` produces (each keyed by the four base keys and the
      fifteen indicators) give a statement over exactly those nineteen columns whose SET clause
      overwrites the company name and the fifteen indicators. */
  lemma ScrapedStatement(data: seq<seq<Field>>)
    requires data != []
    requires forall i :: 0 <= i < |data| ==> Keys(data[i]) == FinancialData.BaseColumns + FinancialData.Indicators
    ensures SaveFinancialData(data).value.statement
      == Build(Table, FinancialData.BaseColumns + FinancialData.Indicators, ConflictKeys,
               ["company_name"] + FinancialData.Indicators, false)
  {
    FinancialData.IndicatorsDistinct();
    FinancialData.BaseNotIndicator();
    ScrapedColumns(data, FinancialData.Indicators);
    SaveFinancialDataColumns(data);
  }

  /** What `scrape_financial_data` returns for a page is what `save_financial_data` takes: when
      the page has a period column, the records are saved with the statement over the four base
      keys and the fifteen indicators. */
  lemma ScrapedThenSaved(c: FinancialData.Company, page: FinancialData.FinancialPage)
    requires page.Table?
    requires FinancialData.Present(FinancialData.Periods(page.headers), |page.headers|) != []
    ensures var data := FinancialData.FinancialRecords(c, page).value;
      && SaveFinancialData(data).Some?
      && SaveFinancialData(data).value.records == Records(data)
      && SaveFinancialData(data).value.statement
         == Build(Table, FinancialData.BaseColumns + FinancialData.Indicators, ConflictKeys,
                  ["company_name"] + FinancialData.Indicators, false)
  {
    var data := FinancialData.FinancialRecords(c, page).value;
    FinancialData.FinancialRecordsMeaning(c, page);
    ScrapedStatement(data);
  }
}
