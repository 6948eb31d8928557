/** `update_stock_info` in `update_stock_info.py`: the ranked companies `get_top_companies`
    returns (at most 1000 per market) are turned into records, NaN replaced by None, and
    upserted into `stock_info` with the conflict target `(company_code, company_name)`. The
    statement is built from the keys of the first record, with no guard for an empty list. */
module StockInfo {
  import opened Values
  import opened Text
  import opened Upsert
  import opened Dates
  import opened TopCompanies

  const Table := "stock_info"

  const ConflictKeys: seq<string> := ["company_code", "company_name"]

  /** The columns of the frame `get_top_companies` returns, in its order; `시가총액` is the
      market capitalisation. */
  const Columns: seq<string> := ["company_name", "company_code", "exchange", "시가총액"]

  /** The columns the SET clause overwrites. */
  const UpdateColumns: seq<string> := ["exchange", "시가총액"]

  /** How many rows `update_stock_info` asks for from each market. */
  const Limit := 1000

  /** One row of the frame as the dict `to_dict('records')` builds. */
  function Fields(t: TopCompany): (fs: seq<Field>)
    ensures Keys(fs) == Columns
  {
    [("company_name", VText(t.name)), ("company_code", VText(t.code)),
     ("exchange", VText(t.exchange)), ("시가총액", VInt(t.cap))]
  }

  /** `data_to_dict`: the rows after `replace({np.nan: None})`. */
  function Records(companies: seq<TopCompany>): (recs: seq<seq<Field>>)
    ensures |recs| == |companies|
  {
    seq(|companies|, i requires 0 <= i < |companies| => ReplaceNaN(Fields(companies[i])))
  }

  /** A ranked company has no NaN in it: every record is the row as it stands. */
  lemma RecordsUnchanged(companies: seq<TopCompany>)
    ensures forall i :: 0 <= i < |companies| ==> Records(companies)[i] == Fields(companies[i])
  {
    forall i | 0 <= i < |companies| ensures Records(companies)[i] == Fields(companies[i]) {
      var fs := Fields(companies[i]);
      assert forall k :: 0 <= k < |fs| ==> !fs[k].1.VNaN?;
    }
  }

  /** The save step of `update_stock_info`: `IndexError` when there is no first record to take
      the columns from; otherwise the statement over that record's keys, with every column
      that is not a conflict key in the SET clause, and the records. */
  function SaveStockInfo(companies: seq<TopCompany>): (r: Result<Batch>)
    ensures r.Err? <==> companies == []
    ensures r.Err? ==> r.error == IndexError
    ensures r.Ok? ==> r.value.records == Records(companies)
  {
    var records := Records(companies);
    if |records| == 0 then Err(IndexError)
    else
      var columns := Keys(records[0]);
      Ok(Batch(Build(Table, columns, ConflictKeys, NonKey(columns, ConflictKeys), false), records))
  }

  /** `update_stock_info` on today's ranking, the I/O left out. */
  function UpdateStockInfo(caps: (string, string) -> seq<MarketCap>, names: string -> string, today: Date): (r: Result<Batch>)
    requires ValidDate(today) && 1000 <= today.year
    ensures r.Err? ==> r.error == IndexError
    ensures r.Ok? ==> r.value.statement == Build(Table, Columns, ConflictKeys, UpdateColumns, false)
    ensures r.Ok? ==> forall i :: 0 <= i < |r.value.records| ==> Keys(r.value.records[i]) == Columns
  {
    var companies := GetTopCompanies(caps, names, today, Limit);
    RecordsUnchanged(companies);
    if companies == [] then SaveStockInfo(companies)
    else
      SaveStockInfoStatement(companies);
      SaveStockInfo(companies)
  }

  lemma UpdateColumnsNonKey()
    ensures NonKey(Columns, ConflictKeys) == UpdateColumns
  {
    assert Columns[1..][1..][1..][1..] == [];
    assert NonKey(Columns[1..][1..][1..], ConflictKeys) == ["시가총액"];
    assert NonKey(Columns[1..][1..], ConflictKeys) == UpdateColumns;
    assert NonKey(Columns[1..], ConflictKeys) == UpdateColumns;
  }

  /** Whatever the companies, the statement names the four columns and overwrites the
      exchange and the market capitalisation on a conflict. */
  lemma SaveStockInfoStatement(companies: seq<TopCompany>)
    requires companies != []
    ensures SaveStockInfo(companies).value.statement == Build(Table, Columns, ConflictKeys, UpdateColumns, false)
  {
    RecordsUnchanged(companies);
    UpdateColumnsNonKey();
  }

  /** Read back item by item: the four columns quoted in frame order, a placeholder for each
      in the same order, and the SET items of the exchange and the market capitalisation. */
  lemma StatementItems()
    ensures var st := Build(Table, Columns, ConflictKeys, UpdateColumns, false);
      && Split(st.columns, ", ") == Quoted(Columns)
      && Split(st.placeholders, ", ") == Placeholders(Columns)
      && Split(st.setClause, ", ") == SetItems(UpdateColumns)
  {
    UpdateColumnsNonKey();
    BuildNonKeyItems(Table, Columns, ConflictKeys);
  }

  /** The conflict target is the company's code and name. */
  lemma StatementConflict()
    ensures Build(Table, Columns, ConflictKeys, UpdateColumns, false).conflict == "company_code, company_name"
  {
    assert Join(ConflictKeys, ", ") == "company_code, company_name";
  }

  /** Neither conflict key is assigned in the SET clause. */
  lemma KeysNotUpdated()
    ensures forall k :: 0 <= k < |ConflictKeys| ==> SetItem(ConflictKeys[k]) !in SetItems(UpdateColumns)
  {
    UpdateColumnsNonKey();
    forall k | 0 <= k < |ConflictKeys| ensures SetItem(ConflictKeys[k]) !in SetItems(UpdateColumns) {
      KeysNeverUpdated(Columns, ConflictKeys, ConflictKeys[k]);
    }
  }

  /** `update_stock_info` fails with `IndexError` exactly when neither market returns a row;
      otherwise it upserts one record per company of the two markets' first 1000 rows. */
  lemma UpdateStockInfoMeaning(caps: (string, string) -> seq<MarketCap>, names: string -> string, today: Date)
    requires ValidDate(today) && 1000 <= today.year
    ensures var date := CompactDate(today);
      var combined := Combined(caps(date, "KOSPI"), caps(date, "KOSDAQ"), Limit);
      var r := UpdateStockInfo(caps, names, today);
      && (r.Err? <==> combined == [])
      && (r.Ok? ==> |r.value.records| == |combined|)
  {
    var date := CompactDate(today);
    var combined := Combined(caps(date, "KOSPI"), caps(date, "KOSDAQ"), Limit);
    var companies := GetTopCompanies(caps, names, today, Limit);
    TopCompaniesRanked(caps, names, today, Limit);
    var projected := seq(|companies|, i requires 0 <= i < |companies| => Unprojected(companies[i]));
    assert |multiset(projected)| == |multiset(combined)|;
  }
}
