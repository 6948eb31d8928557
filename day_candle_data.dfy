/** `get_day_candle_data.py`: one year of daily OHLCV rows per listed company, stamped with the
    company and upserted into `stock_day_candles`, without the foreign net buying. */
module DayCandleData {
  import opened Values
  import opened Text
  import opened Upsert
  import opened Candles

  /** A row of the final frame. */
  datatype DayCandle = DayCandle(company: Company, candle: OhlcvRow)

  /** The projection `final_df[[...]]`, in its order. */
  const Columns: seq<string> :=
    ["company_code", "company_name", "candle_date", "open", "high", "low", "close", "volume"]

  /** The final `rename`: the `날짜` index, brought back as a column by `reset_index`, and the
      Korean price and volume headers, to English. */
  const FinalRename: seq<(string, string)> :=
    [("날짜", "candle_date"), ("시가", "open"), ("고가", "high"), ("저가", "low"), ("종가", "close"), ("거래량", "volume")]

  /** The columns the upsert overwrites on a conflict, before `updated_at`. */
  const UpdateColumns: seq<string> := ["open", "high", "low", "close", "volume"]

  const ConflictKeys: seq<string> := ["company_code", "candle_date"]

  /** `df['company_code'] = ...; df['company_name'] = ...` on one company's OHLCV rows. */
  function Stamp(c: Company, rows: seq<OhlcvRow>): (r: seq<DayCandle>)
    ensures |r| == |rows|
    ensures forall k :: 0 <= k < |r| ==> r[k] == DayCandle(c, rows[k])
  {
    seq(|rows|, k requires 0 <= k < |rows| => DayCandle(c, rows[k]))
  }

  /** What the `try` block yields for one company: nothing when the request raised or came
      back empty, otherwise its OHLCV rows stamped with the company. */
  function CompanyRows(ohlcv: string -> OhlcvFetch, c: Company): seq<DayCandle>
  {
    match ohlcv(c.code)
    case OhlcvFailed => []
    case Ohlcv(rows) => if rows == [] then [] else Stamp(c, rows)
  }

  /** A company is skipped exactly when its request raised or came back empty; otherwise it
      contributes one row per OHLCV row, in order, each carrying its code and name. */
  lemma CompanyRowsMeaning(ohlcv: string -> OhlcvFetch, c: Company)
    ensures var r := CompanyRows(ohlcv, c);
      && (r == [] <==> ohlcv(c.code).OhlcvFailed? || ohlcv(c.code).rows == [])
      && (ohlcv(c.code).Ohlcv? ==>
            |r| == |ohlcv(c.code).rows| && forall k :: 0 <= k < |r| ==> r[k] == DayCandle(c, ohlcv(c.code).rows[k]))
  {
  }

  function Rows(ohlcv: string -> OhlcvFetch): Company -> seq<DayCandle>
  {
    c => CompanyRows(ohlcv, c)
  }

  /** `get_weekly_candle_data`, with the pykrx request as a parameter (over the fixed one-year
      window): the rows of `pd.concat(all_weekly_data)`, company after company; `[]` stands for
      the empty frame returned when no company was collected. */
  method GetWeeklyCandleData(companies: seq<Company>, ohlcv: string -> OhlcvFetch) returns (rows: seq<DayCandle>)
    ensures rows == Collected(companies, Rows(ohlcv))
  {
    rows := CollectRows(companies, Rows(ohlcv));
  }

  /** Every collected row carries the code and name of a listed company, and one of that
      company's own OHLCV rows. */
  lemma WeeklyRowsStamped(companies: seq<Company>, ohlcv: string -> OhlcvFetch)
    ensures var rows := Collected(companies, Rows(ohlcv));
      forall k :: 0 <= k < |rows| ==>
        (exists j :: 0 <= j < |companies| && rows[k].company == companies[j] &&
           ohlcv(companies[j].code).Ohlcv? && rows[k].candle in ohlcv(companies[j].code).rows)
  {
    var ok := (c: Company, r: DayCandle) => r.company == c && ohlcv(c.code).Ohlcv? && r.candle in ohlcv(c.code).rows;
    forall j, r | 0 <= j < |companies| && r in Rows(ohlcv)(companies[j]) ensures ok(companies[j], r) {
      CompanyRowsMeaning(ohlcv, companies[j]);
    }
    CollectedEach(companies, Rows(ohlcv), ok);
  }

  /** The frame is empty exactly when every company was skipped. */
  lemma WeeklyRowsEmpty(companies: seq<Company>, ohlcv: string -> OhlcvFetch)
    ensures Collected(companies, Rows(ohlcv)) == [] <==>
      forall j :: 0 <= j < |companies| ==> ohlcv(companies[j].code).OhlcvFailed? || ohlcv(companies[j].code).rows == []
  {
    CollectedEmpty(companies, Rows(ohlcv));
    forall j | 0 <= j < |companies| ensures Rows(ohlcv)(companies[j]) == [] <==>
      ohlcv(companies[j].code).OhlcvFailed? || ohlcv(companies[j].code).rows == []
    {
      CompanyRowsMeaning(ohlcv, companies[j]);
    }
  }

  /** The columns of the concatenated frame after `reset_index`, for OHLCV frames with columns
      `ohlcvCols`: the `날짜` index, the OHLCV columns, then `company_code` and `company_name`. */
  function ConcatColumns(ohlcvCols: seq<string>): seq<string>
  {
    ["날짜"] + ohlcvCols + ["company_code", "company_name"]
  }

  /** The final frame's columns: after the rename, the projection raises `KeyError` when a
      projected column is missing; otherwise the columns are exactly the eight, in order. */
  function FinalColumns(ohlcvCols: seq<string>): (r: Result<seq<string>>)
    ensures r.Ok? <==> Selectable(Renamed(ConcatColumns(ohlcvCols), FinalRename), Columns)
    ensures r.Ok? ==> r.value == Columns
    ensures r.Err? ==> r.error == KeyError
  {
    if Selectable(Renamed(ConcatColumns(ohlcvCols), FinalRename), Columns) then Ok(Columns) else Err(KeyError)
  }

  /** The renamed headers are distinct short Korean words, shorter than any column the loader
      adds. */
  lemma FinalRenameKeyed()
    ensures Keyed(FinalRename)
    ensures forall j :: 0 <= j < |FinalRename| ==> |FinalRename[j].0| <= 3
  {
  }

  /** The index and each Korean header present in the frame are present under their English
      names. */
  lemma HeadersRenamed(ohlcvCols: seq<string>)
    requires forall k :: 1 <= k < |FinalRename| ==> FinalRename[k].0 in ohlcvCols
    ensures forall k :: 0 <= k < |FinalRename| ==> FinalRename[k].1 in Renamed(ConcatColumns(ohlcvCols), FinalRename)
  {
    var cols := ConcatColumns(ohlcvCols);
    FinalRenameKeyed();
    forall k | 0 <= k < |FinalRename| ensures FinalRename[k].1 in Renamed(cols, FinalRename) {
      assert FinalRename[k].0 in cols;
      RenamedTarget(cols, FinalRename, k);
    }
  }

  /** The company columns survive the rename. */
  lemma CompanyColumnsKept(ohlcvCols: seq<string>)
    ensures var renamed := Renamed(ConcatColumns(ohlcvCols), FinalRename);
      "company_code" in renamed && "company_name" in renamed
  {
    var cols := ConcatColumns(ohlcvCols);
    FinalRenameKeyed();
    RenamedUntouched(cols, FinalRename, "company_code");
    RenamedUntouched(cols, FinalRename, "company_name");
  }

  /** OHLCV frames with pykrx's five Korean price and volume headers always project: each of
      the eight columns exists after the rename. */
  lemma FinalColumnsPresent(ohlcvCols: seq<string>)
    requires forall k :: 1 <= k < |FinalRename| ==> FinalRename[k].0 in ohlcvCols
    ensures FinalColumns(ohlcvCols) == Ok(Columns)
  {
    var renamed := Renamed(ConcatColumns(ohlcvCols), FinalRename);
    HeadersRenamed(ohlcvCols);
    CompanyColumnsKept(ohlcvCols);
    assert "candle_date" in renamed && "open" in renamed && "high" in renamed by {
      assert FinalRename[0].1 in renamed && FinalRename[1].1 in renamed && FinalRename[2].1 in renamed;
    }
    assert "low" in renamed && "close" in renamed && "volume" in renamed by {
      assert FinalRename[3].1 in renamed && FinalRename[4].1 in renamed && FinalRename[5].1 in renamed;
    }
  }

  /** A row as the dict `to_dict('records')` builds, keyed by the eight columns in order. */
  function Fields(r: DayCandle): (fs: seq<Field>)
    ensures Keys(fs) == Columns
  {
    [("company_code", VText(r.company.code)), ("company_name", VText(r.company.name)),
     ("candle_date", VText(r.candle.date)), ("open", VInt(r.candle.open)), ("high", VInt(r.candle.high)),
     ("low", VInt(r.candle.low)), ("close", VInt(r.candle.close)), ("volume", VInt(r.candle.volume))]
  }

  /** The records handed to `execute_batch`, after `replace({np.nan: None})`. */
  function Records(rows: seq<DayCandle>): (recs: seq<seq<Field>>)
    ensures |recs| == |rows|
    ensures forall i :: 0 <= i < |rows| ==> Keys(recs[i]) == Columns
  {
    seq(|rows|, i requires 0 <= i < |rows| => ReplaceNaN(Fields(rows[i])))
  }

  /** A weekly row holds no NaN, so each record hands the row's own values to the upsert:
      code, name, date and the five prices and volume, in column order. */
  lemma RecordsUnchanged(rows: seq<DayCandle>)
    ensures forall i :: 0 <= i < |rows| ==> Records(rows)[i] == Fields(rows[i])
  {
  }


  /** `save_day_data_to_db`'s statement: none for an empty frame; otherwise the columns of the
      first record, the `(company_code, candle_date)` conflict target, and the fixed SET list
      followed by the `updated_at` refresh. Read back item by item, the SET clause overwrites
      exactly the five price and volume columns, in order, then refreshes `updated_at`, and
      never assigns a conflict key. */
  function SaveStatement(rows: seq<DayCandle>): (r: Option<Statement>)
    ensures r.None? <==> rows == []
    ensures r.Some? ==> r.value == Build("stock_day_candles", Columns, ConflictKeys, UpdateColumns, true)
    ensures r.Some? ==> Split(r.value.setClause, ", ") == SetItems(UpdateColumns) + [Touch]
    ensures r.Some? ==> forall k :: 0 <= k < |ConflictKeys| ==> SetItem(ConflictKeys[k]) !in Split(r.value.setClause, ", ")
  {
    if rows == [] then None
    else
      TouchedItems("stock_day_candles", Columns, ConflictKeys, UpdateColumns);
      Some(Build("stock_day_candles", Keys(Records(rows)[0]), ConflictKeys, UpdateColumns, true))
  }
}
