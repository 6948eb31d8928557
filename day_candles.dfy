/** `update_stock_day_candles.py`: three years of daily OHLCV rows per listed company, each row
    joined to that day's foreign net buying (in units of 100 million won), stamped with the
    company, and upserted into `stock_day_candles`. */
module DayCandles {
  import opened Values
  import opened Text
  import opened Upsert
  import opened Candles

  /** One row of `stock.get_market_trading_value_by_date(...)`: its `날짜` index and the
      `외국인합계` (foreign total) column, in won. */
  datatype TradingRow = TradingRow(date: string, foreignTotal: int)

  /** What the trading-value request for one company gave. `TradingFailed` also stands for a
      frame without the `외국인합계` column, where `df[['외국인합계']]` raises `KeyError`. */
  datatype TradingFetch = TradingFailed | Trading(rows: seq<TradingRow>)

  /** A row of `df_foreign_net_buy`: `candle_date` and `foreign_net_buy_amount`. */
  datatype NetBuy = NetBuy(date: string, amount: int)

  /** A row of `merged_df` before the company columns are added: the OHLCV row and its net
      buying, `None` where the left join found no trading row (NaN in the frame). */
  datatype Merged = Merged(candle: OhlcvRow, foreignNetBuy: Option<int>)

  /** A row of the final frame. */
  datatype DailyCandle = DailyCandle(company: Company, candle: OhlcvRow, foreignNetBuy: Option<int>)

  /** The projection `final_df[[...]]`, in its order. */
  const Columns: seq<string> :=
    ["company_code", "company_name", "candle_date", "open", "high", "low", "close", "volume", "foreign_net_buy_amount"]

  /** The final `rename`: the Korean price and volume headers to English. */
  const FinalRename: seq<(string, string)> :=
    [("시가", "open"), ("고가", "high"), ("저가", "low"), ("종가", "close"), ("거래량", "volume")]

  /** The columns the upsert overwrites on a conflict, before `updated_at`. */
  const UpdateColumns: seq<string> := ["open", "high", "low", "close", "volume", "foreign_net_buy_amount"]

  const ConflictKeys: seq<string> := ["company_code", "candle_date"]

  const Eok := 100_000_000

  /** `(won / 100_000_000).astype(int)`: the amount in units of 100 million won, truncated
      toward zero (the cast drops the fraction, whatever the sign). */
  function ToEok(won: int): (e: int)
    ensures won >= 0 ==> 0 <= e && e * Eok <= won < e * Eok + Eok
    ensures won < 0 ==> e <= 0 && e * Eok - Eok < won <= e * Eok
  {
    if won >= 0 then won / Eok else -((-won) / Eok)
  }

  /** Truncation is not Dafny's (nor Python's `//`) floor division: a net sale of 150 million
      won becomes -1, where flooring would give -2. */
  lemma ToEokTruncates()
    ensures ToEok(-150_000_000) == -1
    ensures -150_000_000 / Eok == -2
  {
  }

  /** Conversion is odd-symmetric: a net sale and a net purchase of the same size give amounts
      of the same size. */
  lemma ToEokSymmetric(won: int)
    ensures ToEok(-won) == -ToEok(won)
  {
  }

  /** `df_foreign_net_buy`: the trading rows with the foreign total converted, in order. */
  function ForeignNetBuy(trading: seq<TradingRow>): (r: seq<NetBuy>)
    ensures |r| == |trading|
    ensures forall i :: 0 <= i < |trading| ==> r[i] == NetBuy(trading[i].date, ToEok(trading[i].foreignTotal))
  {
    seq(|trading|, i requires 0 <= i < |trading| => NetBuy(trading[i].date, ToEok(trading[i].foreignTotal)))
  }

  /** The net buying of every trading row dated `date`, in trading-frame order. */
  function Matches(netBuy: seq<NetBuy>, date: string): (r: seq<int>)
    ensures |r| <= |netBuy|
  {
    if netBuy == [] then []
    else (if netBuy[0].date == date then [netBuy[0].amount] else []) + Matches(netBuy[1..], date)
  }

  /** A date has no match exactly when no trading row carries it. */
  lemma {:induction false} MatchesEmpty(netBuy: seq<NetBuy>, date: string)
    ensures Matches(netBuy, date) == [] <==> forall j :: 0 <= j < |netBuy| ==> netBuy[j].date != date
  {
    if netBuy != [] {
      MatchesEmpty(netBuy[1..], date);
      assert forall j :: 1 <= j < |netBuy| ==> netBuy[1..][j - 1] == netBuy[j];
    }
  }

  /** When the trading row for `date` is the only one with that date, its amount is the one
      match. */
  lemma {:induction false} MatchesUnique(netBuy: seq<NetBuy>, date: string, j: int)
    requires 0 <= j < |netBuy| && netBuy[j].date == date
    requires forall i :: 0 <= i < |netBuy| && i != j ==> netBuy[i].date != date
    ensures Matches(netBuy, date) == [netBuy[j].amount]
  {
    if j == 0 {
      MatchesEmpty(netBuy[1..], date);
    } else {
      MatchesUnique(netBuy[1..], date, j - 1);
    }
  }

  /** The rows `pd.merge(..., how='left')` makes of one OHLCV row: one per matching trading
      row, in trading order; one with no value when nothing matches. */
  function JoinRow(o: OhlcvRow, netBuy: seq<NetBuy>): (r: seq<Merged>)
    ensures |r| >= 1
    ensures forall k :: 0 <= k < |r| ==> r[k].candle == o
    ensures Matches(netBuy, o.date) == [] ==> r == [Merged(o, None)]
    ensures Matches(netBuy, o.date) != [] ==>
      |r| == |Matches(netBuy, o.date)| && forall k :: 0 <= k < |r| ==> r[k].foreignNetBuy == Some(Matches(netBuy, o.date)[k])
  {
    var m := Matches(netBuy, o.date);
    if m == [] then [Merged(o, None)]
    else seq(|m|, k requires 0 <= k < |m| => Merged(o, Some(m[k])))
  }

  /** `pd.merge(df_ohlcv, df_foreign_net_buy, on='candle_date', how='left')`: the OHLCV rows
      in order, each expanded by its matches. */
  function LeftJoin(ohlcv: seq<OhlcvRow>, netBuy: seq<NetBuy>): (r: seq<Merged>)
    ensures |r| >= |ohlcv|
  {
    if ohlcv == [] then [] else JoinRow(ohlcv[0], netBuy) + LeftJoin(ohlcv[1..], netBuy)
  }

  /** The OHLCV rows of merged rows, in order. */
  function CandlesOf(merged: seq<Merged>): (r: seq<OhlcvRow>)
    ensures |r| == |merged| && forall k :: 0 <= k < |merged| ==> r[k] == merged[k].candle
  {
    seq(|merged|, k requires 0 <= k < |merged| => merged[k].candle)
  }

  /** The join keeps every OHLCV row and invents none: the OHLCV rows of the result are
      exactly those of the left frame. */
  lemma {:induction false} LeftJoinKeepsRows(ohlcv: seq<OhlcvRow>, netBuy: seq<NetBuy>)
    ensures forall o :: o in ohlcv <==> o in CandlesOf(LeftJoin(ohlcv, netBuy))
  {
    if ohlcv != [] {
      LeftJoinKeepsRows(ohlcv[1..], netBuy);
      var head := JoinRow(ohlcv[0], netBuy);
      var rest := LeftJoin(ohlcv[1..], netBuy);
      assert CandlesOf(head + rest) == CandlesOf(head) + CandlesOf(rest);
      assert forall k :: 0 <= k < |head| ==> CandlesOf(head)[k] == ohlcv[0];
      assert CandlesOf(head)[0] == ohlcv[0];
      assert ohlcv == [ohlcv[0]] + ohlcv[1..];
    }
  }

  /** The trading frame is indexed by date: no two rows share one. */
  predicate UniqueDates(netBuy: seq<NetBuy>)
  {
    forall i, j :: 0 <= i < j < |netBuy| ==> netBuy[i].date != netBuy[j].date
  }

  /** The net buying on `date`, if a trading row carries it. */
  function NetBuyOn(netBuy: seq<NetBuy>, date: string): (r: Option<int>)
    ensures r.None? <==> forall j :: 0 <= j < |netBuy| ==> netBuy[j].date != date
    ensures r.Some? ==> exists j :: 0 <= j < |netBuy| && netBuy[j] == NetBuy(date, r.value)
  {
    if netBuy == [] then None
    else if netBuy[0].date == date then Some(netBuy[0].amount)
    else NetBuyOn(netBuy[1..], date)
  }

  lemma MatchesOneDate(netBuy: seq<NetBuy>, date: string)
    requires UniqueDates(netBuy)
    ensures Matches(netBuy, date) == match NetBuyOn(netBuy, date) case None => [] case Some(a) => [a]
  {
    MatchesEmpty(netBuy, date);
    if NetBuyOn(netBuy, date).Some? {
      var j :| 0 <= j < |netBuy| && netBuy[j] == NetBuy(date, NetBuyOn(netBuy, date).value);
      MatchesUnique(netBuy, date, j);
      assert netBuy[j].amount == NetBuyOn(netBuy, date).value by {
        NetBuyOnFirst(netBuy, date, j);
      }
    }
  }

  /** With unique dates, the match found is the row at that date. */
  lemma {:induction false} NetBuyOnFirst(netBuy: seq<NetBuy>, date: string, j: int)
    requires UniqueDates(netBuy) && 0 <= j < |netBuy| && netBuy[j].date == date
    ensures NetBuyOn(netBuy, date) == Some(netBuy[j].amount)
  {
    if j > 0 {
      NetBuyOnFirst(netBuy[1..], date, j - 1);
    }
  }

  /** With a trading frame indexed by date, the left join is row for row: the i-th merged row
      is the i-th OHLCV row with the net buying on its date, or none when that date has no
      trading row. */
  lemma {:induction false} LeftJoinUnique(ohlcv: seq<OhlcvRow>, netBuy: seq<NetBuy>)
    requires UniqueDates(netBuy)
    ensures |LeftJoin(ohlcv, netBuy)| == |ohlcv|
    ensures forall i :: 0 <= i < |ohlcv| ==> LeftJoin(ohlcv, netBuy)[i] == Merged(ohlcv[i], NetBuyOn(netBuy, ohlcv[i].date))
  {
    if ohlcv != [] {
      LeftJoinUnique(ohlcv[1..], netBuy);
      MatchesOneDate(netBuy, ohlcv[0].date);
      var head := JoinRow(ohlcv[0], netBuy);
      assert head == [Merged(ohlcv[0], NetBuyOn(netBuy, ohlcv[0].date))];
      var all := LeftJoin(ohlcv, netBuy);
      forall i | 1 <= i < |ohlcv| ensures all[i] == Merged(ohlcv[i], NetBuyOn(netBuy, ohlcv[i].date)) {
        assert ohlcv[1..][i - 1] == ohlcv[i];
      }
    }
  }

  /** `merged_df['company_code'] = ...; merged_df['company_name'] = ...`. */
  function Stamp(c: Company, merged: seq<Merged>): (r: seq<DailyCandle>)
    ensures |r| == |merged|
    ensures forall k :: 0 <= k < |r| ==> r[k] == DailyCandle(c, merged[k].candle, merged[k].foreignNetBuy)
  {
    seq(|merged|, k requires 0 <= k < |merged| => DailyCandle(c, merged[k].candle, merged[k].foreignNetBuy))
  }

  /** What the `try` block yields for one company: nothing when the OHLCV request raised or
      came back empty, or when the trading-value request raised; otherwise the OHLCV rows
      joined to the converted net buying and stamped with the company. */
  function CompanyRows(ohlcv: string -> OhlcvFetch, trading: string -> TradingFetch, c: Company): seq<DailyCandle>
  {
    match ohlcv(c.code)
    case OhlcvFailed => []
    case Ohlcv(rows) =>
      if rows == [] then []
      else match trading(c.code)
        case TradingFailed => []
        case Trading(t) => Stamp(c, LeftJoin(rows, ForeignNetBuy(t)))
  }

  /** One of the company's requests raised, or it has no OHLCV rows. */
  predicate Skipped(ohlcv: string -> OhlcvFetch, trading: string -> TradingFetch, c: Company)
  {
    ohlcv(c.code).OhlcvFailed? || ohlcv(c.code).rows == [] || trading(c.code).TradingFailed?
  }

  /** A company is skipped exactly when one of its requests raised or it has no OHLCV rows;
      otherwise it contributes at least one row per OHLCV row, each carrying its code and name
      and one of its OHLCV rows. */
  lemma CompanyRowsMeaning(ohlcv: string -> OhlcvFetch, trading: string -> TradingFetch, c: Company)
    ensures var r := CompanyRows(ohlcv, trading, c);
      && (r == [] <==> Skipped(ohlcv, trading, c))
      && (r != [] ==> ohlcv(c.code).Ohlcv? && |r| >= |ohlcv(c.code).rows|)
      && (forall k :: 0 <= k < |r| ==> r[k].company == c && ohlcv(c.code).Ohlcv? && r[k].candle in ohlcv(c.code).rows)
  {
    if ohlcv(c.code).Ohlcv? && ohlcv(c.code).rows != [] && trading(c.code).Trading? {
      var joined := LeftJoin(ohlcv(c.code).rows, ForeignNetBuy(trading(c.code).rows));
      LeftJoinKeepsRows(ohlcv(c.code).rows, ForeignNetBuy(trading(c.code).rows));
      assert forall k :: 0 <= k < |joined| ==> joined[k].candle == CandlesOf(joined)[k];
    }
  }

  function Rows(ohlcv: string -> OhlcvFetch, trading: string -> TradingFetch): Company -> seq<DailyCandle>
  {
    c => CompanyRows(ohlcv, trading, c)
  }

  /** `get_daily_data_with_trading_value`, with the two pykrx requests as parameters (over the
      fixed three-year window): the rows of `pd.concat(all_company_data, ignore_index=True)`,
      company after company; `[]` stands for the empty frame returned when no company was
      collected. */
  method GetDailyDataWithTradingValue(companies: seq<Company>, ohlcv: string -> OhlcvFetch, trading: string -> TradingFetch)
    returns (rows: seq<DailyCandle>)
    ensures rows == Collected(companies, Rows(ohlcv, trading))
  {
    rows := CollectRows(companies, Rows(ohlcv, trading));
  }

  /** Every collected row carries the code and name of a listed company, and one of that
      company's own OHLCV rows. */
  lemma DailyRowsStamped(companies: seq<Company>, ohlcv: string -> OhlcvFetch, trading: string -> TradingFetch)
    ensures var rows := Collected(companies, Rows(ohlcv, trading));
      forall k :: 0 <= k < |rows| ==>
        (exists j :: 0 <= j < |companies| && rows[k].company == companies[j] &&
           ohlcv(companies[j].code).Ohlcv? && rows[k].candle in ohlcv(companies[j].code).rows)
  {
    var ok := (c: Company, r: DailyCandle) => r.company == c && ohlcv(c.code).Ohlcv? && r.candle in ohlcv(c.code).rows;
    forall j, r | 0 <= j < |companies| && r in Rows(ohlcv, trading)(companies[j]) ensures ok(companies[j], r) {
      CompanyRowsMeaning(ohlcv, trading, companies[j]);
    }
    CollectedEach(companies, Rows(ohlcv, trading), ok);
  }

  /** The frame is empty exactly when every company was skipped. */
  lemma DailyRowsEmpty(companies: seq<Company>, ohlcv: string -> OhlcvFetch, trading: string -> TradingFetch)
    ensures Collected(companies, Rows(ohlcv, trading)) == [] <==>
      forall j :: 0 <= j < |companies| ==> Skipped(ohlcv, trading, companies[j])
  {
    CollectedEmpty(companies, Rows(ohlcv, trading));
    forall j | 0 <= j < |companies| ensures Rows(ohlcv, trading)(companies[j]) == [] <==> Skipped(ohlcv, trading, companies[j]) {
      CompanyRowsMeaning(ohlcv, trading, companies[j]);
    }
  }

  /** The columns of `merged_df` once the company columns are added, for an OHLCV frame with
      columns `ohlcvCols`: `candle_date` (the renamed `날짜` index), the OHLCV columns, the joined
      `foreign_net_buy_amount`, then `company_code` and `company_name`. */
  function MergedColumns(ohlcvCols: seq<string>): seq<string>
  {
    ["candle_date"] + ohlcvCols + ["foreign_net_buy_amount", "company_code", "company_name"]
  }

  /** The final frame's columns: after the rename, the projection raises `KeyError` when a
      projected column is missing; otherwise the columns are exactly the nine, in order. */
  function FinalColumns(ohlcvCols: seq<string>): (r: Result<seq<string>>)
    ensures r.Ok? <==> Selectable(Renamed(MergedColumns(ohlcvCols), FinalRename), Columns)
    ensures r.Ok? ==> r.value == Columns
    ensures r.Err? ==> r.error == KeyError
  {
    if Selectable(Renamed(MergedColumns(ohlcvCols), FinalRename), Columns) then Ok(Columns) else Err(KeyError)
  }

  /** The renamed headers are distinct short Korean words, shorter than any column the
      loader adds. */
  lemma FinalRenameKeyed()
    ensures Keyed(FinalRename)
    ensures forall j :: 0 <= j < |FinalRename| ==> |FinalRename[j].0| <= 3
  {
  }

  /** Each Korean header present in the OHLCV frame is present under its English name. */
  lemma PricesRenamed(ohlcvCols: seq<string>)
    requires forall k :: 0 <= k < |FinalRename| ==> FinalRename[k].0 in ohlcvCols
    ensures forall k :: 0 <= k < |FinalRename| ==> FinalRename[k].1 in Renamed(MergedColumns(ohlcvCols), FinalRename)
  {
    var merged := MergedColumns(ohlcvCols);
    FinalRenameKeyed();
    forall k | 0 <= k < |FinalRename| ensures FinalRename[k].1 in Renamed(merged, FinalRename) {
      assert FinalRename[k].0 in merged;
      RenamedTarget(merged, FinalRename, k);
    }
  }

  /** The columns the loader itself adds survive the rename. */
  lemma AddedColumnsKept(ohlcvCols: seq<string>)
    ensures var renamed := Renamed(MergedColumns(ohlcvCols), FinalRename);
      && "candle_date" in renamed && "foreign_net_buy_amount" in renamed
      && "company_code" in renamed && "company_name" in renamed
  {
    var merged := MergedColumns(ohlcvCols);
    FinalRenameKeyed();
    RenamedUntouched(merged, FinalRename, "candle_date");
    RenamedUntouched(merged, FinalRename, "foreign_net_buy_amount");
    RenamedUntouched(merged, FinalRename, "company_code");
    RenamedUntouched(merged, FinalRename, "company_name");
  }

  /** An OHLCV frame with pykrx's five Korean price and volume headers always projects: each of
      the nine columns exists after the rename. */
  lemma FinalColumnsPresent(ohlcvCols: seq<string>)
    requires forall k :: 0 <= k < |FinalRename| ==> FinalRename[k].0 in ohlcvCols
    ensures FinalColumns(ohlcvCols) == Ok(Columns)
  {
    var renamed := Renamed(MergedColumns(ohlcvCols), FinalRename);
    PricesRenamed(ohlcvCols);
    AddedColumnsKept(ohlcvCols);
    assert "open" in renamed && "high" in renamed && "low" in renamed && "close" in renamed && "volume" in renamed by {
      assert FinalRename[0].1 in renamed && FinalRename[1].1 in renamed && FinalRename[2].1 in renamed;
      assert FinalRename[3].1 in renamed && FinalRename[4].1 in renamed;
    }
  }

  /** A row as the dict `to_dict('records')` builds, keyed by the nine columns in order; a row
      without net buying holds NaN. */
  function Fields(r: DailyCandle): (fs: seq<Field>)
    ensures Keys(fs) == Columns
  {
    [("company_code", VText(r.company.code)), ("company_name", VText(r.company.name)),
     ("candle_date", VText(r.candle.date)), ("open", VInt(r.candle.open)), ("high", VInt(r.candle.high)),
     ("low", VInt(r.candle.low)), ("close", VInt(r.candle.close)), ("volume", VInt(r.candle.volume)),
     ("foreign_net_buy_amount", match r.foreignNetBuy case None => VNaN case Some(a) => VInt(a))]
  }

  /** The records handed to `execute_batch`, after `replace({np.nan: None})`. */
  function Records(rows: seq<DailyCandle>): (recs: seq<seq<Field>>)
    ensures |recs| == |rows|
    ensures forall i :: 0 <= i < |rows| ==> recs[i] == ReplaceNaN(Fields(rows[i]))
  {
    seq(|rows|, i requires 0 <= i < |rows| => ReplaceNaN(Fields(rows[i])))
  }

  /** Every record has the nine keys in order and no NaN; a row without net buying writes None. */
  lemma RecordsMeaning(rows: seq<DailyCandle>)
    ensures forall i :: 0 <= i < |rows| ==> Keys(Records(rows)[i]) == Columns
    ensures forall i, k :: 0 <= i < |rows| && 0 <= k < |Records(rows)[i]| ==> !Records(rows)[i][k].1.VNaN?
    ensures forall i :: 0 <= i < |rows| && rows[i].foreignNetBuy.None? ==> Records(rows)[i][8] == ("foreign_net_buy_amount", VNone)
  {
    forall i | 0 <= i < |rows| ensures Keys(Records(rows)[i]) == Columns {
      assert Keys(Fields(rows[i])) == Columns;
    }
  }

  /** `save_daily_data_to_db`'s statement: none for an empty frame; otherwise the columns of
      the first record, the `(company_code, candle_date)` conflict target, and the fixed SET
      list followed by the `updated_at` refresh. */
  function SaveStatement(rows: seq<DailyCandle>): (r: Option<Statement>)
    ensures r.None? <==> rows == []
  {
    if rows == [] then None
    else Some(Build("stock_day_candles", Keys(Records(rows)[0]), ConflictKeys, UpdateColumns, true))
  }

  /** The statement names the nine columns whatever the rows. Read back item by item, its SET
      clause overwrites exactly the six value columns, in order, then refreshes `updated_at`, and
      never assigns a conflict key. */
  lemma SaveStatementColumns(rows: seq<DailyCandle>)
    requires rows != []
    ensures SaveStatement(rows) == Some(Build("stock_day_candles", Columns, ConflictKeys, UpdateColumns, true))
    ensures var items := Split(SaveStatement(rows).value.setClause, ", ");
      && items == SetItems(UpdateColumns) + [Touch]
      && forall k :: 0 <= k < |ConflictKeys| ==> SetItem(ConflictKeys[k]) !in items
  {
    RecordsMeaning(rows);
    TouchedItems("stock_day_candles", Columns, ConflictKeys, UpdateColumns);
  }
}
