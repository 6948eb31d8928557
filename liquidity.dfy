/** `update_market_liquidity.py`: the "증시자금동향" (market funds trend) pages of Naver Finance,
    scraped page by page into one record per trading day (customer deposits, credit balance and
    their ratio), each page upserted into `market_liquidity` keyed by `trade_date`. */
module MarketLiquidity {
  import opened Values
  import opened Text
  import opened Dates
  import opened Pages
  import opened Upsert

  datatype LiquidityRecord = LiquidityRecord(
    tradeDate: string,
    investorDeposits: int,
    creditBalance: int,
    creditDepositRatio: real)

  const Columns: seq<string> := ["trade_date", "investor_deposits", "credit_balance", "credit_deposit_ratio"]

  /** The last page the history loader visits. */
  const LastPage := 140

  /** The record as the dict the scraper builds, in its key order. */
  function Fields(r: LiquidityRecord): (fs: seq<Field>)
    ensures Keys(fs) == Columns
  {
    [("trade_date", VText(r.tradeDate)), ("investor_deposits", VInt(r.investorDeposits)),
     ("credit_balance", VInt(r.creditBalance)), ("credit_deposit_ratio", VReal(r.creditDepositRatio))]
  }

  /** The credit balance as a percentage of customer deposits; no deposits gives 0. */
  function CreditDepositRatio(credit: int, deposits: int): (r: real)
    ensures deposits == 0 ==> r == 0.0
    ensures deposits != 0 ==> r * (deposits as real) == (credit as real) * 100.0
  {
    if deposits != 0 then (credit as real) / (deposits as real) * 100.0 else 0.0
  }

  /** The record made of a row's parsed cells; `None` when one of them did not parse. */
  function Combine(tradeDate: Option<string>, deposits: Option<int>, credit: Option<int>): (r: Option<LiquidityRecord>)
    ensures r.Some? <==> tradeDate.Some? && deposits.Some? && credit.Some?
    ensures r.Some? ==>
      && tradeDate == Some(r.value.tradeDate) && deposits == Some(r.value.investorDeposits)
      && credit == Some(r.value.creditBalance)
      && r.value.creditDepositRatio == CreditDepositRatio(r.value.creditBalance, r.value.investorDeposits)
  {
    if tradeDate.None? || deposits.None? || credit.None? then None
    else Some(LiquidityRecord(tradeDate.value, deposits.value, credit.value,
                              CreditDepositRatio(credit.value, deposits.value)))
  }

  /** One data row: the date from cell 0, deposits from cell 1, credit balance from cell 3
      (cell 2 is not read). `None` where the Python raises: a row with fewer than four cells
      (`IndexError`), a date or an amount that does not parse (`ValueError`); the handler
      catches all of them alike. */
  function ParseRow(row: Row): (r: Option<LiquidityRecord>)
    ensures r.Some? ==> |row.cells| >= 4
    ensures r.Some? ==> ToIsoDate(Strip(row.cells[0].text)) == Some(r.value.tradeDate)
    ensures r.Some? ==> CellAmount(row.cells[1]) == Some(r.value.investorDeposits)
    ensures r.Some? ==> CellAmount(row.cells[3]) == Some(r.value.creditBalance)
    ensures r.Some? ==> r.value.creditDepositRatio == CreditDepositRatio(r.value.creditBalance, r.value.investorDeposits)
  {
    var cells := row.cells;
    if |cells| < 4 then None
    else
      var date, deposits, credit := ToIsoDate(Strip(cells[0].text)), CellAmount(cells[1]), CellAmount(cells[3]);
      Combine(date, deposits, credit)
  }

  /** `scrape_naver_market_liquidity_by_page`, given the page the request returned: the rows
      after the header with a `date` cell, parsed by `ParseRow`, all or nothing. */
  method ScrapeMarketLiquidityPage(fetch: PageFetch) returns (page: seq<LiquidityRecord>)
    ensures page == ScrapedPage(fetch, "date", Parser())
  {
    page := ScrapePage(fetch, "date", Parser());
  }

  /** The row parser as the value the page functions take. */
  function Parser(): Row -> Option<LiquidityRecord>
  {
    row => ParseRow(row)
  }

  /** The statement the loader builds from a non-empty page: the columns are the first record's
      keys, the conflict target is `trade_date`, and every other column is overwritten. */
  function PageStatement(page: seq<LiquidityRecord>): Statement
    requires page != []
  {
    var cols := Keys(Fields(page[0]));
    Build("market_liquidity", cols, ["trade_date"], NonKey(cols, ["trade_date"]), false)
  }

  /** Whatever the page, the statement inserts the four columns and, on a `trade_date`
      conflict, overwrites exactly the other three. */
  lemma PageStatementColumns(page: seq<LiquidityRecord>)
    requires page != []
    ensures PageStatement(page) == Build("market_liquidity", Columns, ["trade_date"], Columns[1..], false)
  {
    assert NonKey(Columns, ["trade_date"]) == Columns[1..];
  }

  /** `update_historical_market_liquidity` with the pages as a parameter: the returned writes
      are the `execute_batch` calls, in order. Pages 1, 2, ... are visited in turn; each
      non-empty page is written, and the loop stops at the first empty page or after page 140. */
  method UpdateHistoricalMarketLiquidity(pages: int -> PageFetch) returns (writes: seq<Write<LiquidityRecord>>)
    ensures writes == Crawl(Daily(pages, "date", Parser()), 1, LastPage)
    ensures ScrapedCrawl(writes, pages, "date", Parser(), LastPage)
  {
    writes := CrawlScraped(pages, "date", Parser(), LastPage);
  }

  /** A row whose date cell and amount cells parse yields their values and their ratio; cell 2
      and any cells after cell 3 play no part. */
  lemma ParseRowCells(row: Row, tradeDate: string, deposits: int, credit: int)
    requires |row.cells| >= 4
    requires ToIsoDate(Strip(row.cells[0].text)) == Some(tradeDate)
    requires CellAmount(row.cells[1]) == Some(deposits) && CellAmount(row.cells[3]) == Some(credit)
    ensures ParseRow(row) == Some(LiquidityRecord(tradeDate, deposits, credit, CreditDepositRatio(credit, deposits)))
  {
  }

  /** A row printed the way the pages print it is read back exactly: the ISO date of its
      `YY.MM.DD` cell, the two amounts without their separators, and their ratio. */
  lemma ParseRenderedRow(d: Date, deposits: int, credit: int, cell2: Cell, more: seq<Cell>)
    requires ValidDate(d) && 1969 <= d.year <= 2068
    ensures ParseRow(Row([Cell(["date"], ShortFormat(d)), Cell([], SignedGrouped(deposits)), cell2,
                          Cell([], SignedGrouped(credit))] + more))
         == Some(LiquidityRecord(IsoFormat(d), deposits, credit, CreditDepositRatio(credit, deposits)))
  {
    var c0, c1, c3 := Cell(["date"], ShortFormat(d)), Cell([], SignedGrouped(deposits)), Cell([], SignedGrouped(credit));
    var row := Row([c0, c1, cell2, c3] + more);
    assert row.cells[0] == c0 && row.cells[1] == c1 && row.cells[3] == c3;
    ShortFormatToIso(d);
    CellAmountGrouped([], deposits);
    CellAmountGrouped([], credit);
    ParseRowCells(row, IsoFormat(d), deposits, credit);
  }
}
