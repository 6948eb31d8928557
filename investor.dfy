/** `update_investor_trading.py`: the daily net buying of individuals, foreigners and
    institutions on Naver Finance's investor trend pages, scraped market by market (`sosok` `01`
    for KOSPI, `02` for KOSDAQ) and page by page, each page upserted into `investor_trading`. */
module InvestorTrading {
  import opened Values
  import opened Text
  import opened Dates
  import opened Pages
  import opened Upsert

  datatype InvestorRecord = InvestorRecord(
    tradeDate: string,
    sosok: string,
    individual: int,
    foreign: int,
    institutional: int)

  const Columns: seq<string> :=
    ["trade_date", "sosok", "individual_trading_value", "foreign_trading_value", "institutional_trading_value"]

  /** The markets, in the order they are crawled. */
  const Markets: seq<string> := ["01", "02"]

  /** How many pages past `PAGE_NUMBER` the loader reads. */
  const ExtraPages := 140

  /** The record as the dict the scraper builds, in its key order. */
  function Fields(r: InvestorRecord): (fs: seq<Field>)
    ensures Keys(fs) == Columns
  {
    [("trade_date", VText(r.tradeDate)), ("sosok", VText(r.sosok)),
     ("individual_trading_value", VInt(r.individual)), ("foreign_trading_value", VInt(r.foreign)),
     ("institutional_trading_value", VInt(r.institutional))]
  }

  /** The record made of a row's parsed cells; `None` when one of them did not parse. */
  function Combine(sosok: string, tradeDate: Option<string>, individual: Option<int>, foreign: Option<int>,
                   institutional: Option<int>): (r: Option<InvestorRecord>)
    ensures r.Some? <==> tradeDate.Some? && individual.Some? && foreign.Some? && institutional.Some?
    ensures r.Some? ==>
      && r.value.sosok == sosok && tradeDate == Some(r.value.tradeDate)
      && individual == Some(r.value.individual) && foreign == Some(r.value.foreign)
      && institutional == Some(r.value.institutional)
  {
    if tradeDate.None? || individual.None? || foreign.None? || institutional.None? then None
    else Some(InvestorRecord(tradeDate.value, sosok, individual.value, foreign.value, institutional.value))
  }

  /** One data row: the date from cell 0 and the three net amounts from cells 1, 2 and 3.
      `None` where the Python raises: a row with fewer than four cells, a date or an amount that
      does not parse; the handler catches all of them alike. */
  function ParseRow(sosok: string, row: Row): (r: Option<InvestorRecord>)
    ensures r.Some? ==> |row.cells| >= 4 && r.value.sosok == sosok
    ensures r.Some? ==> ToIsoDate(Strip(row.cells[0].text)) == Some(r.value.tradeDate)
    ensures r.Some? ==> CellAmount(row.cells[1]) == Some(r.value.individual)
    ensures r.Some? ==> CellAmount(row.cells[2]) == Some(r.value.foreign)
    ensures r.Some? ==> CellAmount(row.cells[3]) == Some(r.value.institutional)
  {
    var cells := row.cells;
    if |cells| < 4 then None
    else
      var date, individual, foreign, institutional :=
        ToIsoDate(Strip(cells[0].text)), CellAmount(cells[1]), CellAmount(cells[2]), CellAmount(cells[3]);
      Combine(sosok, date, individual, foreign, institutional)
  }

  /** A row whose four cells parse yields exactly their values, under the market it was read
      for; whatever follows cell 3 plays no part. */
  lemma ParseRowCells(sosok: string, row: Row, tradeDate: string, individual: int, foreign: int, institutional: int)
    requires |row.cells| >= 4
    requires ToIsoDate(Strip(row.cells[0].text)) == Some(tradeDate)
    requires CellAmount(row.cells[1]) == Some(individual) && CellAmount(row.cells[2]) == Some(foreign)
    requires CellAmount(row.cells[3]) == Some(institutional)
    ensures ParseRow(sosok, row) == Some(InvestorRecord(tradeDate, sosok, individual, foreign, institutional))
  {
  }

  /** A record parsed for market `sosok` carries `sosok`. */
  lemma ParseRowSosok(sosok: string, row: Row)
    ensures ParseRow(sosok, row).Some? ==> ParseRow(sosok, row).value.sosok == sosok
  {
  }

  /** A row with fewer than four cells never yields a record. */
  lemma ShortRowFails(sosok: string, row: Row)
    requires |row.cells| < 4
    ensures ParseRow(sosok, row) == None
  {
  }

  /** The row parser for market `sosok`. */
  function Parser(sosok: string): Row -> Option<InvestorRecord>
  {
    row => ParseRow(sosok, row)
  }

  /** Every record a page yields carries the market code the page was requested for. */
  lemma ScrapedPageSosok(sosok: string, fetch: PageFetch)
    ensures forall k :: 0 <= k < |ScrapedPage(fetch, "date2", Parser(sosok))| ==>
      ScrapedPage(fetch, "date2", Parser(sosok))[k].sosok == sosok
  {
    forall row ensures Parser(sosok)(row).Some? ==> Parser(sosok)(row).value.sosok == sosok {
      ParseRowSosok(sosok, row);
    }
    ScrapedPageEach(fetch, "date2", Parser(sosok), (r: InvestorRecord) => r.sosok == sosok);
  }

  /** `scrape_naver_investor_trading_value_by_page(sosok, page)`, given the page the request
      returned: the rows after the header with a `date2` cell, parsed for market `sosok`, all
      or nothing. */
  method ScrapeInvestorTradingPage(sosok: string, fetch: PageFetch) returns (page: seq<InvestorRecord>)
    ensures page == ScrapedPage(fetch, "date2", Parser(sosok))
  {
    page := ScrapePage(fetch, "date2", Parser(sosok));
  }

  /** The statement built from a non-empty page: the columns are the first record's keys, the
      conflict target is `(trade_date, sosok)`, and every column but `trade_date` is
      overwritten. */
  function PageStatement(page: seq<InvestorRecord>): Statement
    requires page != []
  {
    var cols := Keys(Fields(page[0]));
    Build("investor_trading", cols, ["trade_date", "sosok"], NonKey(cols, ["trade_date"]), false)
  }

  /** Whatever the page, the statement inserts the five columns and, on a conflict, overwrites
      the four after `trade_date`, `sosok` among them although it is part of the conflict
      target. */
  lemma PageStatementColumns(page: seq<InvestorRecord>)
    requires page != []
    ensures PageStatement(page) == Build("investor_trading", Columns, ["trade_date", "sosok"], Columns[1..], false)
    ensures SetItem("sosok") in SetItems(Columns[1..])
  {
    assert NonKey(Columns, ["trade_date"]) == Columns[1..];
    assert SetItems(Columns[1..])[0] == SetItem("sosok");
  }

  /** The pages of market `sosok`, by page number. */
  function MarketPages(pages: (string, int) -> PageFetch, sosok: string): int -> PageFetch
  {
    p => pages(sosok, p)
  }

  /** The writes of market `sosok`: its page loop up to page `pageNumber + 140`. */
  function MarketWrites(pages: (string, int) -> PageFetch, pageNumber: int, sosok: string): seq<Write<InvestorRecord>>
  {
    Crawl(Daily(MarketPages(pages, sosok), "date2", Parser(sosok)), 1, pageNumber + ExtraPages)
  }

  /** Every record a market's page loop writes carries that market's code. */
  lemma MarketWritesSosok(pages: (string, int) -> PageFetch, pageNumber: int, sosok: string)
    ensures var w := MarketWrites(pages, pageNumber, sosok);
      forall i, k :: 0 <= i < |w| && 0 <= k < |w[i].records| ==> w[i].records[k].sosok == sosok
  {
    var daily := Daily(MarketPages(pages, sosok), "date2", Parser(sosok));
    CrawlMeaning(daily, 1, pageNumber + ExtraPages);
    var w := MarketWrites(pages, pageNumber, sosok);
    forall i | 0 <= i < |w| ensures forall k :: 0 <= k < |w[i].records| ==> w[i].records[k].sosok == sosok {
      ScrapedPageSosok(sosok, pages(sosok, 1 + i));
    }
  }

  /** `update_historical_investor_trading_value` with the pages and `PAGE_NUMBER` as
      parameters: `writes[m]` are the `execute_batch` calls for market `Markets[m]`, made after
      those of the markets before it. For each market, pages 1, 2, ... are read until one is
      empty or the page number passes `pageNumber + 140`. */
  method UpdateHistoricalInvestorTradingValue(pages: (string, int) -> PageFetch, pageNumber: int)
    returns (writes: seq<seq<Write<InvestorRecord>>>)
    ensures |writes| == |Markets|
    ensures forall m :: 0 <= m < |Markets| ==> writes[m] == MarketWrites(pages, pageNumber, Markets[m])
  {
    writes := [];
    for m := 0 to |Markets|
      invariant |writes| == m
      invariant forall n :: 0 <= n < m ==> writes[n] == MarketWrites(pages, pageNumber, Markets[n])
    {
      var sosok := Markets[m];
      var market := CrawlPages(Daily(MarketPages(pages, sosok), "date2", Parser(sosok)), pageNumber + ExtraPages);
      writes := writes + [market];
    }
  }
}
