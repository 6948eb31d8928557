# stock_agent data loaders, modelled in Dafny

This project models the data-shaping core of `stock_agent`, a set of Python loaders. They scrape Korean stock-market data from Naver Finance and pykrx and upsert it into PostgreSQL. Every fetched page, pandas frame and pykrx result is a given sequence of rows. The model states what the loaders do to those rows.

- **Financial indicators** (`crawler.py`, `scrape_financial_data`):
  - a period header such as `2023.12(E)` becomes a year and a quarter code, `(month - 1) // 3 + 1`;
  - the Korean row labels are renamed to the fifteen indicator names;
  - each period column gives one record with every indicator present, `None` unless the column fills it.
  
  The record is built the way the source builds it, as a dict filled in place, column by column and row by row (`FinancialData.ScrapeFinancialData`, `BuildRecord`, `DefaultRecord`, `FillColumn`). It reads each column's cells by position, not by the column's name as the source does; the two differ only for a repeated header (see Findings).
- **Top companies** (`crawler.py`, `get_top_companies`): the first `limit` rows of each market's market-cap table, tagged `KOSPI` or `KOSDAQ`, concatenated and ranked by market cap, largest first. They are then projected to name, code, exchange and cap.
- **Market liquidity and investor trading pages** (`update_market_liquidity.py`, `update_investor_trading.py`):
  - the three header rows are dropped;
  - rows with a `date` (resp. `date2`) cell are parsed: the `YY.MM.DD` date by the `%y` century rule into `YYYY-MM-DD`, and the amounts by `int()` after every `,` is removed;
  - a page is all or nothing;
  - the page loops stop at the first empty page or at their bound: 140, resp. `PAGE_NUMBER + 140` per market, markets `01` then `02`.
  
  The loops are methods proved against the functions `Pages.Crawl` and `Pages.ScrapedPage`.
- **Day candles** (`update_stock_day_candles.py`, `get_day_candle_data.py`):
  - the company loop skips failing or empty companies;
  - the foreign net-buy total is converted to units of 100 million won, truncated toward zero;
  - OHLCV rows are left-joined with it on the candle date and stamped with the company;
  - the columns are renamed and projected, and the upsert statement is built.
- **Upsert statements** (`db_util.py`, `update_stock_info.py`, and the same code in each loader): the quoted column list, the `%(col)s` placeholders, the conflict target and the `"c" = EXCLUDED."c"` SET clause. All are built by one shared function (`Upsert.Build`) and read back item by item (`Upsert.BuildItems`).
  - `save_financial_data` first puts the records through `pd.DataFrame(data)`. Its columns are the ordered union of the dicts' keys, a missing key becomes NaN, and NaN becomes `None` (`DbUtil`).
  - `update_stock_info` has no empty-input guard, so an empty ranking raises `IndexError` (`StockInfo`).
- **Growth screen** (`screener.py`):
  - the `encparam` token is pulled out of a page by the leftmost regex match;
  - a company is flagged when the last four figures of its first sales row are all numbers and the growth rates rise each year from a positive start.
  
  numpy's division by zero gives an infinity or NaN; the model carries these in a `Float` datatype.

One module per source file: `FinancialData` and `TopCompanies` (crawler.py), `MarketLiquidity`, `InvestorTrading`, `DayCandles`, `DayCandleData`, `DbUtil`, `StockInfo` and `Screener`. The helpers they share are `Values` (Option, Result, cell values, dict keys, `replace`, `rename`), `Text` (`strip`, `int()`, `replace(',', '')`, `join`, `to_numeric`), `Dates` (`strptime('%y.%m.%d')` and `strftime('%Y-%m-%d')`), `Pages` (row selection, all-or-nothing page parsing, the page loop), `Candles` (the company loop) and `Upsert`.

`save_financial_data` builds its column list from "the first record's keys". In pandas that is the first row of the frame, which carries every column of the frame: the union of all the dicts' keys, in order of first appearance. The model follows the code. `DbUtil.SaveFinancialDataColumns` states the union. `DbUtil.FrameColumnsUniform` and `DbUtil.ScrapedColumns` show that it coincides with the first dict's keys when every dict has the same keys, as the records of `scrape_financial_data` do.

## Model

All source paths are relative to the repository root.

| member | source | states |
|---|---|---|
| Values.ReplaceNaN | src/fundamental/data_loader/db_util.py:54 | `replace({np.nan: None})` on a record keeps every key in its place, turns each NaN into None and leaves every other value as it is |
| Values.Renamed | src/fundamental/data_loader/update_stock_day_candles.py:63-69 | renaming columns keeps their number and positions and renames each label by the mapping |
| Values.RenameColumnKeyed | src/fundamental/data_loader/crawler.py:80 | with a mapping keyed like a dict, a label named by a pair takes that pair's new name |
| Values.RenameColumnUntouched | src/fundamental/data_loader/crawler.py:80 | a label the mapping does not name keeps its name |
| Values.RenamedTarget | src/fundamental/data_loader/get_day_candle_data.py:60-67 | a column the mapping renames is present under its new name |
| Values.RenamedUntouched | src/fundamental/data_loader/get_day_candle_data.py:60-67 | a column the mapping does not name is still present |
| Text.TrimStart | src/fundamental/data_loader/update_market_liquidity.py:53 | the result is a suffix of the text, every character removed is whitespace and the result does not start with whitespace |
| Text.TrimEnd | src/fundamental/data_loader/update_market_liquidity.py:53 | the result is a prefix of the text, every character removed is whitespace and the result does not end with whitespace |
| Text.Strip | src/fundamental/data_loader/update_market_liquidity.py:53 | `strip()` leaves no whitespace at either end, and what it keeps is a piece of the text with nothing but whitespace before and after it |
| Text.StripPadded | src/fundamental/data_loader/update_market_liquidity.py:53 | text with whitespace around it strips to exactly that text, so a padded cell gives its contents back |
| Text.StripSpaces | src/fundamental/data_loader/update_market_liquidity.py:53 | text made only of whitespace strips to the empty string |
| Text.StripUnpadded | src/fundamental/data_loader/update_market_liquidity.py:53 | text without whitespace at its ends is unchanged by `strip()` |
| Text.RemoveAll | src/fundamental/data_loader/update_market_liquidity.py:57 | `replace(',', '')` leaves no comma, and every character left comes from the text |
| Text.RemoveAllAppend | src/fundamental/data_loader/update_market_liquidity.py:57 | removing a character from a concatenation removes it from each part |
| Text.RemoveAllAbsent | src/fundamental/data_loader/update_market_liquidity.py:57 | text without the character is unchanged |
| Text.IndexOf | src/fundamental/data_loader/crawler.py:88-90 | no position exactly when the character is absent; otherwise the position of its first occurrence |
| Text.Before | src/fundamental/data_loader/crawler.py:88-89 | `split(c)[0]`: the longest prefix free of `c`, the whole text when `c` is absent |
| Text.SecondPart | src/fundamental/data_loader/crawler.py:90 | `split(c)[1]` raises `IndexError` exactly when `c` is absent; otherwise it is the piece that starts right after the first `c` and runs, free of `c`, up to the next `c` or the end |
| Text.IndexOfAfter | src/fundamental/data_loader/crawler.py:88-90 | the first `c` of `a + c + b` is right after `a` when `a` holds no `c` |
| Text.SplitAt | src/fundamental/data_loader/crawler.py:88-90 | splitting `a + c + b` at `c` gives back `a` first and, second, what of `b` comes before its own first `c`: all of `b` when it holds none |
| Text.SplitJoin | src/fundamental/data_loader/db_util.py:62-67 | a `", "`-joined list is split back into exactly its items when no item holds a comma |
| Text.SplitItemsAt | src/fundamental/data_loader/db_util.py:62-67 | items laid out one after another, each but the last followed by the separator and none holding its first character, are read back one by one |
| Text.PyIntShowNat | src/fundamental/data_loader/update_market_liquidity.py:58 | `int()` reads the decimal text of every natural number back as that number |
| Text.PyIntShowNegative | src/fundamental/data_loader/update_market_liquidity.py:58 | `int()` reads a minus sign followed by a number's digits as the negated number |
| Text.PyIntShowInt | src/fundamental/data_loader/update_market_liquidity.py:58 | `int()` reads the decimal text of every integer back as that integer |
| Text.PyInt | src/fundamental/data_loader/update_market_liquidity.py:58 | `int()` of blank text raises `ValueError`, and a negative result comes from text whose first non-space character is `-` |
| Text.RemoveCommasGrouped | src/fundamental/data_loader/update_market_liquidity.py:57 | an amount printed with thousands separators, its commas removed, is its plain decimal text |
| Text.ParseGroupedAmount | src/fundamental/data_loader/update_market_liquidity.py:57-58 | every signed amount printed with thousands separators is read back as the same int by `int(s.strip().replace(',', ''))` |
| Text.ToNumeric | src/fundamental/data_loader/crawler.py:109 | `to_numeric(errors='coerce')` always gives a number or NaN, never an error, and keeps numbers as they are |
| Text.NumericShowInt | src/fundamental/data_loader/crawler.py:109 | the decimal text of any integer converts to that integer |
| Text.NumericDash | src/fundamental/data_loader/crawler.py:109 | a `-` placeholder cell and an empty cell coerce to NaN |
| Dates.CenturyYear | src/fundamental/data_loader/update_market_liquidity.py:54 | `%y` gives the year in 1969..2068 whose last two digits are the field |
| Dates.ParseShortDate | src/fundamental/data_loader/update_market_liquidity.py:54 | every date `strptime('%y.%m.%d')` accepts exists in the calendar and lies in 1969..2068 |
| Dates.IsoFormat | src/fundamental/data_loader/update_market_liquidity.py:54 | `strftime('%Y-%m-%d')` is ten characters with dashes at positions 4 and 7 |
| Dates.IsoFormatFields | src/fundamental/data_loader/update_market_liquidity.py:54 | the digits of the ISO text give back the year, month and day |
| Dates.ToIsoDate | src/fundamental/data_loader/update_market_liquidity.py:54 | the conversion succeeds exactly when the date parses |
| Dates.ParseShortFormat | src/fundamental/data_loader/update_market_liquidity.py:54 | every day of 1969..2068 written `YY.MM.DD` is parsed back as that day |
| Dates.ShortFormatToIso | src/fundamental/data_loader/update_market_liquidity.py:53-54 | a `YY.MM.DD` date cell, stripped and converted, is the ISO text of that day |
| Dates.NoLeapDayIn2023 | src/fundamental/data_loader/update_market_liquidity.py:54 | a day that does not exist, 29 February 2023, is rejected |
| Dates.WindowStart | src/fundamental/data_loader/update_market_liquidity.py:54 | `69` is read as 1969 |
| Dates.WindowEnd | src/fundamental/data_loader/update_market_liquidity.py:54 | `68` is read as 2068 |
| Dates.LeapDayIn2024 | src/fundamental/data_loader/update_market_liquidity.py:54 | the leap day of a leap year is accepted |
| Pages.SkipHeader | src/fundamental/data_loader/update_market_liquidity.py:38 | `[3:]` drops the three header rows, and everything when there are at most three |
| Pages.RowsWithClassMeaning | src/fundamental/data_loader/update_investor_trading.py:41 | the data rows are exactly the rows carrying a cell of the class: each kept row has one, and each row that has one is kept |
| Pages.RowsWithClassEmpty | src/fundamental/data_loader/update_market_liquidity.py:41-43 | there are no data rows exactly when no row carries a cell of the class |
| Pages.CellAmountGrouped | src/fundamental/data_loader/update_market_liquidity.py:57-58 | an amount cell printed with separators is read back as its amount |
| Pages.ParseAllMeaning | src/fundamental/data_loader/update_market_liquidity.py:45-83 | a page parses exactly when every data row parses, and then holds the rows' values in row order |
| Pages.ParseAllPrefixFails | src/fundamental/data_loader/update_market_liquidity.py:78-83 | a row that fails fails the whole page, whatever follows it |
| Pages.ParseDataRows | src/fundamental/data_loader/update_market_liquidity.py:45-76 | the row loop, which appends row by row and gives `[]` at the first failing row, yields the all-or-nothing parse of the data rows |
| Pages.ParseRowAppends | src/fundamental/data_loader/update_market_liquidity.py:50-73 | a data row that parses extends the page parsed so far by its value |
| Pages.ParseRowFails | src/fundamental/data_loader/update_market_liquidity.py:78-83 | a data row that does not parse fails the whole page, whatever rows follow it |
| Pages.ScrapePage | src/fundamental/data_loader/update_market_liquidity.py:29-83 | the page function yields `[]` for a failed request or a page without data rows, and otherwise the all-or-nothing parse |
| Pages.ScrapedPageMeaning | src/fundamental/data_loader/update_market_liquidity.py:38-83 | a failed request gives `[]`; when every data row parses, the page holds their values in order; when one does not, the page is `[]` |
| Pages.ScrapedPageEach | src/fundamental/data_loader/update_investor_trading.py:48-79 | what holds of every value the row parser can produce holds of every value on a page |
| Pages.ScrapedPage | src/fundamental/data_loader/update_market_liquidity.py:29-83 | a failed request gives an empty page; a non-empty page has one record per data row of the class |
| Pages.CrawlMeaning | src/fundamental/data_loader/update_market_liquidity.py:98-128 | the i-th write is page `1 + i` and is not empty; there are at most `last` writes; a loop that stopped early stopped at an empty page |
| Pages.CrawlDaily | src/fundamental/data_loader/update_market_liquidity.py:98-128 | from page 1, the i-th write is page `i + 1` with that page's scraped records, non-empty; at most `last` writes; an early stop means the next page scraped to nothing |
| Pages.CrawlScraped | src/fundamental/data_loader/update_market_liquidity.py:98-128 | the page loop over scraped pages: the i-th write is page `i + 1` with its non-empty scraped records, at most `last` writes, and an early stop means the next page scraped to nothing |
| Pages.CrawlPages | src/fundamental/data_loader/update_market_liquidity.py:98-128 | the while loop, with its break at the first empty page, makes exactly the writes of the page-loop function |
| MarketLiquidity.Fields | src/fundamental/data_loader/update_market_liquidity.py:67-72 | a record has the keys `trade_date`, `investor_deposits`, `credit_balance`, `credit_deposit_ratio`, in that order |
| MarketLiquidity.CreditDepositRatio | src/fundamental/data_loader/update_market_liquidity.py:65 | zero deposits give 0; otherwise ratio times deposits equals credit times 100 |
| MarketLiquidity.ParseRow | src/fundamental/data_loader/update_market_liquidity.py:50-65 | a parsed row has at least four cells; its date is cell 0's ISO date, its deposits and credit are cells 1 and 3's amounts, and its ratio is theirs |
| MarketLiquidity.ParseRowCells | src/fundamental/data_loader/update_market_liquidity.py:50-65 | a row whose cells 0, 1 and 3 parse gives their date, amounts and ratio; cell 2 and any later cells play no part |
| MarketLiquidity.ParseRenderedRow | src/fundamental/data_loader/update_market_liquidity.py:50-73 | a row as the page prints it (a `YY.MM.DD` date, amounts with separators) is read back exactly |
| MarketLiquidity.ScrapeMarketLiquidityPage | src/fundamental/data_loader/update_market_liquidity.py:17-83 | the page function is the all-or-nothing parse of the `date` rows after the header |
| MarketLiquidity.PageStatementColumns | src/fundamental/data_loader/update_market_liquidity.py:108-120 | for any page, the statement inserts the four columns and, on a `trade_date` conflict, overwrites the other three |
| MarketLiquidity.UpdateHistoricalMarketLiquidity | src/fundamental/data_loader/update_market_liquidity.py:98-128 | pages 1, 2, ... are written in turn, each non-empty and at most 140 of them, and the loop stops at the first empty page |
| InvestorTrading.Fields | src/fundamental/data_loader/update_investor_trading.py:69-75 | a record has the five keys in the source's order |
| InvestorTrading.ParseRow | src/fundamental/data_loader/update_investor_trading.py:53-75 | a parsed row has at least four cells and the page's market; its date is cell 0's ISO date, and cells 1, 2 and 3 give the individual, foreign and institutional amounts |
| InvestorTrading.ParseRowCells | src/fundamental/data_loader/update_investor_trading.py:53-75 | a row whose cells 0 to 3 parse gives exactly their date and three signed amounts, under the market passed in |
| InvestorTrading.ParseRowSosok | src/fundamental/data_loader/update_investor_trading.py:69-75 | a parsed record carries the `sosok` passed in, unchanged |
| InvestorTrading.ShortRowFails | src/fundamental/data_loader/update_investor_trading.py:53-66 | a row with fewer than four cells never gives a record (`IndexError`) |
| InvestorTrading.ScrapedPageSosok | src/fundamental/data_loader/update_investor_trading.py:48-79 | every record on a page carries the market code it was requested for |
| InvestorTrading.ScrapeInvestorTradingPage | src/fundamental/data_loader/update_investor_trading.py:17-86 | the page function is the all-or-nothing parse of the `date2` rows after the header |
| InvestorTrading.PageStatementColumns | src/fundamental/data_loader/update_investor_trading.py:113-124 | the statement inserts the five columns, its conflict target is `(trade_date, sosok)`, and its SET clause covers every column but `trade_date`, `sosok` included |
| InvestorTrading.MarketWritesSosok | src/fundamental/data_loader/update_investor_trading.py:101-132 | every record a market's page loop writes carries that market's code |
| InvestorTrading.UpdateHistoricalInvestorTradingValue | src/fundamental/data_loader/update_investor_trading.py:101-132 | markets `01` then `02`; for each, the writes of its page loop up to page `PAGE_NUMBER + 140` |
| Candles.CollectRows | src/fundamental/data_loader/update_stock_day_candles.py:33-57 | the company loop appends each company's rows after those of the companies before it |
| Candles.CollectedAppend | src/fundamental/data_loader/update_stock_day_candles.py:37-57 | a company's rows do not depend on the other companies, so a skipped company leaves the others' rows as they are |
| Candles.CollectedEmpty | src/fundamental/data_loader/update_stock_day_candles.py:59-60 | the loop collects nothing exactly when every company is skipped |
| Candles.CollectedEach | src/fundamental/data_loader/update_stock_day_candles.py:37-57 | what holds of every row of every company holds of every collected row |
| DayCandles.ToEok | src/fundamental/data_loader/update_stock_day_candles.py:46 | dividing by 100,000,000 and truncating toward zero: the largest multiple not above a purchase, the smallest not below a sale |
| DayCandles.ToEokTruncates | src/fundamental/data_loader/update_stock_day_candles.py:46 | a net sale of 150 million gives -1, where floor division would give -2 |
| DayCandles.ToEokSymmetric | src/fundamental/data_loader/update_stock_day_candles.py:46 | a purchase and a sale of the same size convert to opposite amounts |
| DayCandles.ForeignNetBuy | src/fundamental/data_loader/update_stock_day_candles.py:45-47 | one net-buy row per trading row, with its date and its converted foreign total |
| DayCandles.MatchesEmpty | src/fundamental/data_loader/update_stock_day_candles.py:50 | a candle date has no match exactly when no trading row carries it |
| DayCandles.MatchesUnique | src/fundamental/data_loader/update_stock_day_candles.py:50 | a date carried by one trading row matches that row's amount only |
| DayCandles.JoinRow | src/fundamental/data_loader/update_stock_day_candles.py:50 | a left-join keeps each OHLCV row at least once: with an absent amount when unmatched, once per match otherwise |
| DayCandles.LeftJoin | src/fundamental/data_loader/update_stock_day_candles.py:50 | the join has at least as many rows as the OHLCV frame |
| DayCandles.LeftJoinKeepsRows | src/fundamental/data_loader/update_stock_day_candles.py:50 | the joined rows are exactly the OHLCV rows: none lost, none invented |
| DayCandles.NetBuyOn | src/fundamental/data_loader/update_stock_day_candles.py:50 | no amount exactly when no trading row carries the date; otherwise an amount some row with that date carries |
| DayCandles.MatchesOneDate | src/fundamental/data_loader/update_stock_day_candles.py:50 | with trading rows indexed by date, a candle date matches at most one amount |
| DayCandles.LeftJoinUnique | src/fundamental/data_loader/update_stock_day_candles.py:50 | with trading rows indexed by date, the join is row for row: the i-th row is the i-th OHLCV row with its date's amount or none |
| DayCandles.Stamp | src/fundamental/data_loader/update_stock_day_candles.py:52-53 | every merged row gets the company's code and name and keeps its candle and amount |
| DayCandles.CompanyRowsMeaning | src/fundamental/data_loader/update_stock_day_candles.py:38-57 | a company gives no rows exactly when a request raised or its OHLCV frame is empty; otherwise its joined rows, stamped |
| DayCandles.GetDailyDataWithTradingValue | src/fundamental/data_loader/update_stock_day_candles.py:29-62 | the company loop collects each company's rows in list order |
| DayCandles.DailyRowsStamped | src/fundamental/data_loader/update_stock_day_candles.py:52-54 | every collected row carries the code and name of a listed company and one of that company's OHLCV rows |
| DayCandles.DailyRowsEmpty | src/fundamental/data_loader/update_stock_day_candles.py:59-60 | the frame is empty exactly when every company was skipped |
| DayCandles.FinalColumns | src/fundamental/data_loader/update_stock_day_candles.py:62-71 | the projection succeeds exactly when every one of the nine columns is present after the rename; it then gives them in order, and `KeyError` otherwise |
| DayCandles.FinalRenameKeyed | src/fundamental/data_loader/update_stock_day_candles.py:63-69 | the rename mapping is keyed like a dict, and its keys are short Korean headers |
| DayCandles.PricesRenamed | src/fundamental/data_loader/update_stock_day_candles.py:63-69 | each Korean price or volume header present is present under its English name |
| DayCandles.AddedColumnsKept | src/fundamental/data_loader/update_stock_day_candles.py:63-71 | the columns the loader adds survive the rename |
| DayCandles.FinalColumnsPresent | src/fundamental/data_loader/update_stock_day_candles.py:63-71 | an OHLCV frame with pykrx's Korean headers always projects to the nine columns |
| DayCandles.Fields | src/fundamental/data_loader/update_stock_day_candles.py:71 | a record has the nine keys in the projection's order |
| DayCandles.Records | src/fundamental/data_loader/update_stock_day_candles.py:84-85 | one record per row, each with NaN replaced by None |
| DayCandles.RecordsMeaning | src/fundamental/data_loader/update_stock_day_candles.py:84-85 | every record has the nine keys in order and holds no NaN; a row without net buying writes None |
| DayCandles.SaveStatement | src/fundamental/data_loader/update_stock_day_candles.py:79-100 | no statement exactly when the frame is empty |
| DayCandles.SaveStatementColumns | src/fundamental/data_loader/update_stock_day_candles.py:87-100 | the statement names the nine columns and conflicts on `(company_code, candle_date)`; read back item by item, its SET clause is the six value columns' assignments in order, then `updated_at = CURRENT_TIMESTAMP`, and neither conflict key is assigned |
| DayCandleData.Stamp | src/fundamental/data_loader/get_day_candle_data.py:47-48 | every OHLCV row gets the company's code and name |
| DayCandleData.CompanyRowsMeaning | src/fundamental/data_loader/get_day_candle_data.py:35-53 | a company gives no rows exactly when its request raised or came back empty; otherwise its rows, stamped |
| DayCandleData.GetWeeklyCandleData | src/fundamental/data_loader/get_day_candle_data.py:26-71 | the company loop collects each company's rows in list order |
| DayCandleData.WeeklyRowsStamped | src/fundamental/data_loader/get_day_candle_data.py:47-49 | every collected row carries the code and name of a listed company and one of its OHLCV rows |
| DayCandleData.WeeklyRowsEmpty | src/fundamental/data_loader/get_day_candle_data.py:55-56 | the frame is empty exactly when every company was skipped |
| DayCandleData.FinalColumns | src/fundamental/data_loader/get_day_candle_data.py:58-70 | the projection succeeds exactly when all eight columns are present after the rename; it then gives them in order, and `KeyError` otherwise |
| DayCandleData.FinalRenameKeyed | src/fundamental/data_loader/get_day_candle_data.py:60-67 | the rename mapping is keyed like a dict, and its keys are short Korean headers |
| DayCandleData.HeadersRenamed | src/fundamental/data_loader/get_day_candle_data.py:59-67 | the date index and each Korean header present are present under their English names |
| DayCandleData.CompanyColumnsKept | src/fundamental/data_loader/get_day_candle_data.py:59-70 | the company columns survive the rename |
| DayCandleData.FinalColumnsPresent | src/fundamental/data_loader/get_day_candle_data.py:58-70 | OHLCV frames with pykrx's Korean headers always project to the eight columns |
| DayCandleData.Fields | src/fundamental/data_loader/get_day_candle_data.py:70 | a record has the eight keys in the projection's order |
| DayCandleData.Records | src/fundamental/data_loader/get_day_candle_data.py:82-83 | one record per row, each keyed by the eight columns |
| DayCandleData.RecordsUnchanged | src/fundamental/data_loader/get_day_candle_data.py:82-83 | the NaN-to-None step changes no value: the i-th record holds the i-th row's code, name, date, prices and volume, in column order |
| DayCandleData.SaveStatement | src/fundamental/data_loader/get_day_candle_data.py:77-99 | no statement exactly when the frame is empty; otherwise the eight columns and the `(company_code, candle_date)` conflict target; read back item by item, the SET clause is the five price and volume assignments in order, then `updated_at = CURRENT_TIMESTAMP`, and neither conflict key is assigned |
| Upsert.Quoted | src/fundamental/data_loader/db_util.py:62 | one double-quoted name per column, in column order |
| Upsert.Placeholders | src/fundamental/data_loader/db_util.py:63 | one `%(col)s` placeholder per column, in column order |
| Upsert.SetItems | src/fundamental/data_loader/db_util.py:67 | one `"c" = EXCLUDED."c"` item per updated column, in order |
| Upsert.NonKey | src/fundamental/data_loader/db_util.py:66 | the update list is no longer than the column list |
| Upsert.NonKeyExactly | src/fundamental/data_loader/db_util.py:66 | the update list holds exactly the columns that are not conflict keys, in column order |
| Upsert.BuildItems | src/fundamental/data_loader/db_util.py:61-74 | the built statement splits back into the quoted columns, the placeholders in the same order and the SET items, plus the `updated_at` refresh when asked for |
| Upsert.TouchedItems | src/fundamental/data_loader/update_stock_day_candles.py:91-98 | with a fixed update list and the `updated_at` refresh, the SET clause reads back as the update columns' assignments then the refresh, and no item assigns a conflict key that is not an update column |
| Upsert.KeysNeverUpdated | src/fundamental/data_loader/db_util.py:66-67 | a conflict key never receives an `EXCLUDED` assignment |
| Upsert.BuildNonKeyItems | src/fundamental/data_loader/db_util.py:61-74 | with the SET clause over the non-key columns, the statement splits back into quoted columns, placeholders and the non-key assignments |
| DbUtil.AddColumnsMeaning | src/fundamental/data_loader/db_util.py:53 | reading one more dict keeps the columns already there in place, adds exactly the dict's new keys and repeats none |
| DbUtil.AddColumnsFresh | src/fundamental/data_loader/db_util.py:53 | new distinct keys are appended as they are |
| DbUtil.AddColumnsSeen | src/fundamental/data_loader/db_util.py:53 | keys already present add nothing |
| DbUtil.FrameColumnsMeaning | src/fundamental/data_loader/db_util.py:53 | the frame's columns have no repeat and are exactly the keys of its dicts |
| DbUtil.FrameColumnsFirst | src/fundamental/data_loader/db_util.py:53 | the frame's columns begin with the first dict's keys, in that dict's order |
| DbUtil.FrameColumnsUniform | src/fundamental/data_loader/db_util.py:53 | when all dicts have the same distinct keys, those keys are the frame's columns |
| DbUtil.Aligned | src/fundamental/data_loader/db_util.py:53 | a frame row has one cell per frame column, in column order |
| DbUtil.Records | src/fundamental/data_loader/db_util.py:53-55 | one record per input dict |
| DbUtil.RecordsMeaning | src/fundamental/data_loader/db_util.py:53-55 | each record has every frame column in order and no NaN; a key the dict lacks is None, any other value is its NaN-to-None image |
| DbUtil.SaveFinancialData | src/fundamental/data_loader/db_util.py:49-74 | nothing is built exactly when the list is empty; otherwise the batch binds the NaN-free records |
| DbUtil.SaveFinancialDataColumns | src/fundamental/data_loader/db_util.py:61-63 | the statement's columns and placeholders are those of the frame's columns, the union of the dicts' keys |
| DbUtil.ConflictKeysNotUpdated | src/fundamental/data_loader/db_util.py:66-67 | the SET clause covers exactly the non-key columns, and no conflict key is assigned |
| DbUtil.SaveFinancialDataItems | src/fundamental/data_loader/db_util.py:61-67 | read back item by item: the quoted frame columns, the placeholders in the same order, and the assignments of the non-key columns |
| DbUtil.SaveFinancialDataConflict | src/fundamental/data_loader/db_util.py:72 | the conflict target is `company_code, year, quarter_code` |
| DbUtil.ScrapedColumns | src/fundamental/data_loader/db_util.py:53-66 | for records that all carry the base keys and the same indicators, the frame's columns are those keys, and the SET clause covers `company_name` and the indicators |
| DbUtil.ScrapedStatement | src/fundamental/data_loader/db_util.py:61-74 | the statement for scraped financial records names the four base keys and fifteen indicators, and updates `company_name` and the indicators |
| DbUtil.ScrapedThenSaved | src/fundamental/data_loader/db_util.py:53-74 | whatever page `scrape_financial_data` reads, saving its non-empty result binds exactly the scraped records and builds the statement over the nineteen columns keyed by company and period |
| StockInfo.Fields | src/fundamental/data_loader/update_stock_info.py:33 | a record has the keys `company_name`, `company_code`, `exchange`, `시가총액`, in order |
| StockInfo.Records | src/fundamental/data_loader/update_stock_info.py:32-33 | one record per ranked company |
| StockInfo.RecordsUnchanged | src/fundamental/data_loader/update_stock_info.py:32 | a ranked company holds no NaN, so NaN replacement leaves its record as it is |
| StockInfo.SaveStockInfo | src/fundamental/data_loader/update_stock_info.py:32-48 | `IndexError` exactly when there are no companies; otherwise the batch binds the records |
| StockInfo.UpdateColumnsNonKey | src/fundamental/data_loader/update_stock_info.py:40 | the update list is `exchange` and `시가총액` |
| StockInfo.SaveStockInfoStatement | src/fundamental/data_loader/update_stock_info.py:35-48 | for any non-empty ranking, the statement names the four columns and overwrites exchange and market cap on a conflict |
| StockInfo.StatementItems | src/fundamental/data_loader/update_stock_info.py:35-41 | read back item by item: the four quoted columns, their placeholders in order, and the two assignments |
| StockInfo.StatementConflict | src/fundamental/data_loader/update_stock_info.py:46 | the conflict target is `company_code, company_name` |
| StockInfo.KeysNotUpdated | src/fundamental/data_loader/update_stock_info.py:40-41 | neither conflict key is assigned in the SET clause |
| StockInfo.UpdateStockInfoMeaning | src/fundamental/data_loader/update_stock_info.py:18-52 | `update_stock_info` fails with `IndexError` exactly when neither market returns a row; otherwise it binds one record per ranked company |
| StockInfo.UpdateStockInfo | src/fundamental/data_loader/update_stock_info.py:18-57 | an empty ranking raises `IndexError`; otherwise the statement is the `stock_info` upsert keyed by code and every record has the stock-info columns in order |
| TopCompanies.ReadCompactDate | src/fundamental/data_loader/crawler.py:16-19 | a `YYYYMMDD` argument names a day only when it has eight digits and the day exists |
| TopCompanies.CompactDate | src/fundamental/data_loader/crawler.py:16 | the intended `%Y%m%d` stamp is eight digits |
| TopCompanies.CompactDateAsWritten | src/fundamental/data_loader/crawler.py:16 | the `%Y%d%m` stamp as written is eight digits |
| TopCompanies.CompactDateRoundTrip | src/fundamental/data_loader/crawler.py:16-19 | the intended stamp is read back as the day it was made from |
| TopCompanies.CompactDateAsWrittenSwaps | src/fundamental/data_loader/crawler.py:16-19 | the stamp as written names no day after the 12th of a month, and another day when day and month differ |
| TopCompanies.CompactDateAsWrittenExample | src/fundamental/data_loader/crawler.py:16-19 | 15 October 2026 is asked for as `20261510`, which is no date |
| TopCompanies.Head | src/fundamental/data_loader/crawler.py:19-23 | `[:limit]` is a prefix of length `min(limit, n)`, or all but the last `-limit` rows for a negative limit |
| TopCompanies.Tag | src/fundamental/data_loader/crawler.py:20-24 | every row of a market is tagged with its exchange, in order |
| TopCompanies.Insert | src/fundamental/data_loader/crawler.py:27 | inserting adds exactly the one row |
| TopCompanies.InsertSorted | src/fundamental/data_loader/crawler.py:27 | inserting into rows in cap order keeps them in cap order |
| TopCompanies.SortByCap | src/fundamental/data_loader/crawler.py:27 | the sort is a permutation of its rows, largest cap first |
| TopCompanies.Project | src/fundamental/data_loader/crawler.py:30-37 | one output row per ranked row |
| TopCompanies.ProjectRanked | src/fundamental/data_loader/crawler.py:26-37 | ranking and projecting gives back every row exactly once, largest cap first, each named by the lookup |
| TopCompanies.TopCompaniesRanked | src/fundamental/data_loader/crawler.py:14-39 | `get_top_companies` returns exactly the first `limit` rows of each market, tagged, named, largest cap first |
| TopCompanies.CombinedRows | src/fundamental/data_loader/crawler.py:19-26 | every concatenated row is tagged `KOSPI` or `KOSDAQ` and is one of the first `limit` rows of that market |
| TopCompanies.RankedFromCombined | src/fundamental/data_loader/crawler.py:19-37 | every ranked, projected row is tagged `KOSPI` or `KOSDAQ` |
| TopCompanies.GetTopCompanies | src/fundamental/data_loader/crawler.py:14-39 | the result is ranked by market cap, largest first; each row is named by the lookup and tagged `KOSPI` or `KOSDAQ` |
| FinancialData.IndicatorsOfMap | src/fundamental/data_loader/crawler.py:70-79 | `all_cols` is the fifteen values of `indicator_map`, in order |
| FinancialData.IndicatorsDistinct | src/fundamental/data_loader/crawler.py:70-79 | the fifteen indicator names are distinct |
| FinancialData.BaseNotIndicator | src/fundamental/data_loader/crawler.py:93-103 | no indicator shares a name with a base key |
| FinancialData.IndicatorsHaveNoDot | src/fundamental/data_loader/crawler.py:84 | no indicator name contains a `.` |
| FinancialData.QuarterNumber | src/fundamental/data_loader/crawler.py:91 | `(month - 1) // 3 + 1` with flooring: the quarter's first month is at most the month, and the next quarter's first month is after it |
| FinancialData.QuarterNumberMonths | src/fundamental/data_loader/crawler.py:91 | months 1..12 fall in quarters 1..4, three months each, in calendar order |
| FinancialData.QuarterCodeDigits | src/fundamental/data_loader/crawler.py:91 | months 1, 4, 7 and 10 give the codes `"1"` to `"4"` |
| FinancialData.ParsePeriod | src/fundamental/data_loader/crawler.py:84-91 | a header is read as a period only when it contains a `.` |
| FinancialData.BeforeMarker | src/fundamental/data_loader/crawler.py:88 | a `(E)` marker after the text is cut off by `split('(')[0]` |
| FinancialData.ParsePeriodShown | src/fundamental/data_loader/crawler.py:88-91 | a header written `YYYY.M` with any marker is read as that year and the month's quarter code |
| FinancialData.PeriodWithoutMonth | src/fundamental/data_loader/crawler.py:88-91 | a header with nothing after its `.` is skipped |
| FinancialData.AssignExisting | src/fundamental/data_loader/crawler.py:109 | assigning to a key the dict has keeps its keys in their order |
| FinancialData.AssignNew | src/fundamental/data_loader/crawler.py:103 | assigning to a key the dict lacks appends the pair |
| FinancialData.LookupAssign | src/fundamental/data_loader/crawler.py:109 | after `record[k] = v`, `k` holds `v` and every other key is unchanged |
| FinancialData.BaseFields | src/fundamental/data_loader/crawler.py:93-98 | the record starts with `company_code`, `company_name`, `year`, `quarter_code` |
| FinancialData.Defaults | src/fundamental/data_loader/crawler.py:101-103 | every column of `all_cols` is None, in order |
| FinancialData.EmptyRecord | src/fundamental/data_loader/crawler.py:93-103 | before filling, the keys are the four base keys followed by `all_cols` |
| FinancialData.Items | src/fundamental/data_loader/crawler.py:80-106 | one (renamed label, cell) pair per row of the column, in row order |
| FinancialData.FillKeys | src/fundamental/data_loader/crawler.py:106-109 | filling never changes the record's keys |
| FinancialData.FillLookup | src/fundamental/data_loader/crawler.py:106-109 | a key no row fills keeps its value; otherwise the last row labelled with it wins, converted by `to_numeric` |
| FinancialData.EmptyLookup | src/fundamental/data_loader/crawler.py:100-103 | before filling, every indicator is None |
| FinancialData.Record | src/fundamental/data_loader/crawler.py:93-109 | every record holds the four base keys and the fifteen indicators, in that order |
| FinancialData.RecordDefault | src/fundamental/data_loader/crawler.py:100-109 | an indicator no row carries stays None |
| FinancialData.RecordLastWins | src/fundamental/data_loader/crawler.py:106-109 | of several rows with the same indicator, the last one's converted cell is kept |
| FinancialData.RecordBase | src/fundamental/data_loader/crawler.py:93-109 | the company and period fields are never overwritten by the table |
| FinancialData.BaseKeysDistinct | src/fundamental/data_loader/crawler.py:93-98 | the four base keys are distinct |
| FinancialData.ScrapeFinancialData | src/fundamental/data_loader/crawler.py:82-119 | the column loop gives None for a page that could not be had, else one record per parsable period column, in column order |
| FinancialData.BuildRecord | src/fundamental/data_loader/crawler.py:93-109 | the in-place construction of one record yields the record of that period column |
| FinancialData.DefaultRecord | src/fundamental/data_loader/crawler.py:93-103 | the base dict, then each column of `all_cols` set to None in turn, is the empty record |
| FinancialData.FillColumn | src/fundamental/data_loader/crawler.py:106-109 | the inner loop's assignments, row by row, give the filled record |
| FinancialData.DefaultIsNew | src/fundamental/data_loader/crawler.py:102-103 | with distinct columns, each `record[col] = None` appends a new key |
| FinancialData.DuplicateHeaderDropsValues | src/fundamental/data_loader/crawler.py:106 | as written, a period header that appears twice gives a record whose indicators are all None |
| FinancialData.HeaderNotIndicator | src/fundamental/data_loader/crawler.py:84-107 | a period header is never an indicator name |
| FinancialData.DuplicateHeaderExample | src/fundamental/data_loader/crawler.py:106 | two `2022.12` columns with a PER of 10: lost as written, kept by the positional reading |
| FinancialData.Periods | src/fundamental/data_loader/crawler.py:84-91 | one entry per header: its period when the header has a `.` and parses, none otherwise |
| FinancialData.Present | src/fundamental/data_loader/crawler.py:82-91 | the positions of the parsable columns, each parsable, strictly increasing, and none left out |
| FinancialData.CollectMeaning | src/fundamental/data_loader/crawler.py:82-115 | the column loop gives one entry per parsable column, the k-th made from the k-th such column |
| FinancialData.FinancialRecords | src/fundamental/data_loader/crawler.py:41-119 | none exactly when the page could not be had; otherwise every record holds the base keys and the fifteen indicators in order |
| FinancialData.FinancialRecordsMeaning | src/fundamental/data_loader/crawler.py:82-115 | one record per parsable period column, in column order, the k-th being the record of the k-th such column |
| FinancialData.RecordAsWritten | src/fundamental/data_loader/crawler.py:93-109 | as written, the record still has the nineteen keys in order, and equals the positional record when the header is not repeated |
| Screener.SkipSpaces | screener.py:20 | `\s*` reaches the first non-whitespace position, and all it skips is whitespace |
| Screener.QuoteFreeEnd | screener.py:20 | `[^'"]*` reaches the first quote, and all it passes is quote-free |
| Screener.MatchAt | screener.py:20 | a match at a position captures a non-empty, quote-free token |
| Screener.First | screener.py:20 | the search finds the first matching position, with no match before it; none when no position matches |
| Screener.Encparam | screener.py:20-21 | a found token is non-empty and quote-free |
| Screener.EncparamLeftmost | screener.py:20-21 | the token is the leftmost match's, and there is none exactly when no position matches |
| Screener.EncparamAtStart | screener.py:20-21 | a page starting `encparam: '<token>'` yields that token, whatever follows |
| Screener.Quotient | screener.py:55 | numpy's division is finite exactly when the divisor is not zero |
| Screener.AcceleratingMeaning | screener.py:55-57 | flagged exactly when the first three years' sales are non-zero and `g27 > g26 > g25 > 0` over the reals; a zero denominator is never flagged |
| Screener.AcceleratingExample | screener.py:54-57 | sales 100, 110, 125, 145 are flagged |
| Screener.DeceleratingExample | screener.py:54-57 | sales 100, 120, 130, 140 are not flagged |
| Screener.FirstSalesRow | screener.py:46-48 | none exactly when no label contains `매출액`; otherwise the first such row |
| Screener.LastFour | screener.py:48 | `iloc[:, -4:]`: the last four cells, or all of them when fewer |
| Screener.Figures | screener.py:48-52 | rejected exactly when some cell is NaN; otherwise each cell's number, in order |
| Screener.FlaggedMeaning | screener.py:46-62 | a flagged company has four figures, no zero among the first three, rates times 100 that rise from a positive start, and its own name |
| Screener.GetAccelerationData | screener.py:25-64 | a reported company has four sales figures, its own name, and growth rates that rise from a positive start |
| Screener.AcceleratingFlagged | screener.py:54-62 | four figures whose growth accelerates are always reported |
| Screener.RejectedRows | screener.py:48-52 | a sales row with fewer than four cells or a non-numeric cell among its last four gives no result |

## Left out

- HTTP requests, BeautifulSoup selection, `pd.read_html`, pykrx and FinanceDataReader are external libraries. Their results are parameters of the model: pages of rows and cells, and market-cap, OHLCV and trading-value frames as typed rows. A request that raises is a distinct value (`RequestFailed`, `PageFailed`, `OhlcvFailed`, `TradingFailed`).
- The database is left out: connections, `execute_batch`, commit, rollback, close, and `get_all_company_codes`. The loaders return the statement and the records they would bind instead of executing them.
- `setup_database` is left out. It reads a DDL file and runs it. `db_util.setup_database` (db_util.py:28) takes only the connection, while the loaders pass a schema path. As the files stand, that call raises `TypeError` before any data is read. The model describes the loaders past that step.
- `crawl_financial_year_data`, imported by update_stock_info.py:4, is not defined in crawler.py. As written, that import raises `ImportError`, so update_stock_info.py cannot be loaded. The model covers the bodies of its functions as if the import succeeded.
- `datetime.now()` is a parameter. It is the day the top-companies tables are asked for, and the date of the investor pages' URL and the candle fetch windows. The three-year and one-year windows themselves are inside the fetch parameters.
- `PAGE_NUMBER` is a parameter of the investor loader; config.py does not define it.
- `time.sleep`, logging, the `print` calls, the `ThreadPoolExecutor` fan-out and the Excel output of `screener.main` are left out.
- The statement text: the model keeps the parts each loader's f-string template interpolates (table, quoted columns, placeholders, conflict target, SET clause) and not the assembled text with its line breaks and indentation.
- `Text.ToNumeric` accepts an optional sign, digits and at most one `.`. Other forms pandas accepts are read as NaN: exponents, `inf`, surrounding whitespace.
- `Text.PyInt` handles ASCII digits, a sign, single underscores between digits and Unicode whitespace around. Non-ASCII digits, which Python's `int()` also accepts, are read as `ValueError`.
- `Dates.ParseShortDate` accepts the field forms of `strptime`'s `%y`, `%m` and `%d` patterns for the `YY.MM.DD` cells. `strptime`'s `\d` also matches non-ASCII Unicode digits; the model reads only ASCII digits.
- `MarketLiquidity.CreditDepositRatio`: the ratio is exact real arithmetic. `round(..., 2)` and float rounding are not modelled.
- `Screener.GetAccelerationData`: the rates are exact reals. `round(..., 2)` is not modelled, and neither is the `-0.0` sign. numpy's infinities and NaN from a zero divisor are carried by the `Float` datatype.
- `DayCandles.RecordsMeaning`: after the left join a missing net-buy amount makes pandas store the column as floats, so `astype`-level formatting of the other rows' amounts as floats is not modelled. The amounts are ints, and a missing one becomes None.
- `TopCompanies.ReadCompactDate` is how the market-data service is taken to read its `YYYYMMDD` argument. That service is outside the repository.
- `TopCompanies.SortByCap` is an insertion sort. pandas' default sort is not stable, so the order of rows with equal market caps is unspecified in the source. The model proves only what holds for every tie order: a permutation, largest cap first.
- `TopCompanies.GetTopCompanies`: `stock.get_market_ticker_name` is a parameter `names`. The tables are asked for with the corrected `%Y%m%d` stamp (`TopCompanies.CompactDate`); crawler.py:16 writes `%Y%d%m` (`TopCompanies.CompactDateAsWritten`, see Findings).
- `TopCompanies.TopCompaniesRanked`: ranks the tables asked for with the corrected `%Y%m%d` stamp, as `TopCompanies.GetTopCompanies` does; as written the stamp is `%Y%d%m` (see Findings).
- `StockInfo.UpdateStockInfo`: ranks the tables asked for with the corrected `%Y%m%d` stamp, as `TopCompanies.GetTopCompanies` does; as written the stamp is `%Y%d%m` (see Findings).
- `StockInfo.UpdateStockInfoMeaning`: ranks the tables asked for with the corrected `%Y%m%d` stamp, as `TopCompanies.GetTopCompanies` does; as written the stamp is `%Y%d%m` (see Findings).
- `FinancialData.ScrapeFinancialData` fills each record from its column by position (`FinancialData.Record`). As written, crawler.py:106 reads the column by name, so a repeated period header gives a record whose indicators are all None (`FinancialData.RecordAsWritten`, see Findings).
- `FinancialData.BuildRecord`: reads each period column by position, as `FinancialData.ScrapeFinancialData` does; as written a repeated header gives all-None indicators (see Findings).
- `FinancialData.Records`: reads each period column by position, as `FinancialData.ScrapeFinancialData` does; as written a repeated header gives all-None indicators (see Findings).
- `FinancialData.FinancialRecords`: reads each period column by position, as `FinancialData.ScrapeFinancialData` does; as written a repeated header gives all-None indicators (see Findings).
- `DayCandles.ToEok`: the division is exact integer truncation toward zero. The source divides in float64 and then applies `astype(int)`; the two agree while the amount in won stays below 2^53 in magnitude, and float rounding beyond that is not modelled.
- `DbUtil.RecordsMeaning`: pandas stores a column that holds a None or NaN, or that some dict lacks, as floats, so its integers come back as floats such as `5.0`. The model keeps them as ints; only the NaN-to-None step is modelled.
- `FinancialData.Items`: cells are values as `read_html` gives them (int, float, text or NaN). `read_html`'s own parsing of the page is not modelled.

## Findings

| source | as written | input that shows it | evidently intended | confidence | as-written member | corrected member |
|---|---|---|---|---|---|---|
| src/fundamental/data_loader/crawler.py:16 | the market-cap tables are asked for with `strftime('%Y%d%m')`, year, day, month | 15 October 2026 gives `20261510`, which names no day; any day after the 12th does the same, and other days name the wrong date | `%Y%m%d`, the `YYYYMMDD` form the same repository uses at update_investor_trading.py:22 | not executed | TopCompanies.CompactDateAsWritten, TopCompanies.CompactDateAsWrittenSwaps, TopCompanies.CompactDateAsWrittenExample | TopCompanies.CompactDate, TopCompanies.CompactDateRoundTrip |
| src/fundamental/data_loader/crawler.py:106 | `df[quarter_col].items()` is read by column name | a table with an annual and a quarterly column both headed `2022.12`: `df['2022.12']` is a two-column frame whose items are its column names, so no indicator is filled and the record is all None | the values of that column, read by position | not executed | FinancialData.RecordAsWritten, FinancialData.DuplicateHeaderDropsValues, FinancialData.DuplicateHeaderExample | FinancialData.Record, FinancialData.RecordLastWins |
