/** A fetched Naver Finance page as the scrapers see it through BeautifulSoup: the `<tr>` rows of
    `table.type_1`, each a list of `<td>` cells with their CSS classes and their text. The request
    itself is outside the model: a page either arrives or the request raised. */
module Pages {
  import opened Values
  import opened Text

  datatype Cell = Cell(classes: seq<string>, text: string)

  datatype Row = Row(cells: seq<Cell>)

  datatype PageFetch = Fetched(rows: seq<Row>) | RequestFailed

  /** `row.find('td', class_=cls)` finds something. */
  predicate HasClass(row: Row, cls: string)
  {
    exists j :: 0 <= j < |row.cells| && cls in row.cells[j].classes
  }

  /** `soup.select('table.type_1 tr')[3:]`: the rows after the three header rows. */
  function SkipHeader(rows: seq<Row>): (r: seq<Row>)
    ensures |rows| <= 3 ==> r == []
    ensures |rows| > 3 ==> r == rows[3..]
  {
    if |rows| <= 3 then [] else rows[3..]
  }

  /** The rows that carry a cell of class `cls`, in page order. */
  function RowsWithClass(rows: seq<Row>, cls: string): (r: seq<Row>)
    ensures |r| <= |rows|
  {
    if rows == [] then []
    else
      var last := rows[|rows| - 1];
      RowsWithClass(rows[..|rows| - 1], cls) + (if HasClass(last, cls) then [last] else [])
  }

  /** The filter keeps exactly the rows that carry the class: every kept row has it and is a row
      of the page, and every row that has it is kept. */
  lemma {:induction false} RowsWithClassMeaning(rows: seq<Row>, cls: string)
    ensures forall k :: 0 <= k < |RowsWithClass(rows, cls)| ==>
      HasClass(RowsWithClass(rows, cls)[k], cls) && RowsWithClass(rows, cls)[k] in rows
    ensures forall k :: 0 <= k < |rows| && HasClass(rows[k], cls) ==> rows[k] in RowsWithClass(rows, cls)
  {
    if rows != [] {
      var init := rows[..|rows| - 1];
      RowsWithClassMeaning(init, cls);
      assert forall k :: 0 <= k < |init| ==> init[k] == rows[k];
    }
  }

  /** The filtered rows are empty exactly when no row carries the class. */
  lemma {:induction false} RowsWithClassEmpty(rows: seq<Row>, cls: string)
    ensures RowsWithClass(rows, cls) == [] <==> forall k :: 0 <= k < |rows| ==> !HasClass(rows[k], cls)
  {
    if rows != [] {
      RowsWithClassEmpty(rows[..|rows| - 1], cls);
    }
  }

  /** Filtering a prefix gives a prefix of the filtered rows. */
  lemma {:induction false} RowsWithClassPrefix(rows: seq<Row>, i: nat, cls: string)
    requires i <= |rows|
    ensures RowsWithClass(rows[..i], cls) <= RowsWithClass(rows, cls)
    decreases |rows| - i
  {
    if i < |rows| {
      RowsWithClassPrefix(rows, i + 1, cls);
      assert rows[..i + 1][..i] == rows[..i];
    } else {
      assert rows[..i] == rows;
    }
  }

  /** One more row either extends the filtered rows by itself or leaves them alone. */
  lemma RowsWithClassStep(rows: seq<Row>, i: nat, cls: string)
    requires i < |rows|
    ensures RowsWithClass(rows[..i + 1], cls)
         == RowsWithClass(rows[..i], cls) + (if HasClass(rows[i], cls) then [rows[i]] else [])
  {
    assert rows[..i + 1][..i] == rows[..i];
  }

  /** `int(cell.text.strip().replace(',', ''))`: an amount printed with thousands separators;
      `None` where `int` raises `ValueError`. */
  function CellAmount(c: Cell): Option<int>
  {
    PyInt(RemoveAll(Strip(c.text), ','))
  }

  /** Every amount the pages print with separators is read back as the same int. */
  lemma CellAmountGrouped(classes: seq<string>, i: int)
    ensures CellAmount(Cell(classes, SignedGrouped(i))) == Some(i)
  {
    ParseGroupedAmount(i);
  }

  /** What a page yields from its data rows: one value per row, in page order, as long as every
      row parses; `None` as soon as one does not (the scrapers catch the exception for the whole
      page). */
  function ParseAll<A, R>(data: seq<A>, parse: A -> Option<R>): (r: Option<seq<R>>)
    ensures r.Some? ==> |r.value| == |data|
  {
    if data == [] then Some([])
    else match ParseAll(data[..|data| - 1], parse)
      case None => None
      case Some(prefix) =>
        match parse(data[|data| - 1])
        case None => None
        case Some(r) => Some(prefix + [r])
  }

  /** The page is all-or-nothing: it parses exactly when every data row parses, and then it
      holds the rows' values in page order. */
  lemma {:induction false} ParseAllMeaning<A, R>(data: seq<A>, parse: A -> Option<R>)
    ensures ParseAll(data, parse).Some? <==> forall k :: 0 <= k < |data| ==> parse(data[k]).Some?
    ensures ParseAll(data, parse).Some? ==>
      var page := ParseAll(data, parse).value;
      |page| == |data| && forall k :: 0 <= k < |data| ==> parse(data[k]) == Some(page[k])
  {
    if data != [] {
      var init := data[..|data| - 1];
      ParseAllMeaning(init, parse);
      assert forall k :: 0 <= k < |init| ==> init[k] == data[k];
    }
  }

  /** A failing prefix fails the whole page. */
  lemma {:induction false} ParseAllPrefixFails<A, R>(data: seq<A>, i: nat, parse: A -> Option<R>)
    requires i <= |data| && ParseAll(data[..i], parse).None?
    ensures ParseAll(data, parse).None?
    decreases |data| - i
  {
    if i < |data| {
      assert data[..i + 1][..i] == data[..i];
      ParseAllPrefixFails(data, i + 1, parse);
    } else {
      assert data[..i] == data;
    }
  }

  /** The text that a page's value is when the page is given up: `[]`. */
  function OrEmpty<R>(r: Option<seq<R>>): seq<R>
  {
    match r
    case None => []
    case Some(page) => page
  }

  /** The scrapers' `for row in data_rows` loop: rows without a `cls` cell are skipped, every
      other row is parsed and appended, and the first row that fails ends the page with `[]`. */
  method ParseDataRows<R>(rows: seq<Row>, cls: string, parse: Row -> Option<R>) returns (page: seq<R>)
    ensures page == OrEmpty(ParseAll(RowsWithClass(rows, cls), parse))
  {
    page := [];
    var i := 0;
    while i < |rows|
      invariant 0 <= i <= |rows|
      invariant ParseAll(RowsWithClass(rows[..i], cls), parse) == Some(page)
    {
      if HasClass(rows[i], cls) {
        var parsed := parse(rows[i]);
        if parsed.None? {
          ParseRowFails(rows, i, cls, parse);
          return [];
        }
        ParseRowAppends(rows, i, cls, parse, page);
        page := page + [parsed.value];
      } else {
        RowsWithClassStep(rows, i, cls);
        assert RowsWithClass(rows[..i + 1], cls) == RowsWithClass(rows[..i], cls);
      }
      i := i + 1;
    }
    assert rows[..i] == rows;
  }

  /** A data row that parses extends the page parsed so far by its value. */
  lemma ParseRowAppends<R>(rows: seq<Row>, i: nat, cls: string, parse: Row -> Option<R>, page: seq<R>)
    requires i < |rows| && HasClass(rows[i], cls) && parse(rows[i]).Some?
    requires ParseAll(RowsWithClass(rows[..i], cls), parse) == Some(page)
    ensures ParseAll(RowsWithClass(rows[..i + 1], cls), parse) == Some(page + [parse(rows[i]).value])
  {
    RowsWithClassStep(rows, i, cls);
    var seen := RowsWithClass(rows[..i + 1], cls);
    assert seen[..|seen| - 1] == RowsWithClass(rows[..i], cls);
    assert seen[|seen| - 1] == rows[i];
  }

  /** A data row that does not parse fails the page, whatever rows follow. */
  lemma ParseRowFails<R>(rows: seq<Row>, i: nat, cls: string, parse: Row -> Option<R>)
    requires i < |rows| && HasClass(rows[i], cls) && parse(rows[i]).None?
    ensures ParseAll(RowsWithClass(rows, cls), parse).None?
  {
    RowsWithClassStep(rows, i, cls);
    var seen := RowsWithClass(rows[..i + 1], cls);
    assert seen[..|seen| - 1] == RowsWithClass(rows[..i], cls);
    assert seen[|seen| - 1] == rows[i];
    assert ParseAll(seen, parse).None?;
    RowsWithClassPrefix(rows, i + 1, cls);
    var all := RowsWithClass(rows, cls);
    assert all[..|seen|] == seen;
    ParseAllPrefixFails(all, |seen|, parse);
  }

  /** What one page yields: nothing when the request failed; otherwise, after the header rows,
      one value per row with a `cls` cell, in page order, provided every such row parses, and
      nothing at all if one does not. */
  function ScrapedPage<R>(fetch: PageFetch, cls: string, parse: Row -> Option<R>): (r: seq<R>)
    ensures fetch.RequestFailed? ==> r == []
    ensures fetch.Fetched? && r != [] ==> |r| == |RowsWithClass(SkipHeader(fetch.rows), cls)|
  {
    match fetch
    case RequestFailed => []
    case Fetched(rows) => OrEmpty(ParseAll(RowsWithClass(SkipHeader(rows), cls), parse))
  }

  /** The scrapers' page function, given the page the request returned: a failed request and a
      page without data rows both give `[]`; otherwise the rows are parsed. */
  method ScrapePage<R>(fetch: PageFetch, cls: string, parse: Row -> Option<R>) returns (page: seq<R>)
    ensures page == ScrapedPage(fetch, cls, parse)
  {
    if fetch.RequestFailed? {
      return [];
    }
    var rows := SkipHeader(fetch.rows);
    if !exists k :: 0 <= k < |rows| && HasClass(rows[k], cls) {
      RowsWithClassEmpty(rows, cls);
      return [];
    }
    page := ParseDataRows(rows, cls, parse);
  }

  /** One `execute_batch` call of a page loop: the page number and the records written. */
  datatype Write<R> = Write(page: int, records: seq<R>)

  /** A page is all-or-nothing: a failed request gives `[]`; otherwise, when every data row
      parses, the page holds their values in row order, and when one does not, it is `[]`. */
  lemma ScrapedPageMeaning<R>(fetch: PageFetch, cls: string, parse: Row -> Option<R>)
    ensures fetch.RequestFailed? ==> ScrapedPage(fetch, cls, parse) == []
    ensures fetch.Fetched? ==>
      var data := RowsWithClass(SkipHeader(fetch.rows), cls);
      var page := ScrapedPage(fetch, cls, parse);
      && ((forall k :: 0 <= k < |data| ==> parse(data[k]).Some?) ==>
            |page| == |data| && forall k :: 0 <= k < |data| ==> parse(data[k]) == Some(page[k]))
      && ((exists k :: 0 <= k < |data| && parse(data[k]).None?) ==> page == [])
  {
    if fetch.Fetched? {
      ParseAllMeaning(RowsWithClass(SkipHeader(fetch.rows), cls), parse);
    }
  }

  /** Whatever holds of every value the row parser can produce holds of every value of a page. */
  lemma ScrapedPageEach<R>(fetch: PageFetch, cls: string, parse: Row -> Option<R>, ok: R -> bool)
    requires forall row :: parse(row).Some? ==> ok(parse(row).value)
    ensures forall k :: 0 <= k < |ScrapedPage(fetch, cls, parse)| ==> ok(ScrapedPage(fetch, cls, parse)[k])
  {
    if fetch.Fetched? {
      var data := RowsWithClass(SkipHeader(fetch.rows), cls);
      ParseAllMeaning(data, parse);
      var page := ScrapedPage(fetch, cls, parse);
      forall k | 0 <= k < |page| ensures ok(page[k]) {
        assert parse(data[k]) == Some(page[k]);
      }
    }
  }

  /** The page results of a loader, page number by page number. */
  function Daily<R>(fetches: int -> PageFetch, cls: string, parse: Row -> Option<R>): int -> seq<R>
  {
    p => ScrapedPage(fetches(p), cls, parse)
  }

  lemma DailyAt<R>(fetches: int -> PageFetch, cls: string, parse: Row -> Option<R>, p: int)
    ensures Daily(fetches, cls, parse)(p) == ScrapedPage(fetches(p), cls, parse)
  {
  }

  /** The writes a page loop makes from page `page` on, where `daily(p)` is what page `p`
      yields: each non-empty page is written, and the loop ends at the first empty page or after
      page `last`. */
  function Crawl<R>(daily: int -> seq<R>, page: int, last: int): seq<Write<R>>
    decreases last + 1 - page
  {
    if page > last || daily(page) == [] then []
    else [Write(page, daily(page))] + Crawl(daily, page + 1, last)
  }

  /** The page loop visits `page`, `page + 1`, ... in turn: the i-th write is page `page + i`,
      which was not empty; there are no more writes than pages up to `last`; and when the loop
      stopped before `last`, the next page was empty. */
  lemma {:induction false} CrawlMeaning<R>(daily: int -> seq<R>, page: int, last: int)
    ensures var w := Crawl(daily, page, last);
      && (page <= last + 1 ==> |w| <= last + 1 - page)
      && (page > last ==> w == [])
      && (forall i :: 0 <= i < |w| ==> w[i].page == page + i && w[i].records == daily(page + i) != [])
      && (page + |w| <= last ==> daily(page + |w|) == [])
    decreases last + 1 - page
  {
    if page <= last && daily(page) != [] {
      CrawlMeaning(daily, page + 1, last);
      var w := Crawl(daily, page, last);
      assert w[1..] == Crawl(daily, page + 1, last);
    }
  }

  /** What the page loop over scraped pages wrote, from page 1: the i-th write is page `i + 1`
      with what that page's rows parse to, never empty, at most `last` of them; and when the
      loop stopped before `last`, the next page scraped to nothing. */
  ghost predicate ScrapedCrawl<R>(w: seq<Write<R>>, fetches: int -> PageFetch, cls: string, parse: Row -> Option<R>, last: int)
  {
    && (0 <= last ==> |w| <= last)
    && (forall i :: 0 <= i < |w| ==> w[i].page == i + 1 && w[i].records == ScrapedPage(fetches(i + 1), cls, parse) != [])
    && (|w| < last ==> ScrapedPage(fetches(|w| + 1), cls, parse) == [])
  }

  /** The writes of `Crawl` over scraped pages, from page 1, are what `ScrapedCrawl` says. */
  lemma CrawlDaily<R>(fetches: int -> PageFetch, cls: string, parse: Row -> Option<R>, last: int)
    ensures ScrapedCrawl(Crawl(Daily(fetches, cls, parse), 1, last), fetches, cls, parse, last)
  {
    var daily := Daily(fetches, cls, parse);
    CrawlMeaning(daily, 1, last);
    var w := Crawl(daily, 1, last);
    forall i | 0 <= i < |w|
      ensures w[i].page == i + 1 && w[i].records == ScrapedPage(fetches(i + 1), cls, parse) != []
    {
      assert w[i].page == 1 + i && w[i].records == daily(1 + i) != [];
      DailyAt(fetches, cls, parse, i + 1);
    }
    DailyAt(fetches, cls, parse, |w| + 1);
  }

  /** The loaders' `while page <= last` loop, given what each page yields: pages 1, 2, ... are
      scraped in turn, each non-empty page is written, and the loop breaks at the first empty
      page. */
  method CrawlPages<R>(daily: int -> seq<R>, last: int) returns (writes: seq<Write<R>>)
    ensures writes == Crawl(daily, 1, last)
  {
    writes := [];
    var page := 1;
    while page <= last
      invariant writes + Crawl(daily, page, last) == Crawl(daily, 1, last)
      decreases last + 1 - page
    {
      var records := daily(page);
      if records == [] {
        break;
      }
      writes := writes + [Write(page, records)];
      page := page + 1;
    }
  }

  /** A loader's page loop over scraped pages: the writes are those of `Crawl` from page 1, and
      so what `ScrapedCrawl` says. */
  method CrawlScraped<R>(fetches: int -> PageFetch, cls: string, parse: Row -> Option<R>, last: int)
    returns (writes: seq<Write<R>>)
    ensures writes == Crawl(Daily(fetches, cls, parse), 1, last)
    ensures ScrapedCrawl(writes, fetches, cls, parse, last)
  {
    writes := CrawlPages(Daily(fetches, cls, parse), last);
    CrawlDaily(fetches, cls, parse, last);
  }
}
