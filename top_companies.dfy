/** `get_top_companies` in `crawler.py`: the first `limit` rows of each market's market-cap
    table (KOSPI, then KOSDAQ), each tagged with its exchange, put together and ordered by
    market cap, largest first, then renamed and projected to name, code, exchange and cap.
    The market-cap tables and the ticker-name lookup are given as functions; the date the
    tables are asked for is built from a given day. */
module TopCompanies {
  import opened Values
  import opened Text
  import opened Dates

  /** One row of `stock.get_market_cap_by_ticker(date, market)`: the `티커` index and the
      `시가총액` column (the other columns are dropped by the final projection). */
  datatype MarketCap = MarketCap(ticker: string, cap: int)

  /** A row of the concatenated frame: the ticker, the market cap and the `exchange` column. */
  datatype Listed = Listed(ticker: string, cap: int, exchange: string)

  /** A row of the returned frame: `company_name`, `company_code`, `exchange`, `시가총액`. */
  datatype TopCompany = TopCompany(name: string, code: string, exchange: string, cap: int)

  // ---------------------------------------------------------------- the date of the request

  /** The value of the two digits of `s` at `i` and `i + 1`. */
  function TwoDigits(s: string, i: nat): nat
    requires i + 1 < |s| && IsDigit(s[i]) && IsDigit(s[i + 1])
  {
    DigitAt(s, i) * 10 + DigitAt(s, i + 1)
  }

  /** How a `YYYYMMDD` date argument is read by the market-data service: eight digits, the
      year, the month and the day, and the date must exist. */
  function ReadCompactDate(s: string): (r: Option<Date>)
    ensures r.Some? ==> ValidDate(r.value) && |s| == 8
  {
    if |s| != 8 || !AllDigits(s) then None
    else
      var d := Date(TwoDigits(s, 0) * 100 + TwoDigits(s, 2), TwoDigits(s, 4), TwoDigits(s, 6));
      if ValidDate(d) then Some(d) else None
  }

  /** `strftime('%Y%m%d')` for a four-digit year: the `YYYYMMDD` form the tables are asked
      for with. */
  function CompactDate(d: Date): (r: string)
    requires ValidDate(d) && 1000 <= d.year
    ensures |r| == 8 && AllDigits(r)
  {
    Pad2(d.year / 100) + Pad2(d.year % 100) + Pad2(d.month) + Pad2(d.day)
  }

  /** `strftime('%Y%d%m')`, the format the source actually passes: the day comes before the
      month. */
  function CompactDateAsWritten(d: Date): (r: string)
    requires ValidDate(d) && 1000 <= d.year
    ensures |r| == 8 && AllDigits(r)
  {
    Pad2(d.year / 100) + Pad2(d.year % 100) + Pad2(d.day) + Pad2(d.month)
  }

  /** The digits of `Pad2(n)` read back as `n`. */
  lemma TwoDigitsPad2(s: string, i: nat, n: nat)
    requires n < 100 && i + 1 < |s| && s[i..i + 2] == Pad2(n)
    ensures IsDigit(s[i]) && IsDigit(s[i + 1]) && TwoDigits(s, i) == n
  {
    assert s[i] == s[i..i + 2][0] && s[i + 1] == s[i..i + 2][1];
  }

  /** Reading the eight digits of year, first field and second field. */
  lemma ReadFields(year: int, a: nat, b: nat)
    requires 1000 <= year <= 9999 && a < 100 && b < 100
    ensures var s := Pad2(year / 100) + Pad2(year % 100) + Pad2(a) + Pad2(b);
      && |s| == 8 && AllDigits(s)
      && ReadCompactDate(s) == (if ValidDate(Date(year, a, b)) then Some(Date(year, a, b)) else None)
  {
    var s := Pad2(year / 100) + Pad2(year % 100) + Pad2(a) + Pad2(b);
    assert s[0..2] == Pad2(year / 100);
    assert s[2..4] == Pad2(year % 100);
    assert s[4..6] == Pad2(a);
    assert s[6..8] == Pad2(b);
    TwoDigitsPad2(s, 0, year / 100);
    TwoDigitsPad2(s, 2, year % 100);
    TwoDigitsPad2(s, 4, a);
    TwoDigitsPad2(s, 6, b);
  }

  /** The intended stamp is read back as the very day it was made from. */
  lemma CompactDateRoundTrip(d: Date)
    requires ValidDate(d) && 1000 <= d.year
    ensures ReadCompactDate(CompactDate(d)) == Some(d)
  {
    ReadFields(d.year, d.month, d.day);
  }

  /** The stamp as written is read with day and month swapped: a day after the 12th gives no
      date at all, and any other day whose number differs from the month's gives another day
      of the year. */
  lemma CompactDateAsWrittenSwaps(d: Date)
    requires ValidDate(d) && 1000 <= d.year
    ensures d.day > 12 ==> ReadCompactDate(CompactDateAsWritten(d)) == None
    ensures d.day <= 12 && d.day != d.month ==>
      ReadCompactDate(CompactDateAsWritten(d)) == Some(Date(d.year, d.day, d.month)) != Some(d)
  {
    ReadFields(d.year, d.day, d.month);
    if d.day <= 12 {
      assert d.month <= 28 && d.month <= DaysInMonth(d.year, d.day);
    }
  }

  /** 15 October 2026 is asked for as `20261510`, which is no date. */
  lemma CompactDateAsWrittenExample()
    ensures ReadCompactDate(CompactDateAsWritten(Date(2026, 10, 15))) == None
    ensures ReadCompactDate(CompactDate(Date(2026, 10, 15))) == Some(Date(2026, 10, 15))
  {
    CompactDateAsWrittenSwaps(Date(2026, 10, 15));
    CompactDateRoundTrip(Date(2026, 10, 15));
  }

  // ---------------------------------------------------------------- the ranking

  /** Python's `xs[:limit]`: the first `limit` rows, or for a negative `limit` all but the
      last `-limit` rows. */
  function Head<T>(xs: seq<T>, limit: int): (r: seq<T>)
    ensures |r| <= |xs| && r == xs[..|r|]
    ensures limit >= 0 ==> |r| == (if limit < |xs| then limit else |xs|)
    ensures limit < 0 ==> |r| == (if |xs| + limit > 0 then |xs| + limit else 0)
  {
    if limit >= 0 then (if limit < |xs| then xs[..limit] else xs)
    else if |xs| + limit > 0 then xs[..|xs| + limit]
    else []
  }

  /** `df['exchange'] = exchange` on a market's rows. */
  function Tag(rows: seq<MarketCap>, exchange: string): (r: seq<Listed>)
    ensures |r| == |rows|
    ensures forall i :: 0 <= i < |r| ==> r[i] == Listed(rows[i].ticker, rows[i].cap, exchange)
  {
    seq(|rows|, i requires 0 <= i < |rows| => Listed(rows[i].ticker, rows[i].cap, exchange))
  }

  /** `pd.concat([df_kospi, df_kosdaq])`. */
  function Combined(kospi: seq<MarketCap>, kosdaq: seq<MarketCap>, limit: int): seq<Listed>
  {
    Tag(Head(kospi, limit), "KOSPI") + Tag(Head(kosdaq, limit), "KOSDAQ")
  }

  predicate SortedByCap(xs: seq<Listed>)
  {
    forall i, j :: 0 <= i < j < |xs| ==> xs[i].cap >= xs[j].cap
  }

  /** Places `x` in front of the first row whose cap it is at least. */
  function Insert(x: Listed, xs: seq<Listed>): (r: seq<Listed>)
    ensures multiset(r) == multiset(xs) + multiset{x}
  {
    if xs == [] || x.cap >= xs[0].cap then [x] + xs
    else
      assert xs == [xs[0]] + xs[1..];
      [xs[0]] + Insert(x, xs[1..])
  }

  /** No row of `xs` has a cap above `bound`. */
  predicate AtMost(xs: seq<Listed>, bound: int)
  {
    forall i :: 0 <= i < |xs| ==> xs[i].cap <= bound
  }

  /** A row with a cap at least every cap of a sorted list may go in front of it. */
  lemma SortedCons(y: Listed, ys: seq<Listed>)
    requires SortedByCap(ys) && AtMost(ys, y.cap)
    ensures SortedByCap([y] + ys)
  {
    var r := [y] + ys;
    forall i, j | 0 <= i < j < |r|
      ensures r[i].cap >= r[j].cap
    {
      assert r[j] == ys[j - 1];
      if i > 0 {
        assert r[i] == ys[i - 1];
      }
    }
  }

  /** Inserting a row no larger than `bound` keeps every cap at most `bound`. */
  lemma {:induction false} InsertAtMost(x: Listed, xs: seq<Listed>, bound: int)
    requires x.cap <= bound && AtMost(xs, bound)
    ensures AtMost(Insert(x, xs), bound)
  {
    var r := Insert(x, xs);
    if xs == [] || x.cap >= xs[0].cap {
      assert forall i :: 0 < i < |r| ==> r[i] == xs[i - 1];
    } else {
      InsertAtMost(x, xs[1..], bound);
      var rest := Insert(x, xs[1..]);
      assert forall i :: 0 < i < |r| ==> r[i] == rest[i - 1];
    }
  }

  /** Inserting into rows in cap order keeps them in cap order. */
  lemma {:induction false} InsertSorted(x: Listed, xs: seq<Listed>)
    requires SortedByCap(xs)
    ensures SortedByCap(Insert(x, xs))
  {
    if xs == [] {
      SortedCons(x, xs);
    } else if x.cap >= xs[0].cap {
      assert AtMost(xs, x.cap) by {
        forall i | 0 <= i < |xs| ensures xs[i].cap <= x.cap {
          if i > 0 {
            assert xs[0].cap >= xs[i].cap;
          }
        }
      }
      SortedCons(x, xs);
    } else {
      var tail := xs[1..];
      assert SortedByCap(tail) by {
        forall i, j | 0 <= i < j < |tail| ensures tail[i].cap >= tail[j].cap {
          assert tail[i] == xs[i + 1] && tail[j] == xs[j + 1];
        }
      }
      assert AtMost(tail, xs[0].cap) by {
        forall i | 0 <= i < |tail| ensures tail[i].cap <= xs[0].cap {
          assert tail[i] == xs[i + 1];
        }
      }
      InsertSorted(x, tail);
      InsertAtMost(x, tail, xs[0].cap);
      SortedCons(xs[0], Insert(x, tail));
    }
  }

  /** `sort_values(by='시가총액', ascending=False)`: the same rows, largest cap first. */
  function SortByCap(xs: seq<Listed>): (r: seq<Listed>)
    ensures multiset(r) == multiset(xs)
    ensures SortedByCap(r)
  {
    if xs == [] then []
    else
      assert xs == [xs[0]] + xs[1..];
      var sorted := SortByCap(xs[1..]);
      InsertSorted(xs[0], sorted);
      Insert(xs[0], sorted)
  }

  /** `reset_index`, the rename to `company_code`, the name column from the lookup, and the
      projection `[['company_name', 'company_code', 'exchange', '시가총액']]`. */
  function Project(ranked: seq<Listed>, names: string -> string): (r: seq<TopCompany>)
    ensures |r| == |ranked|
  {
    seq(|ranked|, i requires 0 <= i < |ranked| =>
      TopCompany(names(ranked[i].ticker), ranked[i].ticker, ranked[i].exchange, ranked[i].cap))
  }

  /** The whole of `get_top_companies` for the day `today`, with the tables `caps(date,
      market)` and the name lookup `names(code)`: the ranked rows, renamed and projected. */
  function GetTopCompanies(caps: (string, string) -> seq<MarketCap>, names: string -> string, today: Date, limit: int): (r: seq<TopCompany>)
    requires ValidDate(today) && 1000 <= today.year
    ensures forall i, j :: 0 <= i < j < |r| ==> r[i].cap >= r[j].cap
    ensures forall i :: 0 <= i < |r| ==> r[i].name == names(r[i].code)
    ensures forall i :: 0 <= i < |r| ==> r[i].exchange == "KOSPI" || r[i].exchange == "KOSDAQ"
  {
    var date := CompactDate(today);
    var combined := Combined(caps(date, "KOSPI"), caps(date, "KOSDAQ"), limit);
    ProjectRanked(combined, names);
    RankedFromCombined(combined, caps(date, "KOSPI"), caps(date, "KOSDAQ"), limit, names);
    Project(SortByCap(combined), names)
  }

  /** A returned row back as a row of the concatenated frame. */
  function Unprojected(t: TopCompany): Listed
  {
    Listed(t.code, t.cap, t.exchange)
  }

  /** Ranking and projecting any frame gives back its rows, each once, largest cap first, each
      named by the lookup. */
  lemma ProjectRanked(xs: seq<Listed>, names: string -> string)
    ensures var r := Project(SortByCap(xs), names);
      && multiset(seq(|r|, i requires 0 <= i < |r| => Unprojected(r[i]))) == multiset(xs)
      && (forall i, j :: 0 <= i < j < |r| ==> r[i].cap >= r[j].cap)
      && (forall i :: 0 <= i < |r| ==> r[i].name == names(r[i].code))
  {
    var ranked := SortByCap(xs);
    var r := Project(ranked, names);
    var u := seq(|r|, i requires 0 <= i < |r| => Unprojected(r[i]));
    forall i | 0 <= i < |r| ensures u[i] == ranked[i] {
      assert r[i].code == ranked[i].ticker && r[i].cap == ranked[i].cap && r[i].exchange == ranked[i].exchange;
    }
    assert u == ranked;
  }

  /** What `get_top_companies` returns: exactly the first `limit` rows of each market, each
      tagged with its market and named by the lookup, largest cap first. */
  lemma TopCompaniesRanked(caps: (string, string) -> seq<MarketCap>, names: string -> string, today: Date, limit: int)
    requires ValidDate(today) && 1000 <= today.year
    ensures var r := GetTopCompanies(caps, names, today, limit);
      var date := CompactDate(today);
      && multiset(seq(|r|, i requires 0 <= i < |r| => Unprojected(r[i])))
         == multiset(Combined(caps(date, "KOSPI"), caps(date, "KOSDAQ"), limit))
      && (forall i, j :: 0 <= i < j < |r| ==> r[i].cap >= r[j].cap)
      && (forall i :: 0 <= i < |r| ==> r[i].name == names(r[i].code))
  {
    var date := CompactDate(today);
    ProjectRanked(Combined(caps(date, "KOSPI"), caps(date, "KOSDAQ"), limit), names);
  }

  /** Every row of the concatenated frame is one of the first `limit` rows of its own
      market, and no market gives more than `limit` rows when `limit` is not negative. */
  lemma CombinedRows(kospi: seq<MarketCap>, kosdaq: seq<MarketCap>, limit: int, x: Listed)
    requires x in Combined(kospi, kosdaq, limit)
    ensures x.exchange == "KOSPI" || x.exchange == "KOSDAQ"
    ensures x.exchange == "KOSPI" ==> MarketCap(x.ticker, x.cap) in Head(kospi, limit)
    ensures x.exchange == "KOSDAQ" ==> MarketCap(x.ticker, x.cap) in Head(kosdaq, limit)
  {
    var a, b := Tag(Head(kospi, limit), "KOSPI"), Tag(Head(kosdaq, limit), "KOSDAQ");
    assert "KOSPI" != "KOSDAQ" by { assert "KOSPI"[3] != "KOSDAQ"[3]; }
    if x in a {
      var i :| 0 <= i < |a| && a[i] == x;
      assert Head(kospi, limit)[i] == MarketCap(x.ticker, x.cap);
    } else {
      assert x in b;
      var i :| 0 <= i < |b| && b[i] == x;
      assert Head(kosdaq, limit)[i] == MarketCap(x.ticker, x.cap);
    }
  }

  /** Ranking the concatenated frame keeps only tagged rows: every returned row is listed on
      KOSPI or KOSDAQ. */
  lemma RankedFromCombined(combined: seq<Listed>, kospi: seq<MarketCap>, kosdaq: seq<MarketCap>, limit: int,
                           names: string -> string)
    requires combined == Combined(kospi, kosdaq, limit)
    ensures var r := Project(SortByCap(combined), names);
      forall i :: 0 <= i < |r| ==> r[i].exchange == "KOSPI" || r[i].exchange == "KOSDAQ"
  {
    var ranked := SortByCap(combined);
    forall i | 0 <= i < |ranked|
      ensures ranked[i].exchange == "KOSPI" || ranked[i].exchange == "KOSDAQ"
    {
      assert ranked[i] in multiset(ranked);
      CombinedRows(kospi, kosdaq, limit, ranked[i]);
    }
  }
}
