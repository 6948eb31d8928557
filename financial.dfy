/** `scrape_financial_data` in `crawler.py`: the quarterly indicator table of a company's Naver
    Finance main page, turned into one record per period column. A column whose header reads
    like `2023.12(E)` gives the year and the quarter code; the table's row labels are renamed
    to the indicator names of the `financial_indicators` table, and each record holds every
    indicator, `None` unless the column has a value for it. */
module FinancialData {
  import opened Values
  import opened Text

  /** `indicator_map`: the Korean row labels and the indicator names they become. */
  const IndicatorMap: seq<(string, string)> := [
    ("PER(배)", "per"), ("PBR(배)", "pbr"), ("EV/EBITDA(배)", "ev_ebitda"),
    ("매출액증가율(%)", "sales_growth_yoy"), ("EPS증가율(%)", "eps_growth_yoy"),
    ("배당수익률(%)", "dividend_yield"), ("ROE(%)", "roe"), ("ROA(%)", "roa"),
    ("ROIC(%)", "roic"), ("매출총이익률(%)", "gross_profit_margin"),
    ("영업이익률(%)", "operating_profit_margin"), ("순이익률(%)", "net_profit_margin"),
    ("부채비율", "debt_ratio"), ("유동비율", "current_ratio"), ("이자보상배율", "interest_coverage_ratio")]

  /** `all_cols = list(indicator_map.values())`. */
  const Indicators: seq<string> := [
    "per", "pbr", "ev_ebitda", "sales_growth_yoy", "eps_growth_yoy", "dividend_yield", "roe", "roa",
    "roic", "gross_profit_margin", "operating_profit_margin", "net_profit_margin", "debt_ratio",
    "current_ratio", "interest_coverage_ratio"]

  /** The keys every record starts with, before the indicators. */
  const BaseColumns: seq<string> := ["company_code", "company_name", "year", "quarter_code"]

  /** `Indicators` are the map's values, in order. */
  lemma IndicatorsOfMap()
    ensures |IndicatorMap| == |Indicators| == 15
    ensures forall k :: 0 <= k < 15 ==> IndicatorMap[k].1 == Indicators[k]
  {
  }

  /** The fifteen indicator names are distinct. */
  lemma IndicatorsDistinct()
    ensures forall i, j :: 0 <= i < j < |Indicators| ==> Indicators[i] != Indicators[j]
  {
  }

  /** No indicator shares a name with a base key. */
  lemma BaseNotIndicator()
    ensures forall k :: 0 <= k < |BaseColumns| ==> BaseColumns[k] !in Indicators
  {
  }

  predicate NoDot(names: seq<string>)
  {
    forall i :: 0 <= i < |names| ==> '.' !in names[i]
  }

  lemma NoDotFirst()
    ensures NoDot(["per", "pbr", "ev_ebitda", "sales_growth_yoy", "eps_growth_yoy"])
  {
  }

  lemma NoDotSecond()
    ensures NoDot(["dividend_yield", "roe", "roa", "roic", "gross_profit_margin"])
  {
  }

  lemma NoDotThird()
    ensures NoDot(["operating_profit_margin", "net_profit_margin", "debt_ratio", "current_ratio", "interest_coverage_ratio"])
  {
  }

  /** No indicator name contains a `.`, so no period header is ever taken for one. */
  lemma IndicatorsHaveNoDot()
    ensures NoDot(Indicators)
  {
    NoDotFirst();
    NoDotSecond();
    NoDotThird();
    assert Indicators
      == ["per", "pbr", "ev_ebitda", "sales_growth_yoy", "eps_growth_yoy"]
      + ["dividend_yield", "roe", "roa", "roic", "gross_profit_margin"]
      + ["operating_profit_margin", "net_profit_margin", "debt_ratio", "current_ratio", "interest_coverage_ratio"];
  }

  datatype Company = Company(code: string, name: string)

  /** A row of the table after `set_index`: its label and its cells, column by column. */
  datatype IndicatorRow = IndicatorRow(title: string, cells: seq<Value>)

  /** The page as `pd.read_html(...)[3]` gives it, once the header's second level is taken as
      the column names; `PageFailed` where the request, the parse or the table lookup raised. */
  datatype FinancialPage = PageFailed | Table(headers: seq<string>, rows: seq<IndicatorRow>)

  /** The cell of `row` in column `j`; `read_html` pads a short row with NaN. */
  function CellAt(row: IndicatorRow, j: nat): Value
  {
    if j < |row.cells| then row.cells[j] else VNaN
  }

  // ---------------------------------------------------------------- the period header

  datatype Period = Period(year: int, quarterCode: string)

  /** `(month - 1) // 3 + 1`, with Python's flooring `//`. */
  function QuarterNumber(month: int): (q: int)
    ensures 3 * (q - 1) <= month - 1 < 3 * q
  {
    (month - 1) / 3 + 1
  }

  /** Months 1..12 fall in quarters 1..4, three months to a quarter, in calendar order. */
  lemma QuarterNumberMonths(month: int)
    requires 1 <= month <= 12
    ensures 1 <= QuarterNumber(month) <= 4
    ensures QuarterNumber(month) == (if month <= 3 then 1 else if month <= 6 then 2 else if month <= 9 then 3 else 4)
  {
  }

  /** The quarter code `str(...)` of a month. */
  function QuarterCode(month: int): string
  {
    ShowInt(QuarterNumber(month))
  }

  lemma QuarterCodeDigits()
    ensures QuarterCode(1) == "1" && QuarterCode(4) == "2" && QuarterCode(7) == "3" && QuarterCode(10) == "4"
  {
  }

  /** The `try` block's reading of a header: the text before the first `(`, split at `.`; the
      year is the part before the first `.`, the month the part after it (up to a second `.`),
      both read by `int()`. `None` where that raises `ValueError` or `IndexError`. */
  function ParsePeriod(header: string): (r: Option<Period>)
    ensures r.Some? ==> '.' in header
  {
    var yearMonth := Before(header, '(');
    match PyInt(Before(yearMonth, '.'))
    case None => None
    case Some(year) =>
      match SecondPart(yearMonth, '.')
      case None => None
      case Some(monthText) =>
        match PyInt(monthText)
        case None => None
        case Some(month) => Some(Period(year, QuarterCode(month)))
  }

  /** A marker such as `(E)` after the text is cut off by `split('(')[0]`. */
  lemma {:induction false} BeforeMarker(text: string, marker: string)
    requires '(' !in text
    requires marker == [] || marker[0] == '('
    ensures Before(text + marker, '(') == text
  {
    if marker == [] {
      assert text + marker == text;
    } else {
      assert text + marker == text + ['('] + marker[1..];
      SplitAt(text, '(', marker[1..]);
    }
  }

  /** The header of any year and month, written as the page writes it (`2023.12`, possibly
      followed by a marker such as `(E)`), is read back as that year and that month's quarter. */
  lemma ParsePeriodShown(year: nat, month: nat, marker: string)
    requires marker == [] || marker[0] == '('
    ensures ParsePeriod(ShowNat(year) + "." + ShowNat(month) + marker) == Some(Period(year, QuarterCode(month)))
  {
    var y, m := ShowNat(year), ShowNat(month);
    DigitsHaveNoMarks(y);
    DigitsHaveNoMarks(m);
    var yearMonth := y + ['.'] + m;
    assert y + "." + m + marker == yearMonth + marker;
    assert '(' !in yearMonth;
    BeforeMarker(yearMonth, marker);
    SplitAt(y, '.', m);
    PyIntShowInt(year);
    PyIntShowInt(month);
  }

  /** A header with nothing after its `.` has no month: the column is skipped. */
  lemma PeriodWithoutMonth()
    ensures ParsePeriod("2023.") == None
  {
    assert IndexOf("2023.", '.') == Some(4);
    assert IndexOf("", '.') == None;
    assert Before("2023.", '(') == "2023.";
    assert SecondPart("2023.", '.') == Some("");
  }

  // ---------------------------------------------------------------- the record

  /** `record[k] = v`: an existing key keeps its place and takes the new value; a new key is
      appended. */
  function Assign(fields: seq<Field>, k: string, v: Value): seq<Field>
  {
    if fields == [] then [(k, v)]
    else if fields[0].0 == k then [(k, v)] + fields[1..]
    else [fields[0]] + Assign(fields[1..], k, v)
  }

  /** Assigning to a key the dict has keeps its keys, in their order. */
  lemma {:induction false} AssignExisting(fields: seq<Field>, k: string, v: Value)
    requires k in Keys(fields)
    ensures Keys(Assign(fields, k, v)) == Keys(fields)
  {
    if fields[0].0 != k {
      assert Keys(fields) == [fields[0].0] + Keys(fields[1..]);
      AssignExisting(fields[1..], k, v);
    }
  }

  /** Assigning to a key the dict lacks appends the pair. */
  lemma {:induction false} AssignNew(fields: seq<Field>, k: string, v: Value)
    requires forall m :: 0 <= m < |fields| ==> fields[m].0 != k
    ensures Assign(fields, k, v) == fields + [(k, v)]
  {
    if fields != [] {
      AssignNew(fields[1..], k, v);
      assert [fields[0]] + (fields[1..] + [(k, v)]) == fields + [(k, v)];
    }
  }

  /** After `record[k] = v`, looking `k` up gives `v` and every other key is unchanged. */
  lemma {:induction false} LookupAssign(fields: seq<Field>, k: string, v: Value, other: string)
    ensures Lookup(Assign(fields, k, v), k) == Some(v)
    ensures other != k ==> Lookup(Assign(fields, k, v), other) == Lookup(fields, other)
  {
    if fields != [] && fields[0].0 != k {
      LookupAssign(fields[1..], k, v, other);
      assert Assign(fields, k, v) == [fields[0]] + Assign(fields[1..], k, v);
      assert Assign(fields, k, v)[1..] == Assign(fields[1..], k, v);
    }
  }

  /** The four base fields of a record: the company and the period. */
  function BaseFields(c: Company, p: Period): (r: seq<Field>)
    ensures Keys(r) == BaseColumns
  {
    [("company_code", VText(c.code)), ("company_name", VText(c.name)), ("year", VInt(p.year)),
     ("quarter_code", VText(p.quarterCode))]
  }

  /** Every column of `all` set to `None`, in order. */
  function Defaults(all: seq<string>): (r: seq<Field>)
    ensures |r| == |all| && forall k :: 0 <= k < |all| ==> r[k] == (all[k], VNone)
  {
    seq(|all|, k requires 0 <= k < |all| => (all[k], VNone))
  }

  /** The record before it is filled: the company, the period, then every column of `all`
      (`all_cols`) set to `None`. */
  function EmptyRecord(c: Company, p: Period, all: seq<string>): (r: seq<Field>)
    ensures Keys(r) == BaseColumns + all
  {
    BaseFields(c, p) + Defaults(all)
  }

  /** The column's `(label, value)` pairs, row by row, with the labels renamed by `mapping`. */
  function Items(rows: seq<IndicatorRow>, j: nat, mapping: seq<(string, string)>): (items: seq<Field>)
    ensures |items| == |rows|
    ensures forall i :: 0 <= i < |rows| ==> items[i] == (RenameColumn(rows[i].title, mapping), CellAt(rows[i], j))
  {
    seq(|rows|, i requires 0 <= i < |rows| => (RenameColumn(rows[i].title, mapping), CellAt(rows[i], j)))
  }

  /** The inner `for indicator, value in ...` loop over `items`: an item whose label is one of
      `all` sets that column to its value coerced to a number; other items are ignored. */
  function Fill(record: seq<Field>, items: seq<Field>, all: seq<string>): seq<Field>
  {
    if items == [] then record
    else
      var before := Fill(record, items[..|items| - 1], all);
      var last := items[|items| - 1];
      if last.0 in all then Assign(before, last.0, ToNumeric(last.1)) else before
  }

  /** Filling never changes a record's keys, as long as every column of `all` is already one. */
  lemma {:induction false} FillKeys(record: seq<Field>, items: seq<Field>, all: seq<string>)
    requires forall k :: 0 <= k < |all| ==> all[k] in Keys(record)
    ensures Keys(Fill(record, items, all)) == Keys(record)
  {
    if items != [] {
      var init := items[..|items| - 1];
      var last := items[|items| - 1];
      FillKeys(record, init, all);
      if last.0 in all {
        var idx :| 0 <= idx < |all| && all[idx] == last.0;
        AssignExisting(Fill(record, init, all), last.0, ToNumeric(last.1));
      }
    }
  }

  /** What filling leaves under `key`: the value of the last item labelled `key` when `key` is
      one of `all` and some item carries it; the record's own value otherwise. */
  lemma {:induction false} FillLookup(record: seq<Field>, items: seq<Field>, all: seq<string>, key: string)
    ensures (key !in all || forall i :: 0 <= i < |items| ==> items[i].0 != key) ==>
      Lookup(Fill(record, items, all), key) == Lookup(record, key)
    ensures forall i :: (0 <= i < |items| && items[i].0 == key && key in all &&
      (forall m :: i < m < |items| ==> items[m].0 != key)) ==>
      Lookup(Fill(record, items, all), key) == Some(ToNumeric(items[i].1))
  {
    if items != [] {
      var n := |items| - 1;
      var init := items[..n];
      FillLookup(record, init, all, key);
      var last := items[n];
      if last.0 in all {
        LookupAssign(Fill(record, init, all), last.0, ToNumeric(last.1), key);
      }
      assert forall i :: 0 <= i < n ==> init[i] == items[i];
    }
  }

  /** The value under a key whose first entry is at position `i`. */
  lemma {:induction false} LookupAt(fields: seq<Field>, i: int)
    requires 0 <= i < |fields|
    requires forall m :: 0 <= m < i ==> fields[m].0 != fields[i].0
    ensures Lookup(fields, fields[i].0) == Some(fields[i].1)
  {
    if i > 0 {
      LookupAt(fields[1..], i - 1);
    }
  }

  /** Entries before the first one with the key play no part in its lookup. */
  lemma {:induction false} LookupSkip(fields: seq<Field>, n: int, key: string)
    requires 0 <= n <= |fields|
    requires forall m :: 0 <= m < n ==> fields[m].0 != key
    ensures Lookup(fields, key) == Lookup(fields[n..], key)
  {
    if n > 0 {
      LookupSkip(fields[1..], n - 1, key);
      assert fields[1..][n - 1..] == fields[n..];
    }
  }

  /** Every column of `all` is `None` among the defaults. */
  lemma {:induction false} LookupDefaults(all: seq<string>, key: string)
    requires key in all
    ensures Lookup(Defaults(all), key) == Some(VNone)
  {
    if all[0] != key {
      assert Defaults(all)[1..] == Defaults(all[1..]);
      LookupDefaults(all[1..], key);
    }
  }

  /** In the record before filling, each column of `all` is `None`, as long as no base key
      is one of them. */
  lemma EmptyLookup(c: Company, p: Period, all: seq<string>, k: int)
    requires 0 <= k < |all|
    requires forall m :: 0 <= m < |BaseColumns| ==> BaseColumns[m] !in all
    ensures Lookup(EmptyRecord(c, p, all), all[k]) == Some(VNone)
  {
    var e := EmptyRecord(c, p, all);
    var base := BaseFields(c, p);
    assert forall m :: 0 <= m < |base| ==> e[m].0 == Keys(base)[m] == BaseColumns[m];
    LookupSkip(e, |base|, all[k]);
    assert e[|base|..] == Defaults(all);
    LookupDefaults(all, all[k]);
  }

  /** The record of one period column, read from the column's cells by position: it holds the
      four base keys and all fifteen indicators, in that order, whatever the table. */
  function Record(c: Company, p: Period, rows: seq<IndicatorRow>, j: nat): (r: seq<Field>)
    ensures Keys(r) == BaseColumns + Indicators
  {
    FilledKeys(c, p, Items(rows, j, IndicatorMap));
    Fill(EmptyRecord(c, p, Indicators), Items(rows, j, IndicatorMap), Indicators)
  }

  /** Filling the empty record from any items keeps its keys: the base keys, then the
      indicators. */
  lemma FilledKeys(c: Company, p: Period, items: seq<Field>)
    ensures Keys(Fill(EmptyRecord(c, p, Indicators), items, Indicators)) == BaseColumns + Indicators
  {
    var e := EmptyRecord(c, p, Indicators);
    assert forall k :: 0 <= k < |Indicators| ==> Indicators[k] == Keys(e)[|BaseColumns| + k];
    FillKeys(e, items, Indicators);
  }

  /** An indicator no row of the column carries stays `None`. */
  lemma RecordDefault(c: Company, p: Period, rows: seq<IndicatorRow>, j: nat, k: int)
    requires 0 <= k < |Indicators|
    requires forall i :: 0 <= i < |rows| ==> RenameColumn(rows[i].title, IndicatorMap) != Indicators[k]
    ensures Lookup(Record(c, p, rows, j), Indicators[k]) == Some(VNone)
  {
    FillLookup(EmptyRecord(c, p, Indicators), Items(rows, j, IndicatorMap), Indicators, Indicators[k]);
    BaseNotIndicator();
    EmptyLookup(c, p, Indicators, k);
  }

  /** When several rows of the column carry the same indicator, the last one wins; its value
      is coerced, so a non-numeric cell gives NaN rather than an error. */
  lemma RecordLastWins(c: Company, p: Period, rows: seq<IndicatorRow>, j: nat, i: int)
    requires 0 <= i < |rows| && RenameColumn(rows[i].title, IndicatorMap) in Indicators
    requires forall m :: i < m < |rows| ==> RenameColumn(rows[m].title, IndicatorMap) != RenameColumn(rows[i].title, IndicatorMap)
    ensures Lookup(Record(c, p, rows, j), RenameColumn(rows[i].title, IndicatorMap)) == Some(ToNumeric(CellAt(rows[i], j)))
  {
    FillLookup(EmptyRecord(c, p, Indicators), Items(rows, j, IndicatorMap), Indicators, RenameColumn(rows[i].title, IndicatorMap));
  }

  /** The company and the period are never overwritten by the table: the `m`-th base key keeps
      the company's code or name, the year or the quarter code. */
  lemma RecordBase(c: Company, p: Period, rows: seq<IndicatorRow>, j: nat, m: int)
    requires 0 <= m < |BaseColumns|
    ensures Lookup(Record(c, p, rows, j), BaseColumns[m]) == Some(BaseFields(c, p)[m].1)
  {
    var e := EmptyRecord(c, p, Indicators);
    BaseNotIndicator();
    FillLookup(e, Items(rows, j, IndicatorMap), Indicators, BaseColumns[m]);
    BaseKeysDistinct();
    assert e[m] == BaseFields(c, p)[m];
    LookupAt(e, m);
  }

  /** The four base keys are distinct. */
  lemma BaseKeysDistinct()
    ensures forall i, j :: 0 <= i < j < |BaseColumns| ==> BaseColumns[i] != BaseColumns[j]
  {
  }

  // ---------------------------------------------------------------- the column loop

  /** What the loop makes of one header: `None` for a header without a `.` (the `continue`)
      or one that does not parse (the `except`), otherwise its period. */
  function HeaderPeriod(h: string): Option<Period>
  {
    if '.' !in h then None else ParsePeriod(h)
  }

  /** Each header read as a period, or `None` where its column is skipped. */
  function Periods(headers: seq<string>): (ps: seq<Option<Period>>)
    ensures |ps| == |headers| && forall j :: 0 <= j < |headers| ==> ps[j] == HeaderPeriod(headers[j])
  {
    seq(|headers|, j requires 0 <= j < |headers| => HeaderPeriod(headers[j]))
  }

  /** The loop's list over the first `n` columns, for any value `make` builds from a column's
      period and index: a skipped column adds nothing, every other column adds its value, in
      column order. */
  function Collect<T>(periods: seq<Option<Period>>, make: (Period, nat) -> T, n: nat): seq<T>
    requires n <= |periods|
  {
    if n == 0 then []
    else
      var before := Collect(periods, make, n - 1);
      match periods[n - 1]
      case None => before
      case Some(p) => before + [make(p, n - 1)]
  }

  /** The records of the first `n` columns, given each column's period. */
  function Records(c: Company, periods: seq<Option<Period>>, rows: seq<IndicatorRow>, n: nat): seq<seq<Field>>
    requires n <= |periods|
  {
    Collect(periods, (p: Period, j: nat) => Record(c, p, rows, j), n)
  }

  /** The indexes among the first `n` of the entries that are present, in order. */
  function Present<T>(xs: seq<Option<T>>, n: nat): (cols: seq<nat>)
    requires n <= |xs|
    ensures forall k :: 0 <= k < |cols| ==> cols[k] < n && xs[cols[k]].Some?
    ensures forall k, l :: 0 <= k < l < |cols| ==> cols[k] < cols[l]
    ensures forall j :: 0 <= j < n && xs[j].Some? ==> j in cols
  {
    if n == 0 then []
    else if xs[n - 1].Some? then Present(xs, n - 1) + [n - 1]
    else Present(xs, n - 1)
  }

  /** The column loop's list: one value per column whose header reads as a period, in column
      order, the `k`-th being the value of the `k`-th such column, so a column that does not
      read as a period is skipped without touching the others. */
  lemma {:induction false} CollectMeaning<T>(periods: seq<Option<Period>>, make: (Period, nat) -> T, n: nat)
    requires n <= |periods|
    ensures var r, cols := Collect(periods, make, n), Present(periods, n);
      && |r| == |cols|
      && (forall k :: 0 <= k < |r| ==> r[k] == make(periods[cols[k]].value, cols[k]))
  {
    if n > 0 {
      CollectMeaning(periods, make, n - 1);
      var before, cols := Collect(periods, make, n - 1), Present(periods, n - 1);
      if periods[n - 1].Some? {
        assert Collect(periods, make, n) == before + [make(periods[n - 1].value, n - 1)];
        assert Present(periods, n) == cols + [n - 1];
      } else {
        assert Collect(periods, make, n) == before;
        assert Present(periods, n) == cols;
      }
    }
  }

  /** `scrape_financial_data`: `None` exactly when the page could not be had; otherwise one
      record per period column, each with the base keys and every indicator. */
  function FinancialRecords(c: Company, page: FinancialPage): (r: Option<seq<seq<Field>>>)
    ensures r.None? <==> page.PageFailed?
    ensures r.Some? ==> forall k :: 0 <= k < |r.value| ==> Keys(r.value[k]) == BaseColumns + Indicators
  {
    match page
    case PageFailed => None
    case Table(headers, rows) =>
      CollectMeaning(Periods(headers), (p: Period, j: nat) => Record(c, p, rows, j), |headers|);
      Some(Records(c, Periods(headers), rows, |headers|))
  }

  /** What the page gives, in terms of its columns: for a table, the `k`-th record is the record
      of the `k`-th column whose header reads as a period, and there is one per such column. */
  lemma FinancialRecordsMeaning(c: Company, page: FinancialPage)
    requires page.Table?
    ensures var r, ps := FinancialRecords(c, page).value, Periods(page.headers);
      var cols := Present(ps, |page.headers|);
      && |r| == |cols|
      && forall k :: 0 <= k < |r| ==> r[k] == Record(c, ps[cols[k]].value, page.rows, cols[k])
  {
    CollectMeaning(Periods(page.headers), (p: Period, j: nat) => Record(c, p, page.rows, j), |page.headers|);
  }

  /** `scrape_financial_data`, given the page: the loop over the columns, and for each period
      column the record built in place (base keys, then every indicator set to `None`, then the
      column's cells copied row by row). */
  method ScrapeFinancialData(c: Company, page: FinancialPage) returns (result: Option<seq<seq<Field>>>)
    ensures result == FinancialRecords(c, page)
  {
    if page.PageFailed? {
      return None;
    }
    var headers, rows := page.headers, page.rows;
    ghost var periods := Periods(headers);
    var results: seq<seq<Field>> := [];
    for j := 0 to |headers|
      invariant results == Records(c, periods, rows, j)
    {
      var header := headers[j];
      assert periods[j] == HeaderPeriod(header);
      if '.' !in header {
        continue;
      }
      var period := ParsePeriod(header);
      if period.None? {
        continue;
      }
      var record := BuildRecord(c, period.value, rows, j);
      results := results + [record];
    }
    result := Some(results);
  }

  /** The body of the `try` block for one column, once the period is known: the record
      started with the base fields and every indicator set to `None`, then the column's cells
      copied row by row. */
  method BuildRecord(c: Company, p: Period, rows: seq<IndicatorRow>, j: nat) returns (record: seq<Field>)
    ensures record == Record(c, p, rows, j)
  {
    IndicatorsDistinct();
    BaseNotIndicator();
    record := DefaultRecord(c, p, Indicators);
    record := FillColumn(record, rows, j, IndicatorMap, Indicators);
  }

  /** The record before any cell is copied: the base fields, then every column of `all` set to
      `None` one by one. */
  method DefaultRecord(c: Company, p: Period, all: seq<string>) returns (record: seq<Field>)
    requires forall i, j :: 0 <= i < j < |all| ==> all[i] != all[j]
    requires forall m :: 0 <= m < |BaseColumns| ==> BaseColumns[m] !in all
    ensures record == EmptyRecord(c, p, all)
  {
    record := [("company_code", VText(c.code)), ("company_name", VText(c.name)), ("year", VInt(p.year)),
               ("quarter_code", VText(p.quarterCode))];
    for k := 0 to |all|
      invariant record == EmptyRecord(c, p, all)[..|BaseColumns| + k]
    {
      DefaultIsNew(c, p, all, k);
      record := Assign(record, all[k], VNone);
    }
    assert EmptyRecord(c, p, all)[..|BaseColumns| + |all|] == EmptyRecord(c, p, all);
  }

  /** The inner loop over the rows of one column: each row's label is renamed by `mapping`, and
      when it is one of `all` the record's entry for it is set to the cell coerced to a number. */
  method FillColumn(start: seq<Field>, rows: seq<IndicatorRow>, j: nat, mapping: seq<(string, string)>, all: seq<string>)
    returns (record: seq<Field>)
    ensures record == Fill(start, Items(rows, j, mapping), all)
  {
    record := start;
    var items := Items(rows, j, mapping);
    for i := 0 to |rows|
      invariant record == Fill(start, items[..i], all)
    {
      assert items[..i + 1][..i] == items[..i];
      var indicator := RenameColumn(rows[i].title, mapping);
      if indicator in all {
        record := Assign(record, indicator, ToNumeric(CellAt(rows[i], j)));
      }
    }
    assert items[..|rows|] == items;
  }

  /** Setting the `k`-th column of `all` to `None` appends it, when the columns are distinct
      and none is a base key: no earlier key has its name. */
  lemma DefaultIsNew(c: Company, p: Period, all: seq<string>, k: int)
    requires 0 <= k < |all|
    requires forall i, j :: 0 <= i < j < |all| ==> all[i] != all[j]
    requires forall m :: 0 <= m < |BaseColumns| ==> BaseColumns[m] !in all
    ensures Assign(EmptyRecord(c, p, all)[..|BaseColumns| + k], all[k], VNone)
      == EmptyRecord(c, p, all)[..|BaseColumns| + k + 1]
  {
    var e := EmptyRecord(c, p, all);
    var n := |BaseColumns| + k;
    var pre := e[..n];
    forall m | 0 <= m < n
      ensures pre[m].0 != all[k]
    {
      if m < |BaseColumns| {
        assert pre[m].0 == Keys(e)[m] == BaseColumns[m];
      } else {
        assert pre[m] == (all[m - |BaseColumns|], VNone);
      }
    }
    AssignNew(pre, all[k], VNone);
    var next := e[..n + 1];
    assert forall i :: 0 <= i < n ==> next[i] == pre[i];
    assert next == pre + [(all[k], VNone)];
  }

  // ---------------------------------------------------------------- duplicate headers

  /** How many columns carry the header `h`. */
  function Count(headers: seq<string>, h: string): (n: nat)
    ensures n <= |headers|
  {
    if headers == [] then 0 else (if headers[0] == h then 1 else 0) + Count(headers[1..], h)
  }

  /** What `df[quarter_col].items()` yields as written. With a unique header, `df[quarter_col]`
      is the column and its items are the (renamed label, cell) pairs. With a repeated header
      it is a frame of all the columns carrying that header, and its items are
      `(column name, column)` pairs: the key is the header itself, and the value, a whole
      column, is not modelled (it is never read, since a header is no indicator). */
  function ItemsAsWritten(headers: seq<string>, rows: seq<IndicatorRow>, j: nat): seq<Field>
    requires j < |headers|
  {
    if Count(headers, headers[j]) == 1 then Items(rows, j, IndicatorMap)
    else seq(Count(headers, headers[j]), _ => (headers[j], VNone))
  }

  /** The record of a period column as written, filled from `ItemsAsWritten`: it has the same
      keys as the intended record, and is that record whenever the header is unique. */
  function RecordAsWritten(c: Company, p: Period, headers: seq<string>, rows: seq<IndicatorRow>, j: nat): (r: seq<Field>)
    requires j < |headers|
    ensures Keys(r) == BaseColumns + Indicators
    ensures Count(headers, headers[j]) == 1 ==> r == Record(c, p, rows, j)
  {
    FilledKeys(c, p, ItemsAsWritten(headers, rows, j));
    Fill(EmptyRecord(c, p, Indicators), ItemsAsWritten(headers, rows, j), Indicators)
  }

  /** As written, a period header that appears twice (the page's annual and quarterly columns
      for the same month) yields a record whose indicators are all `None`, whatever the cells. */
  lemma DuplicateHeaderDropsValues(c: Company, p: Period, headers: seq<string>, rows: seq<IndicatorRow>, j: nat, k: int)
    requires j < |headers| && '.' in headers[j] && Count(headers, headers[j]) >= 2
    requires 0 <= k < |Indicators|
    ensures Lookup(RecordAsWritten(c, p, headers, rows, j), Indicators[k]) == Some(VNone)
  {
    var e := EmptyRecord(c, p, Indicators);
    var items := seq(Count(headers, headers[j]), _ => (headers[j], VNone));
    assert ItemsAsWritten(headers, rows, j) == items;
    HeaderNotIndicator(headers[j], k);
    assert forall i :: 0 <= i < |items| ==> items[i].0 != Indicators[k];
    FillLookup(e, items, Indicators, Indicators[k]);
    BaseNotIndicator();
    EmptyLookup(c, p, Indicators, k);
  }

  /** A period header is never an indicator name. */
  lemma HeaderNotIndicator(header: string, k: int)
    requires '.' in header && 0 <= k < |Indicators|
    ensures header != Indicators[k]
  {
    IndicatorsHaveNoDot();
  }

  /** The page's annual and quarterly `2022.12` columns: the PER of 10 in the first of them is
      lost as written, and kept by the positional reading the model uses. */
  lemma DuplicateHeaderExample()
    ensures var headers := ["2022.12", "2022.12"];
      var rows := [IndicatorRow("PER(배)", [VReal(10.0), VReal(12.0)])];
      var c := Company("005930", "삼성전자");
      var p := Period(2022, "4");
      && Lookup(RecordAsWritten(c, p, headers, rows, 0), "per") == Some(VNone)
      && Lookup(Record(c, p, rows, 0), "per") == Some(VReal(10.0))
  {
    var headers := ["2022.12", "2022.12"];
    var rows := [IndicatorRow("PER(배)", [VReal(10.0), VReal(12.0)])];
    var c := Company("005930", "삼성전자");
    var p := Period(2022, "4");
    assert '.' in headers[0] by { assert headers[0][4] == '.'; }
    assert Count(headers, headers[0]) == 2;
    DuplicateHeaderDropsValues(c, p, headers, rows, 0, 0);
    assert RenameColumn("PER(배)", IndicatorMap) == "per";
    assert "per" in Indicators;
    RecordLastWins(c, p, rows, 0, 0);
  }
}
