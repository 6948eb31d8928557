/** What the two candle loaders (`update_stock_day_candles.py` and `get_day_candle_data.py`)
    have in common: the companies they read from `stock_info`, the OHLCV rows pykrx returns for
    one company, the column renaming of the final frame, and the choice of columns by name. */
module Candles {
  import opened Values

  /** One `{"company_code": ..., "company_name": ...}` entry of the company list. */
  datatype Company = Company(code: string, name: string)

  /** One row of `stock.get_market_ohlcv(from, to, code, 'd')`: its `날짜` index and the
      price and volume columns. */
  datatype OhlcvRow = OhlcvRow(date: string, open: int, high: int, low: int, close: int, volume: int)

  /** What the OHLCV request for one company gave: its rows, or an exception. */
  datatype OhlcvFetch = OhlcvFailed | Ohlcv(rows: seq<OhlcvRow>)

  /** `df[wanted]` succeeds exactly when every wanted column is a column of the frame; it
      raises `KeyError` otherwise. */
  predicate Selectable(cols: seq<string>, wanted: seq<string>)
  {
    forall k :: 0 <= k < |wanted| ==> wanted[k] in cols
  }

  /** The loaders' `for company in company_list` loop, with what the `try` block yields for
      each company given as `rowsOf` (`[]` for a company that is skipped): the rows of every
      company, company after company, in list order. */
  function Collected<R>(companies: seq<Company>, rowsOf: Company -> seq<R>): seq<R>
  {
    if companies == [] then []
    else Collected(companies[..|companies| - 1], rowsOf) + rowsOf(companies[|companies| - 1])
  }

  /** The company loop: each company's rows are appended after those of the companies before
      it. */
  method CollectRows<R>(companies: seq<Company>, rowsOf: Company -> seq<R>) returns (rows: seq<R>)
    ensures rows == Collected(companies, rowsOf)
  {
    rows := [];
    for i := 0 to |companies|
      invariant rows == Collected(companies[..i], rowsOf)
    {
      var company := companies[i];
      var found := rowsOf(company);
      assert companies[..i + 1][..i] == companies[..i];
      rows := rows + found;
    }
    assert companies[..|companies|] == companies;
  }

  /** A company's rows do not depend on the companies before or after it: the rows of two
      lists run one after the other are the rows of the first followed by those of the second,
      so a skipped company leaves the others' rows as they are. */
  lemma {:induction false} CollectedAppend<R>(a: seq<Company>, b: seq<Company>, rowsOf: Company -> seq<R>)
    ensures Collected(a + b, rowsOf) == Collected(a, rowsOf) + Collected(b, rowsOf)
    decreases |b|
  {
    if b != [] {
      var init := b[..|b| - 1];
      CollectedAppend(a, init, rowsOf);
      assert (a + b)[..|a + b| - 1] == a + init;
      assert (a + b)[|a + b| - 1] == b[|b| - 1];
    } else {
      assert a + b == a;
    }
  }

  /** The loop collects nothing exactly when every company is skipped. */
  lemma {:induction false} CollectedEmpty<R>(companies: seq<Company>, rowsOf: Company -> seq<R>)
    ensures Collected(companies, rowsOf) == [] <==> forall j :: 0 <= j < |companies| ==> rowsOf(companies[j]) == []
  {
    if companies != [] {
      var init := companies[..|companies| - 1];
      CollectedEmpty(init, rowsOf);
      assert forall j :: 0 <= j < |init| ==> init[j] == companies[j];
    }
  }

  /** Whatever holds of every row of every company holds of every row collected. */
  lemma {:induction false} CollectedEach<R>(companies: seq<Company>, rowsOf: Company -> seq<R>, ok: (Company, R) -> bool)
    requires forall j, r :: 0 <= j < |companies| && r in rowsOf(companies[j]) ==> ok(companies[j], r)
    ensures forall k :: 0 <= k < |Collected(companies, rowsOf)| ==>
      exists j :: 0 <= j < |companies| && ok(companies[j], Collected(companies, rowsOf)[k])
  {
    if companies != [] {
      var n := |companies| - 1;
      var init := companies[..n];
      assert forall j :: 0 <= j < |init| ==> init[j] == companies[j];
      CollectedEach(init, rowsOf, ok);
      var front := Collected(init, rowsOf);
      var all := Collected(companies, rowsOf);
      assert all == front + rowsOf(companies[n]);
      forall k | 0 <= k < |all| ensures exists j :: 0 <= j < |companies| && ok(companies[j], all[k]) {
        if k < |front| {
          assert all[k] == front[k];
          var j :| 0 <= j < |init| && ok(init[j], front[k]);
          assert ok(companies[j], all[k]);
        } else {
          assert all[k] == rowsOf(companies[n])[k - |front|];
          assert ok(companies[n], all[k]);
        }
      }
    } else {
      assert Collected(companies, rowsOf) == [];
    }
  }
}
