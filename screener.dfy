/** `screener.py`: the growth-acceleration screen. `get_acceleration_data` takes the annual
    sales row of a company's consensus table, reads its last four figures (the years 2024 to
    2027) and flags the company when the yearly growth rate rises each year and starts
    positive. `get_realtime_encparam` pulls the page token the table request needs out of a
    page's text. The page and the table are given; the arithmetic is numpy's float
    arithmetic, with its infinities and NaN, over exact reals. */
module Screener {
  import opened Values
  import opened Text

  // ---------------------------------------------------------------- the token

  predicate IsQuote(c: char)
  {
    c == '\'' || c == '"'
  }

  /** The first position at or after `i` that is not whitespace (`\s*`). */
  function SkipSpaces(s: string, i: nat): (j: nat)
    requires i <= |s|
    ensures i <= j <= |s| && (j == |s| || !IsSpace(s[j]))
    ensures forall k :: i <= k < j ==> IsSpace(s[k])
    decreases |s| - i
  {
    if i < |s| && IsSpace(s[i]) then SkipSpaces(s, i + 1) else i
  }

  /** The end of the run of quote-free characters starting at `i` (`[^'"]*`). */
  function QuoteFreeEnd(s: string, i: nat): (j: nat)
    requires i <= |s|
    ensures i <= j <= |s| && (j == |s| || IsQuote(s[j]))
    ensures forall k :: i <= k < j ==> !IsQuote(s[k])
    decreases |s| - i
  {
    if i < |s| && !IsQuote(s[i]) then QuoteFreeEnd(s, i + 1) else i
  }

  /** The pattern `encparam\s*:\s*['"]([^'"]+)['"]` tried at position `p`: the captured
      group when it matches there. The greedy group stops at the first quote, and a shorter
      group could only be followed by a character that is no quote, so no other split of the
      text can match. */
  function MatchAt(s: string, p: nat): (r: Option<string>)
    requires p <= |s|
    ensures r.Some? ==> |r.value| > 0 && forall k :: 0 <= k < |r.value| ==> !IsQuote(r.value[k])
  {
    if p + 8 <= |s| && s[p..p + 8] == "encparam" then
      var colon := SkipSpaces(s, p + 8);
      if colon < |s| && s[colon] == ':' then
        var open := SkipSpaces(s, colon + 1);
        if open < |s| && IsQuote(s[open]) then
          var close := QuoteFreeEnd(s, open + 1);
          if open + 1 < close < |s| then Some(s[open + 1..close]) else None
        else None
      else None
    else None
  }

  /** The first position from `p` to `last` that satisfies `ok`, the way `re.search` tries
      the start positions in order; `None` when there is none. */
  function First(p: nat, last: nat, ok: nat -> bool): (r: Option<nat>)
    ensures r.Some? ==> p <= r.value <= last && ok(r.value)
    ensures r.Some? ==> forall q :: p <= q < r.value ==> !ok(q)
    ensures r.None? ==> forall q :: p <= q <= last ==> !ok(q)
    decreases last - p
  {
    if p > last then None
    else if ok(p) then Some(p)
    else First(p + 1, last, ok)
  }

  /** The start positions where the pattern matches. */
  function MatchesAt(page: string): nat -> bool
  {
    (q: nat) => q <= |page| && MatchAt(page, q).Some?
  }

  /** `get_realtime_encparam`, given the page text: `match.group(1)` of the leftmost match,
      or `None` when nothing matches. */
  function Encparam(page: string): (r: Option<string>)
    ensures r.Some? ==> |r.value| > 0 && forall k :: 0 <= k < |r.value| ==> !IsQuote(r.value[k])
  {
    match First(0, |page|, MatchesAt(page))
    case None => None
    case Some(p) => MatchAt(page, p)
  }

  /** The token is that of the leftmost position where the pattern matches, and there is
      none exactly when it matches nowhere. */
  lemma EncparamLeftmost(page: string, p: nat)
    requires p <= |page| && forall q :: 0 <= q < p ==> MatchAt(page, q).None?
    ensures Encparam(page) == MatchAt(page, p) || MatchAt(page, p).None?
    ensures (forall q :: 0 <= q <= |page| ==> MatchAt(page, q).None?) <==> Encparam(page).None?
  {
    var ok := MatchesAt(page);
    var r := First(0, |page|, ok);
    if r.Some? {
      assert ok(r.value);
      if MatchAt(page, p).Some? {
        assert ok(p);
        assert r.value == p;
      }
    } else {
      forall q | 0 <= q <= |page| ensures MatchAt(page, q).None? {
        assert !ok(q);
      }
    }
  }

  /** A page that starts with the assignment `encparam: '<token>'` yields that token,
      whatever follows it. */
  lemma EncparamAtStart(token: string, rest: string)
    requires |token| > 0 && forall k :: 0 <= k < |token| ==> !IsQuote(token[k])
    ensures Encparam("encparam: '" + token + "'" + rest) == Some(token)
  {
    var s := "encparam: '" + token + "'" + rest;
    assert s[..8] == "encparam";
    assert s[8] == ':' && s[9] == ' ' && s[10] == '\'';
    assert IsSpace(s[9]);
    assert SkipSpaces(s, 8) == 8;
    assert SkipSpaces(s, 10) == 10;
    assert forall k :: 0 <= k < |token| ==> s[11 + k] == token[k];
    assert s[11 + |token|] == '\'';
    assert QuoteFreeEnd(s, 11) == 11 + |token| by {
      QuoteFreeRun(s, 11, 11 + |token|);
    }
    assert s[11..11 + |token|] == token;
    assert MatchAt(s, 0) == Some(token);
    EncparamLeftmost(s, 0);
  }

  /** A run of quote-free characters ended by a quote is what `QuoteFreeEnd` finds. */
  lemma {:induction false} QuoteFreeRun(s: string, i: nat, j: nat)
    requires i <= j < |s| && IsQuote(s[j])
    requires forall k :: i <= k < j ==> !IsQuote(s[k])
    ensures QuoteFreeEnd(s, i) == j
    decreases j - i
  {
    if i < j {
      QuoteFreeRun(s, i + 1, j);
    }
  }

  // ---------------------------------------------------------------- float arithmetic

  /** A float64 value: a finite number (held exactly), an infinity or NaN. */
  datatype Float = Finite(x: real) | PosInf | NegInf | NaN

  /** numpy's `a / b`: a zero divisor gives an infinity of the dividend's sign, or NaN for
      `0 / 0`. */
  function Quotient(a: real, b: real): (q: Float)
    ensures b != 0.0 <==> q.Finite?
  {
    if b != 0.0 then Finite(a / b)
    else if a > 0.0 then PosInf
    else if a < 0.0 then NegInf
    else NaN
  }

  /** IEEE `x > y`: false whenever either side is NaN. */
  predicate Above(x: Float, y: Float)
  {
    match (x, y)
    case (NaN, _) => false
    case (_, NaN) => false
    case (PosInf, PosInf) => false
    case (PosInf, _) => true
    case (NegInf, _) => false
    case (Finite(_), NegInf) => true
    case (Finite(_), PosInf) => false
    case (Finite(a), Finite(b)) => a > b
  }

  /** The growth rate from one year's sales to the next, `(after - before) / before`. */
  function Growth(before: real, after: real): Float
  {
    Quotient(after - before, before)
  }

  /** `g27 > g26 > g25 > 0` on the four yearly sales figures. */
  predicate Accelerating(s24: real, s25: real, s26: real, s27: real)
  {
    var g25, g26, g27 := Growth(s24, s25), Growth(s25, s26), Growth(s26, s27);
    Above(g27, g26) && Above(g26, g25) && Above(g25, Finite(0.0))
  }

  /** The screen in plain arithmetic: a company is flagged exactly when no year's sales are
      zero and the three growth rates are positive and strictly increasing. A zero year
      never flags: its infinite or NaN rate fails one of the comparisons. */
  lemma AcceleratingMeaning(s24: real, s25: real, s26: real, s27: real)
    ensures Accelerating(s24, s25, s26, s27) <==>
      s24 != 0.0 && s25 != 0.0 && s26 != 0.0 &&
      (s27 - s26) / s26 > (s26 - s25) / s25 > (s25 - s24) / s24 > 0.0
  {
    if s25 == 0.0 && s24 != 0.0 {
      MinusOne(s24);
    }
    if s26 == 0.0 && s25 != 0.0 {
      MinusOne(s25);
    }
  }

  /** Sales that fall to zero shrink by exactly 100%. */
  lemma MinusOne(a: real)
    requires a != 0.0
    ensures (0.0 - a) / a == -1.0
  {
    assert 0.0 - a == -1.0 * a;
  }

  /** Sales of 100, 110, 125 and 145 grow by 10%, 13.6% and 16%: flagged. */
  lemma AcceleratingExample()
    ensures Accelerating(100.0, 110.0, 125.0, 145.0)
  {
    AcceleratingMeaning(100.0, 110.0, 125.0, 145.0);
  }

  /** Sales of 100, 120, 130 and 140 grow by 20%, 8.3% and 7.7%: not flagged. */
  lemma DeceleratingExample()
    ensures !Accelerating(100.0, 120.0, 130.0, 140.0)
  {
    AcceleratingMeaning(100.0, 120.0, 130.0, 140.0);
  }

  // ---------------------------------------------------------------- the screen

  datatype Company = Company(code: string, name: string)

  /** A row of the consensus table after `set_index`: its label and its cells as text
      (`astype(str)`). */
  datatype SalesRow = SalesRow(title: string, cells: seq<string>)

  /** The annual table, or `PageFailed` where the request, the parse or the table lookup
      raised. */
  datatype SalesPage = PageFailed | Table(rows: seq<SalesRow>)

  /** The returned dict: `종목명` and the three growth rates in percent. */
  datatype Acceleration = Acceleration(name: string, growth25: real, growth26: real, growth27: real)

  /** `df.loc[df.index.str.contains('매출액')]`, then `.values[0]`: the first row whose label
      contains `매출액`; `None` where there is none (`IndexError`). */
  function FirstSalesRow(rows: seq<SalesRow>): (r: Option<SalesRow>)
    ensures r.None? <==> forall i :: 0 <= i < |rows| ==> !Contains(rows[i].title, "매출액")
    ensures r.Some? ==> exists i :: (0 <= i < |rows| && rows[i] == r.value &&
      Contains(rows[i].title, "매출액") &&
      forall m :: 0 <= m < i ==> !Contains(rows[m].title, "매출액"))
  {
    if rows == [] then None
    else if Contains(rows[0].title, "매출액") then Some(rows[0])
    else
      var r := FirstSalesRow(rows[1..]);
      assert r.Some? ==> exists i :: (0 <= i < |rows| - 1 && rows[1..][i] == r.value &&
        Contains(rows[1..][i].title, "매출액") &&
        forall m :: 0 <= m < i ==> !Contains(rows[1..][m].title, "매출액"));
      r
  }

  /** `iloc[:, -4:]`: the last four cells, or all of them when there are fewer. */
  function LastFour(cells: seq<string>): (r: seq<string>)
    ensures |r| == (if |cells| < 4 then |cells| else 4)
    ensures r == cells[|cells| - |r|..]
  {
    if |cells| < 4 then cells else cells[|cells| - 4..]
  }

  /** `to_numeric(cell.str.replace(',', ''), errors='coerce')` as a float; `None` for NaN. */
  function CellNumber(cell: string): Option<real>
  {
    match NumericText(RemoveAll(cell, ','))
    case VInt(i) => Some(i as real)
    case VReal(x) => Some(x)
    case _ => None
  }

  /** The cells as numbers, or `None` when one of them is NaN (`np.isnan(vals).any()`). */
  function Figures(cells: seq<string>): (r: Option<seq<real>>)
    ensures r.None? <==> exists i :: 0 <= i < |cells| && CellNumber(cells[i]).None?
    ensures r.Some? ==> |r.value| == |cells| && forall i :: 0 <= i < |cells| ==> CellNumber(cells[i]) == Some(r.value[i])
  {
    if cells == [] then Some([])
    else match (CellNumber(cells[0]), Figures(cells[1..]))
      case (Some(x), Some(rest)) => Some([x] + rest)
      case (None, _) => None
      case (_, None) => assert forall i :: 0 <= i < |cells| - 1 ==> cells[1..][i] == cells[i + 1]; None
  }

  /** The last four sales figures of the table's sales row; `None` where the table is
      missing, no row is a sales row, or one of the figures is NaN. */
  function SalesFigures(page: SalesPage): Option<seq<real>>
  {
    if page.PageFailed? then None
    else match FirstSalesRow(page.rows)
      case None => None
      case Some(row) => Figures(LastFour(row.cells))
  }

  /** `get_acceleration_data`, given the table: `None` when there are no sales figures, when
      there are fewer than four (the unpacking raises), or when growth does not accelerate;
      otherwise the company's name and the three rates times 100. */
  function GetAccelerationData(company: Company, page: SalesPage): (r: Option<Acceleration>)
    ensures r.Some? ==> SalesFigures(page).Some? && |SalesFigures(page).value| == 4
    ensures r.Some? ==> r.value.name == company.name
    ensures r.Some? ==> r.value.growth27 > r.value.growth26 > r.value.growth25 > 0.0
  {
    match SalesFigures(page)
    case None => None
    case Some(s) =>
      if |s| != 4 then None
      else if Accelerating(s[0], s[1], s[2], s[3]) then
        AcceleratingMeaning(s[0], s[1], s[2], s[3]);
        Some(Acceleration(company.name, (s[1] - s[0]) / s[0] * 100.0, (s[2] - s[1]) / s[1] * 100.0, (s[3] - s[2]) / s[2] * 100.0))
      else None
  }

  /** What a flagged company's figures mean: the table has four sales figures with no zero
      among the first three, the reported rates are their growth in percent, positive and
      strictly increasing, and the name is the company's. */
  lemma FlaggedMeaning(company: Company, page: SalesPage)
    requires GetAccelerationData(company, page).Some?
    ensures SalesFigures(page).Some? && |SalesFigures(page).value| == 4
    ensures var a, s := GetAccelerationData(company, page).value, SalesFigures(page).value;
      && s[0] != 0.0 && s[1] != 0.0 && s[2] != 0.0
      && a.name == company.name
      && a.growth25 == (s[1] - s[0]) / s[0] * 100.0
      && a.growth26 == (s[2] - s[1]) / s[1] * 100.0
      && a.growth27 == (s[3] - s[2]) / s[2] * 100.0
      && a.growth27 > a.growth26 > a.growth25 > 0.0
  {
    var s := SalesFigures(page).value;
    AcceleratingMeaning(s[0], s[1], s[2], s[3]);
  }

  /** Four figures whose growth accelerates are always reported. */
  lemma AcceleratingFlagged(company: Company, page: SalesPage)
    requires SalesFigures(page).Some? && |SalesFigures(page).value| == 4
    requires var s := SalesFigures(page).value;
      s[0] != 0.0 && s[1] != 0.0 && s[2] != 0.0 &&
      (s[3] - s[2]) / s[2] > (s[2] - s[1]) / s[1] > (s[1] - s[0]) / s[0] > 0.0
    ensures GetAccelerationData(company, page).Some?
  {
    var s := SalesFigures(page).value;
    AcceleratingMeaning(s[0], s[1], s[2], s[3]);
  }

  /** A sales row with fewer than four cells, or with a cell among its last four that does
      not read as a number, never gives a result. */
  lemma RejectedRows(company: Company, page: SalesPage)
    requires page.Table? && FirstSalesRow(page.rows).Some?
    requires var cells := LastFour(FirstSalesRow(page.rows).value.cells);
      |cells| < 4 || exists i :: 0 <= i < |cells| && CellNumber(cells[i]).None?
    ensures GetAccelerationData(company, page) == None
  {
  }
}
