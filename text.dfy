/** The string primitives the scrapers and SQL builders rely on, with Python's semantics:
    `str.strip()`, `str.replace(c, '')`, `in`, `split(c)[k]`, `", ".join(...)`, `int(...)`
    on a string and `str(n)` on an int. */
module Text {
  import opened Values

  /** Characters for which Python's `str.isspace()` holds (what `strip()` and `int()` drop). */
  predicate IsSpace(c: char)
  {
    c == ' ' || ('\t' <= c <= '\r') || ('\U{1C}' <= c <= '\U{1F}') || c == '\U{85}' || c == '\U{A0}'
    || c == '\U{1680}' || ('\U{2000}' <= c <= '\U{200A}') || c == '\U{2028}' || c == '\U{2029}'
    || c == '\U{202F}' || c == '\U{205F}' || c == '\U{3000}'
  }

  function TrimStart(s: string): (r: string)
    ensures |r| <= |s| && r == s[|s| - |r|..]
    ensures r == [] || !IsSpace(r[0])
    ensures forall i :: 0 <= i < |s| - |r| ==> IsSpace(s[i])
  {
    if |s| > 0 && IsSpace(s[0]) then TrimStart(s[1..]) else s
  }

  function TrimEnd(s: string): (r: string)
    ensures |r| <= |s| && r == s[..|r|]
    ensures r == [] || !IsSpace(r[|r| - 1])
    ensures forall i :: |r| <= i < |s| ==> IsSpace(s[i])
  {
    if |s| > 0 && IsSpace(s[|s| - 1]) then TrimEnd(s[..|s| - 1]) else s
  }

  /** `s.strip()`: the longest infix of `s` that neither starts nor ends with whitespace. */
  function Strip(s: string): (r: string)
    ensures r == [] || (!IsSpace(r[0]) && !IsSpace(r[|r| - 1]))
    ensures exists i: nat :: PaddedAt(s, r, i)
  {
    TrimmedPadded(s, TrimStart(s), TrimEnd(TrimStart(s)));
    TrimEnd(TrimStart(s))
  }

  /** Whitespace dropped from the front of `s` leaves `t`, then dropped from the back of `t`
      leaves `r`: `r` sits in `s` where the dropped front ends. */
  lemma TrimmedPadded(s: string, t: string, r: string)
    requires |t| <= |s| && t == s[|s| - |t|..] && forall k :: 0 <= k < |s| - |t| ==> IsSpace(s[k])
    requires |r| <= |t| && r == t[..|r|] && forall k :: |r| <= k < |t| ==> IsSpace(t[k])
    ensures PaddedAt(s, r, |s| - |t|)
  {
    var i := |s| - |t|;
    assert t[..|r|] == s[i..i + |r|];
    assert s[i + |r|..] == t[|r|..];
  }

  /** Every character of `u` is whitespace. */
  predicate AllSpace(u: string)
  {
    forall k :: 0 <= k < |u| ==> IsSpace(u[k])
  }

  /** `r` sits at position `i` of `s`, and everything of `s` before and after it is whitespace. */
  predicate PaddedAt(s: string, r: string, i: nat)
  {
    i + |r| <= |s| && r == s[i..i + |r|] && AllSpace(s[..i]) && AllSpace(s[i + |r|..])
  }

  lemma StripUnpadded(s: string)
    requires s == [] || (!IsSpace(s[0]) && !IsSpace(s[|s| - 1]))
    ensures Strip(s) == s
  {
  }

  /** A cell padded with whitespace on either side strips to the text inside, as the date and
      amount cells of the scraped tables do. */
  lemma StripPadded(pre: string, t: string, post: string)
    requires forall k :: 0 <= k < |pre| ==> IsSpace(pre[k])
    requires forall k :: 0 <= k < |post| ==> IsSpace(post[k])
    requires t == [] || (!IsSpace(t[0]) && !IsSpace(t[|t| - 1]))
    ensures Strip(pre + t + post) == t
  {
    var all := pre + t + post;
    if t == [] {
      assert forall k :: 0 <= k < |all| ==> IsSpace(all[k]);
      StripSpaces(all);
    } else {
      assert TrimStart(all) == t + post by {
        TrimStartSpaces(pre, t + post);
        assert all == pre + (t + post);
      }
      assert TrimEnd(t + post) == t by {
        TrimEndSpaces(t, post);
      }
    }
  }

  /** Nothing but whitespace strips to the empty string. */
  lemma StripSpaces(s: string)
    requires forall k :: 0 <= k < |s| ==> IsSpace(s[k])
    ensures Strip(s) == []
  {
    assert s + [] == s;
    TrimStartSpaces(s, []);
  }

  lemma {:induction false} TrimStartSpaces(pre: string, rest: string)
    requires forall k :: 0 <= k < |pre| ==> IsSpace(pre[k])
    requires rest == [] || !IsSpace(rest[0])
    ensures TrimStart(pre + rest) == rest
  {
    if pre == [] {
      assert pre + rest == rest;
    } else {
      assert (pre + rest)[1..] == pre[1..] + rest;
      TrimStartSpaces(pre[1..], rest);
    }
  }

  lemma {:induction false} TrimEndSpaces(t: string, post: string)
    requires forall k :: 0 <= k < |post| ==> IsSpace(post[k])
    requires t == [] || !IsSpace(t[|t| - 1])
    ensures TrimEnd(t + post) == t
  {
    if post == [] {
      assert t + post == t;
    } else {
      var init := post[..|post| - 1];
      assert (t + post)[..|t + post| - 1] == t + init;
      TrimEndSpaces(t, init);
    }
  }

  /** `s.replace(c, '')`. */
  function RemoveAll(s: string, c: char): (r: string)
    ensures |r| <= |s|
    ensures forall i :: 0 <= i < |r| ==> r[i] != c && r[i] in s
  {
    if s == [] then [] else (if s[0] == c then [] else [s[0]]) + RemoveAll(s[1..], c)
  }

  lemma {:induction false} RemoveAllAppend(a: string, b: string, c: char)
    ensures RemoveAll(a + b, c) == RemoveAll(a, c) + RemoveAll(b, c)
  {
    if a == [] {
      assert a + b == b;
    } else {
      assert (a + b)[1..] == a[1..] + b;
      RemoveAllAppend(a[1..], b, c);
    }
  }

  lemma {:induction false} RemoveAllAbsent(s: string, c: char)
    requires c !in s
    ensures RemoveAll(s, c) == s
  {
    if s != [] {
      RemoveAllAbsent(s[1..], c);
    }
  }

  /** `sub in s` for strings: `sub` occurs at some position of `s`. */
  predicate Contains(s: string, sub: string)
    decreases |s|
  {
    (|sub| <= |s| && s[..|sub|] == sub) || (|s| > 0 && Contains(s[1..], sub))
  }

  /** The first position of `c` in `s`, as `s.find(c)` would give it. */
  function IndexOf(s: string, c: char): (r: Option<nat>)
    ensures r.None? <==> c !in s
    ensures r.Some? ==> r.value < |s| && s[r.value] == c && c !in s[..r.value]
  {
    if s == [] then None
    else if s[0] == c then Some(0)
    else match IndexOf(s[1..], c)
      case None => None
      case Some(i) => assert s[1..][..i] == s[1..i + 1]; Some(i + 1)
  }

  /** `s.split(c)[0]`: everything before the first `c`. */
  function Before(s: string, c: char): (r: string)
    ensures |r| <= |s| && r == s[..|r|] && c !in r
    ensures c !in s ==> r == s
    ensures c in s ==> |r| < |s| && s[|r|] == c
  {
    match IndexOf(s, c)
    case None => s
    case Some(i) => s[..i]
  }

  /** `s.split(c)[1]`: the text between the first and the second `c`; `IndexError` when `s`
      holds no `c`. */
  function SecondPart(s: string, c: char): (r: Option<string>)
    ensures r.None? <==> c !in s
    ensures r.Some? ==> c !in r.value
    ensures r.Some? ==>
      var start := |Before(s, c)| + 1;
      && start + |r.value| <= |s| && s[start..start + |r.value|] == r.value
      && (start + |r.value| == |s| || s[start + |r.value|] == c)
  {
    match IndexOf(s, c)
    case None => None
    case Some(i) => Some(Before(s[i + 1..], c))
  }

  /** The first `c` of `a + [c] + b` is the one after `a` when `a` holds none. */
  lemma {:induction false} IndexOfAfter(a: string, c: char, b: string)
    requires c !in a
    ensures IndexOf(a + [c] + b, c) == Some(|a|)
  {
    var s := a + [c] + b;
    if a != [] {
      IndexOfAfter(a[1..], c, b);
      assert s[1..] == a[1..] + [c] + b;
    }
  }

  /** Splitting `a + [c] + b` at `c` gives `a` first, and second what of `b` comes before its
      own first `c`: all of `b` when it holds none. */
  lemma {:induction false} SplitAt(a: string, c: char, b: string)
    requires c !in a
    ensures Before(a + [c] + b, c) == a
    ensures SecondPart(a + [c] + b, c) == Some(Before(b, c))
    ensures c !in b ==> SecondPart(a + [c] + b, c) == Some(b)
  {
    var s := a + [c] + b;
    IndexOfAfter(a, c, b);
    assert s[..|a|] == a;
    assert s[|a| + 1..] == b;
  }

  // ---------------------------------------------------------------- join and its inverse

  /** `sep.join(xs)`. */
  function Join(xs: seq<string>, sep: string): string
  {
    if |xs| == 0 then "" else if |xs| == 1 then xs[0] else xs[0] + sep + Join(xs[1..], sep)
  }

  /** The first position at or after `k` where `c` occurs in `s`. */
  function IndexFrom(s: string, c: char, k: nat): (r: Option<nat>)
    requires k <= |s|
    ensures r.Some? ==> k <= r.value < |s| && s[r.value] == c
    decreases |s| - k
  {
    if k == |s| then None
    else if s[k] == c then Some(k)
    else IndexFrom(s, c, k + 1)
  }

  /** The items of `s` from position `start` on, split at each occurrence of the first
      character of `sep`, skipping the whole separator. */
  function SplitFrom(s: string, sep: string, start: nat): seq<string>
    requires |sep| > 0 && start <= |s|
    decreases |s| - start
  {
    match IndexFrom(s, sep[0], start)
    case None => [s[start..]]
    case Some(i) => [s[start..i]] + (if i + |sep| <= |s| then SplitFrom(s, sep, i + |sep|) else [])
  }

  /** Splits `s` at each occurrence of the first character of `sep`, skipping the whole
      separator; the decoder for `Join` when no item holds that character. */
  function Split(s: string, sep: string): seq<string>
    requires |sep| > 0
  {
    SplitFrom(s, sep, 0)
  }

  lemma {:induction false} IndexFromFound(s: string, c: char, k: nat, j: nat)
    requires k <= j < |s| && s[j] == c
    requires forall m :: k <= m < j ==> s[m] != c
    ensures IndexFrom(s, c, k) == Some(j)
    decreases j - k
  {
    if k < j {
      IndexFromFound(s, c, k + 1, j);
    }
  }

  lemma {:induction false} IndexFromAbsent(s: string, c: char, k: nat)
    requires k <= |s|
    requires forall m :: k <= m < |s| ==> s[m] != c
    ensures IndexFrom(s, c, k) == None
    decreases |s| - k
  {
    if k < |s| {
      IndexFromAbsent(s, c, k + 1);
    }
  }

  /** Joining a non-empty list is undone by splitting, as long as no item contains the
      separator's first character: the joined text determines its items. */
  lemma SplitJoin(xs: seq<string>, sep: string)
    requires |xs| > 0 && |sep| > 0
    requires forall k :: 0 <= k < |xs| ==> sep[0] !in xs[k]
    ensures Split(Join(xs, sep), sep) == xs
  {
    var s := Join(xs, sep);
    assert s[0..] == s;
    ItemsAtJoin(s, 0, xs, sep);
    SplitItemsAt(s, 0, xs, sep);
  }

  /** The items `xs` laid out in `s` from position `k` to its end, none holding the
      separator's first character and each but the last followed by that character and as
      many characters as the separator has. */
  predicate ItemsAt(s: string, k: nat, xs: seq<string>, sep: string)
    requires |sep| > 0
    decreases |xs|
  {
    if |xs| <= 1 then |xs| == 1 && k <= |s| && s[k..] == xs[0] && sep[0] !in xs[0]
    else
      && k + |xs[0]| + |sep| <= |s| && s[k..k + |xs[0]|] == xs[0] && sep[0] !in xs[0]
      && s[k + |xs[0]|] == sep[0] && ItemsAt(s, k + |xs[0]| + |sep|, xs[1..], sep)
  }

  /** Joined text found from position `k` of `s` to its end lays its items out there. */
  lemma {:induction false} ItemsAtJoin(s: string, k: nat, xs: seq<string>, sep: string)
    requires |xs| > 0 && |sep| > 0 && k <= |s| && s[k..] == Join(xs, sep)
    requires forall m :: 0 <= m < |xs| ==> sep[0] !in xs[m]
    ensures ItemsAt(s, k, xs, sep)
    decreases |xs|
  {
    if |xs| > 1 {
      JoinSlices(s, k, xs, sep);
      var tail := xs[1..];
      forall m | 0 <= m < |tail| ensures sep[0] !in tail[m] {
        assert tail[m] == xs[m + 1];
      }
      ItemsAtJoin(s, k + |xs[0]| + |sep|, tail, sep);
    }
  }

  /** Items laid out from position `k` are read back one by one. */
  lemma {:induction false} SplitItemsAt(s: string, k: nat, xs: seq<string>, sep: string)
    requires |sep| > 0 && ItemsAt(s, k, xs, sep)
    ensures SplitFrom(s, sep, k) == xs
    decreases |xs|
  {
    if |xs| == 1 {
      SplitFromLast(s, k, xs[0], sep);
      assert xs == [xs[0]];
    } else {
      var tail, j := xs[1..], k + |xs[0]| + |sep|;
      calc {
        SplitFrom(s, sep, k);
        { SplitFromItem(s, k, xs[0], sep, j); }
        [xs[0]] + SplitFrom(s, sep, j);
        { SplitItemsAt(s, j, tail, sep); }
        [xs[0]] + tail;
        xs;
      }
    }
  }

  /** Where several joined items start at `k`: the first item, the separator's first
      character, then the text joining the others. */
  lemma JoinSlices(s: string, k: nat, xs: seq<string>, sep: string)
    requires |xs| > 1 && |sep| > 0 && k <= |s| && s[k..] == Join(xs, sep)
    ensures k + |xs[0]| + |sep| <= |s|
    ensures s[k..k + |xs[0]|] == xs[0] && s[k + |xs[0]|] == sep[0]
    ensures s[k + |xs[0]| + |sep|..] == Join(xs[1..], sep)
  {
    var x := xs[0];
    var rest := Join(xs[1..], sep);
    var t := s[k..];
    assert t == x + sep + rest;
    assert s[k..k + |x|] == x by {
      assert t[..|x|] == x;
    }
    assert s[k + |x|] == sep[0] by {
      assert t[|x|] == sep[0];
    }
    assert s[k + |x| + |sep|..] == rest by {
      assert t[|x| + |sep|..] == rest;
    }
  }

  /** An item at position `k` free of the separator's first character, then a separator: one
      item read, and reading goes on after the separator. */
  lemma SplitFromItem(s: string, k: nat, x: string, sep: string, j: nat)
    requires |sep| > 0 && sep[0] !in x && j == k + |x| + |sep| <= |s|
    requires s[k..k + |x|] == x && s[k + |x|] == sep[0]
    ensures SplitFrom(s, sep, k) == [x] + SplitFrom(s, sep, j)
  {
    forall m | k <= m < k + |x| ensures s[m] != sep[0] {
      assert s[m] == x[m - k];
    }
    IndexFromFound(s, sep[0], k, k + |x|);
  }

  /** An item at position `k` free of the separator's first character, then the end: the last
      item read. */
  lemma SplitFromLast(s: string, k: nat, x: string, sep: string)
    requires |sep| > 0 && sep[0] !in x && k <= |s| && s[k..] == x
    ensures SplitFrom(s, sep, k) == [x]
  {
    forall m | k <= m < |s| ensures s[m] != sep[0] {
      assert s[m] == x[m - k];
    }
    IndexFromAbsent(s, sep[0], k);
  }

  // ---------------------------------------------------------------- decimal integers

  predicate IsDigit(c: char)
  {
    '0' <= c <= '9'
  }

  predicate AllDigits(s: string)
  {
    forall i :: 0 <= i < |s| ==> IsDigit(s[i])
  }

  function DigitChar(d: nat): (c: char)
    requires d < 10
    ensures IsDigit(c)
  {
    ('0' as int + d) as char
  }

  /** The number a string of ASCII digits denotes, most significant first. */
  function DigitsValue(s: string): nat
    requires AllDigits(s)
  {
    if s == [] then 0 else DigitsValue(s[..|s| - 1]) * 10 + (s[|s| - 1] as int - '0' as int)
  }

  /** `str(n)` for a non-negative int: no leading zeros, at least one digit. */
  function ShowNat(n: nat): (r: string)
    ensures |r| > 0 && AllDigits(r)
    ensures |r| > 1 ==> r[0] != '0'
  {
    if n < 10 then [DigitChar(n)] else ShowNat(n / 10) + [DigitChar(n % 10)]
  }

  /** `str(i)` for any int. */
  function ShowInt(i: int): string
  {
    if i < 0 then "-" + ShowNat(-i) else ShowNat(i)
  }

  lemma {:induction false} DigitsValueShowNat(n: nat)
    ensures DigitsValue(ShowNat(n)) == n
  {
    if n >= 10 {
      var s := ShowNat(n);
      assert s[..|s| - 1] == ShowNat(n / 10);
      DigitsValueShowNat(n / 10);
    }
  }

  /** The digits of an int literal as `int()` accepts them: ASCII digits, optionally grouped
      by single underscores that neither start nor end the text. */
  predicate DigitGroups(s: string)
    decreases |s|
  {
    && |s| > 0 && IsDigit(s[0])
    && (|s| == 1 || (if s[1] == '_' then DigitGroups(s[2..]) else DigitGroups(s[1..])))
  }

  /** With the underscores removed, a well-formed literal is all digits. */
  lemma {:induction false} GroupsDigits(s: string)
    requires DigitGroups(s)
    ensures AllDigits(RemoveAll(s, '_'))
    decreases |s|
  {
    if |s| > 1 {
      if s[1] == '_' {
        GroupsDigits(s[2..]);
        assert s[1..][1..] == s[2..];
      } else {
        GroupsDigits(s[1..]);
      }
    }
  }

  /** A non-empty run of digits is a well-formed literal. */
  lemma {:induction false} DigitsAreGroups(s: string)
    requires |s| > 0 && AllDigits(s)
    ensures DigitGroups(s)
    decreases |s|
  {
    if |s| > 1 {
      DigitsAreGroups(s[1..]);
    }
  }

  function GroupsValue(s: string): nat
    requires DigitGroups(s)
  {
    GroupsDigits(s);
    DigitsValue(RemoveAll(s, '_'))
  }

  /** Python's `int(s)` on a str: surrounding whitespace is ignored, then an optional sign and
      the digits; anything else raises `ValueError` (here `None`). */
  function PyInt(s: string): (r: Option<int>)
    ensures Strip(s) == [] ==> r.None?
    ensures r.Some? && r.value < 0 ==> Strip(s)[0] == '-'
  {
    var t := Strip(s);
    if |t| > 0 && (t[0] == '+' || t[0] == '-') then
      if DigitGroups(t[1..]) then
        var v: int := GroupsValue(t[1..]);
        Some(if t[0] == '-' then -v else v)
      else None
    else if DigitGroups(t) then Some(GroupsValue(t))
    else None
  }

  lemma ShowNatValue(n: nat)
    ensures DigitGroups(ShowNat(n)) && GroupsValue(ShowNat(n)) == n
  {
    DigitsAreGroups(ShowNat(n));
    RemoveAllAbsent(ShowNat(n), '_');
    DigitsValueShowNat(n);
  }

  /** Unpadded digits without a sign are read as their value. */
  lemma PyIntUnsigned(s: string)
    requires Strip(s) == s && DigitGroups(s)
    ensures PyInt(s) == Some(GroupsValue(s))
  {
    assert IsDigit(s[0]);
  }

  /** `int(str(n)) == n` for a non-negative int. */
  lemma PyIntShowNat(n: nat)
    ensures PyInt(ShowNat(n)) == Some(n)
  {
    var s := ShowNat(n);
    assert IsDigit(s[0]) && IsDigit(s[|s| - 1]);
    StripUnpadded(s);
    ShowNatValue(n);
    PyIntUnsigned(s);
  }

  /** `int(str(-n)) == -n`: the minus sign, then the digits of `n`. */
  lemma PyIntShowNegative(n: nat)
    ensures PyInt("-" + ShowNat(n)) == Some(-(n as int))
  {
    var digits := ShowNat(n);
    var s := "-" + digits;
    assert IsDigit(digits[|digits| - 1]);
    assert s[|s| - 1] == digits[|digits| - 1];
    StripUnpadded(s);
    assert s[1..] == digits;
    ShowNatValue(n);
    PyIntMinus(s, n);
  }

  /** Unpadded digits of value `v` after a minus sign are read as `-v`. */
  lemma PyIntMinus(s: string, v: nat)
    requires Strip(s) == s && |s| > 0 && s[0] == '-' && DigitGroups(s[1..]) && GroupsValue(s[1..]) == v
    ensures PyInt(s) == Some(-(v as int))
  {
  }

  /** `int(str(i)) == i`: the parser reads back every rendering of an int. */
  lemma PyIntShowInt(i: int)
    ensures PyInt(ShowInt(i)) == Some(i)
  {
    if i < 0 {
      var n: nat := -i;
      assert ShowInt(i) == "-" + ShowNat(n);
      PyIntShowNegative(n);
    } else {
      PyIntShowNat(i);
    }
  }

  // ---------------------------------------------------------------- thousands separators

  function Pad3(k: nat): (r: string)
    requires k < 1000
    ensures |r| == 3 && AllDigits(r)
  {
    [DigitChar(k / 100), DigitChar(k / 10 % 10), DigitChar(k % 10)]
  }

  /** A non-negative amount written with a `,` between groups of three digits, as the
      scraped pages print it (`1,234,567`). */
  function Grouped(n: nat): string
  {
    if n < 1000 then ShowNat(n) else Grouped(n / 1000) + "," + Pad3(n % 1000)
  }

  /** A signed amount written with thousands separators (`-1,234`). */
  function SignedGrouped(i: int): string
  {
    if i < 0 then "-" + Grouped(-i) else Grouped(i)
  }

  /** `str(n)` of an amount of four digits or more is the rendering of its thousands followed
      by its last three digits. */
  lemma ShowNatThousands(n: nat)
    requires n >= 1000
    ensures ShowNat(n) == ShowNat(n / 1000) + Pad3(n % 1000)
  {
    var m1 := n / 10;
    var m2 := m1 / 10;
    ThousandsDigits(n);
    assert ShowNat(n) == ShowNat(m1) + [DigitChar(n % 10)];
    assert ShowNat(m1) == ShowNat(m2) + [DigitChar(m1 % 10)];
    assert ShowNat(m2) == ShowNat(n / 1000) + [DigitChar(m2 % 10)];
    assert Pad3(n % 1000) == [DigitChar(m2 % 10)] + [DigitChar(m1 % 10)] + [DigitChar(n % 10)];
  }

  /** The digits of `n % 1000` are the last three digits of `n`. */
  lemma ThousandsDigits(n: nat)
    ensures n / 10 / 10 / 10 == n / 1000
    ensures n % 1000 / 100 == n / 10 / 10 % 10
    ensures n % 1000 / 10 % 10 == n / 10 % 10
    ensures n % 1000 % 10 == n % 10
  {
    var q, r := n / 1000, n % 1000;
    var a, b, c := r / 100, r / 10 % 10, r % 10;
    DivTen(r, r / 10, c);
    DivTen(r / 10, a, b);
    DivTen(n, 100 * q + 10 * a + b, c);
    DivTen(n / 10, 10 * q + a, b);
    DivTen(n / 10 / 10, q, a);
  }

  /** `x` is `y` tens and `d` units exactly when `x / 10 == y` and `x % 10 == d`. */
  lemma DivTen(x: int, y: int, d: int)
    requires x == 10 * y + d && 0 <= d < 10
    ensures x / 10 == y && x % 10 == d
  {
  }

  /** Removing the separators from a grouped amount leaves its plain decimal rendering. */
  lemma {:induction false} RemoveCommasGrouped(n: nat)
    ensures RemoveAll(Grouped(n), ',') == ShowNat(n)
  {
    if n < 1000 {
      RemoveAllAbsent(ShowNat(n), ',');
    } else {
      RemoveCommasGrouped(n / 1000);
      RemoveAllAppend(Grouped(n / 1000) + ",", Pad3(n % 1000), ',');
      RemoveAllAppend(Grouped(n / 1000), ",", ',');
      RemoveAllAbsent(Pad3(n % 1000), ',');
      ShowNatThousands(n);
    }
  }

  /** The scrapers' `int(text.strip().replace(',', ''))` reads back any amount printed with
      thousands separators, negative ones included. */
  lemma ParseGroupedAmount(i: int)
    ensures PyInt(RemoveAll(Strip(SignedGrouped(i)), ',')) == Some(i)
  {
    var n: nat := if i < 0 then -i else i;
    RemoveCommasGrouped(n);
    GroupedEnds(n);
    StripUnpadded(SignedGrouped(i));
    if i < 0 {
      RemoveAllAppend("-", Grouped(n), ',');
    }
    PyIntShowInt(i);
  }

  lemma {:induction false} GroupedEnds(n: nat)
    ensures |Grouped(n)| > 0 && IsDigit(Grouped(n)[0]) && IsDigit(Grouped(n)[|Grouped(n)| - 1])
  {
    if n >= 1000 {
      GroupedEnds(n / 1000);
    }
  }

  // ---------------------------------------------------------------- numbers in cells

  /** A digit string holds neither `.` nor `(`. */
  lemma DigitsHaveNoMarks(s: string)
    requires AllDigits(s)
    ensures '.' !in s && '(' !in s
  {
    forall i | 0 <= i < |s|
      ensures s[i] != '.' && s[i] != '('
    {
      assert IsDigit(s[i]);
    }
  }

  /** `to_numeric(value, errors='coerce')` on one cell: numbers are kept, text that spells an
      integer or a decimal fraction becomes that number, everything else NaN. */
  function ToNumeric(v: Value): (r: Value)
    ensures r.VInt? || r.VReal? || r.VNaN?
    ensures v.VInt? || v.VReal? ==> r == v
  {
    match v
    case VInt(_) => v
    case VReal(_) => v
    case VText(s) => NumericText(s)
    case _ => VNaN
  }

  function Pow10(n: nat): (p: nat)
    ensures p >= 1
  {
    if n == 0 then 1 else 10 * Pow10(n - 1)
  }

  /** An optional sign, then digits with at most one `.`, at least one digit in all. */
  function NumericText(s: string): Value
  {
    var negative := |s| > 0 && s[0] == '-';
    var body := if |s| > 0 && (s[0] == '-' || s[0] == '+') then s[1..] else s;
    match IndexOf(body, '.')
    case None =>
      if |body| > 0 && AllDigits(body) then
        var n: int := DigitsValue(body); VInt(if negative then -n else n)
      else VNaN
    case Some(i) =>
      var whole := body[..i];
      var fraction := body[i + 1..];
      if AllDigits(whole) && AllDigits(fraction) && |whole| + |fraction| > 0 then
        var x := DigitsValue(whole) as real + DigitsValue(fraction) as real / Pow10(|fraction|) as real;
        VReal(if negative then -x else x)
      else VNaN
  }

  /** Every integer as `str()` prints it is read back. */
  lemma NumericShowInt(i: int)
    ensures ToNumeric(VText(ShowInt(i))) == VInt(i)
  {
    var s := ShowInt(i);
    var n: nat := if i < 0 then -i else i;
    var digits := ShowNat(n);
    DigitsHaveNoMarks(digits);
    DigitsValueShowNat(n);
    assert IsDigit(digits[0]);
    if i < 0 {
      assert s[0] == '-' && s[1..] == digits;
    } else {
      assert s == digits;
    }
    assert IndexOf(digits, '.') == None;
  }

  /** The dash the page prints for a missing figure, and an empty cell, are NaN, not errors. */
  lemma NumericDash()
    ensures ToNumeric(VText("-")) == VNaN && ToNumeric(VText("")) == VNaN
  {
    assert IndexOf("", '.') == None;
  }
}
