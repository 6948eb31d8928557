/** The `INSERT ... ON CONFLICT ... DO UPDATE SET ...` text every loader builds before handing
    its records to `execute_batch`. Each loader repeats the same comprehensions: the column list
    `", ".join(f'"{col}"' ...)`, the placeholders `", ".join(f"%({col})s" ...)`, the SET items
    `f'"{col}" = EXCLUDED."{col}"'` and, for the candle tables, an appended
    `updated_at = CURRENT_TIMESTAMP`. */
module Upsert {
  import opened Values
  import opened Text

  function Quote(c: string): string
  {
    "\"" + c + "\""
  }

  function Placeholder(c: string): string
  {
    "%(" + c + ")s"
  }

  function SetItem(c: string): string
  {
    Quote(c) + " = EXCLUDED." + Quote(c)
  }

  const Touch := "updated_at = CURRENT_TIMESTAMP"

  function Quoted(cols: seq<string>): (r: seq<string>)
    ensures |r| == |cols| && forall i :: 0 <= i < |cols| ==> r[i] == Quote(cols[i])
  {
    seq(|cols|, i requires 0 <= i < |cols| => Quote(cols[i]))
  }

  function Placeholders(cols: seq<string>): (r: seq<string>)
    ensures |r| == |cols| && forall i :: 0 <= i < |cols| ==> r[i] == Placeholder(cols[i])
  {
    seq(|cols|, i requires 0 <= i < |cols| => Placeholder(cols[i]))
  }

  function SetItems(cols: seq<string>): (r: seq<string>)
    ensures |r| == |cols| && forall i :: 0 <= i < |cols| ==> r[i] == SetItem(cols[i])
  {
    seq(|cols|, i requires 0 <= i < |cols| => SetItem(cols[i]))
  }

  /** `[col for col in columns if col not in keys]`. */
  function NonKey(cols: seq<string>, keys: seq<string>): (r: seq<string>)
    ensures |r| <= |cols|
  {
    if cols == [] then []
    else (if cols[0] in keys then [] else [cols[0]]) + NonKey(cols[1..], keys)
  }

  /** `a` is `b` with some elements dropped: the relative order of what is kept is unchanged. */
  predicate Subsequence<T(==)>(a: seq<T>, b: seq<T>)
    decreases |b|
  {
    if a == [] then true
    else if b == [] then false
    else if a[0] == b[0] then Subsequence(a[1..], b[1..])
    else Subsequence(a, b[1..])
  }

  /** The SET list holds exactly the columns that are not conflict keys, in column order. */
  lemma {:induction false} NonKeyExactly(cols: seq<string>, keys: seq<string>)
    ensures forall c :: c in NonKey(cols, keys) <==> c in cols && c !in keys
    ensures Subsequence(NonKey(cols, keys), cols)
  {
    if cols != [] {
      NonKeyExactly(cols[1..], keys);
      var rest := NonKey(cols[1..], keys);
      assert cols == [cols[0]] + cols[1..];
      if cols[0] in keys {
        assert NonKey(cols, keys) == rest;
        SubsequenceOfTail(rest, cols);
      } else {
        assert NonKey(cols, keys) == [cols[0]] + rest;
        assert (NonKey(cols, keys))[1..] == rest;
      }
    }
  }

  lemma SubsequenceOfTail<T>(a: seq<T>, b: seq<T>)
    requires b != [] && Subsequence(a, b[1..])
    ensures Subsequence(a, b)
    decreases |b|, 0
  {
    if a != [] && a[0] == b[0] {
      SubsequenceDropHead(a, b[1..]);
    }
  }

  lemma SubsequenceDropHead<T>(a: seq<T>, c: seq<T>)
    requires a != [] && Subsequence(a, c)
    ensures Subsequence(a[1..], c)
    decreases |c|, 1
  {
    if a[0] == c[0] {
      SubsequenceOfTail(a[1..], c);
    } else {
      SubsequenceDropHead(a, c[1..]);
      SubsequenceOfTail(a[1..], c);
    }
  }

  /** The parts of the statement the loaders assemble. */
  datatype Statement = Statement(
    table: string,
    columns: string,       // cols_str
    placeholders: string,  // placeholders
    conflict: string,      // the ON CONFLICT target, written literally in each loader
    setClause: string)     // update_str

  /** What a loader hands to `execute_batch`: the statement and the records it binds. */
  datatype Batch = Batch(statement: Statement, records: seq<seq<Field>>)

  /** The builder shared by every loader: `cols` are the record keys in order, `conflict` the
      conflict target, `update` the columns the SET clause overwrites; `touch` appends the
      `updated_at` refresh the candle loaders add. */
  function Build(table: string, cols: seq<string>, conflict: seq<string>, update: seq<string>, touch: bool): Statement
  {
    var setClause := Join(SetItems(update), ", ");
    Statement(table, Join(Quoted(cols), ", "), Join(Placeholders(cols), ", "), Join(conflict, ", "),
      if touch then setClause + ", " + Touch else setClause)
  }

  /** A name the comma-separated lists can carry unambiguously. */
  predicate PlainName(c: string)
  {
    ',' !in c
  }

  lemma {:induction false} JoinSnoc(xs: seq<string>, y: string, sep: string)
    requires |xs| > 0
    ensures Join(xs, sep) + sep + y == Join(xs + [y], sep)
  {
    if |xs| > 1 {
      JoinSnoc(xs[1..], y, sep);
      assert (xs + [y])[1..] == xs[1..] + [y];
    }
  }

  lemma NoCommaIn(c: string)
    requires PlainName(c)
    ensures ',' !in Quote(c) && ',' !in Placeholder(c) && ',' !in SetItem(c)
  {
  }

  /** What the built statement says, read back item by item: the column list names every
      column once, quoted, in record order; the i-th placeholder names the i-th column; the SET
      clause assigns `EXCLUDED."c"` to each column of `update` in that order, then refreshes
      `updated_at` when asked. */
  lemma BuildItems(table: string, cols: seq<string>, conflict: seq<string>, update: seq<string>, touch: bool)
    requires |cols| > 0 && |update| > 0
    requires forall i :: 0 <= i < |cols| ==> PlainName(cols[i])
    requires forall i :: 0 <= i < |update| ==> PlainName(update[i])
    ensures var st := Build(table, cols, conflict, update, touch);
      && Split(st.columns, ", ") == Quoted(cols)
      && Split(st.placeholders, ", ") == Placeholders(cols)
      && Split(st.setClause, ", ") == SetItems(update) + (if touch then [Touch] else [])
  {
    forall i | 0 <= i < |cols| ensures ',' !in Quoted(cols)[i] && ',' !in Placeholders(cols)[i] {
      NoCommaIn(cols[i]);
    }
    forall i | 0 <= i < |update| ensures ',' !in SetItems(update)[i] {
      NoCommaIn(update[i]);
    }
    SplitJoin(Quoted(cols), ", ");
    SplitJoin(Placeholders(cols), ", ");
    if touch {
      JoinSnoc(SetItems(update), Touch, ", ");
      var items := SetItems(update) + [Touch];
      assert forall i :: 0 <= i < |items| ==> ',' !in items[i];
      SplitJoin(items, ", ");
    } else {
      SplitJoin(SetItems(update), ", ");
    }
  }

  lemma SetItemInjective(c: string, k: string)
    ensures SetItem(c) == SetItem(k) ==> c == k
  {
    if SetItem(c) == SetItem(k) {
      assert |SetItem(c)| == 2 * |c| + 16 && |SetItem(k)| == 2 * |k| + 16;
      assert c == SetItem(c)[1..|c| + 1];
      assert k == SetItem(k)[1..|k| + 1];
    }
  }

  /** A conflict key never receives `EXCLUDED` in the SET clause built from `NonKey`. */
  lemma KeysNeverUpdated(cols: seq<string>, keys: seq<string>, k: string)
    requires k in keys
    ensures SetItem(k) !in SetItems(NonKey(cols, keys))
  {
    NonKeyExactly(cols, keys);
    var items := SetItems(NonKey(cols, keys));
    forall i | 0 <= i < |items| ensures items[i] != SetItem(k) {
      SetItemInjective(NonKey(cols, keys)[i], k);
    }
  }

  /** A statement with a fixed update list and the `updated_at` refresh, as the candle loaders
      build it: read back, the SET clause is the update columns' assignments in order and then
      the refresh, and when no conflict key is among the update columns, no item of it assigns
      a conflict key. */
  lemma TouchedItems(table: string, cols: seq<string>, keys: seq<string>, update: seq<string>)
    requires |cols| > 0 && |update| > 0
    requires forall i :: 0 <= i < |cols| ==> PlainName(cols[i])
    requires forall i :: 0 <= i < |update| ==> PlainName(update[i])
    requires forall k :: 0 <= k < |keys| ==> keys[k] !in update
    ensures var items := Split(Build(table, cols, keys, update, true).setClause, ", ");
      && items == SetItems(update) + [Touch]
      && forall k :: 0 <= k < |keys| ==> SetItem(keys[k]) !in items
  {
    BuildItems(table, cols, keys, update, true);
    var items := SetItems(update) + [Touch];
    forall k, i | 0 <= k < |keys| && 0 <= i < |items| ensures items[i] != SetItem(keys[k]) {
      if i < |update| {
        SetItemInjective(update[i], keys[k]);
      } else {
        assert items[i][0] == 'u' && SetItem(keys[k])[0] == '"';
      }
    }
  }

  /** The statement whose SET clause covers the non-key columns, read back item by item over
      plain column names: every column once, quoted, in order; one placeholder per column in
      the same order; a SET item for each column that is not a conflict key, in column order. */
  lemma BuildNonKeyItems(table: string, cols: seq<string>, keys: seq<string>)
    requires forall j :: 0 <= j < |cols| ==> PlainName(cols[j])
    requires NonKey(cols, keys) != []
    ensures var st := Build(table, cols, keys, NonKey(cols, keys), false);
      && Split(st.columns, ", ") == Quoted(cols)
      && Split(st.placeholders, ", ") == Placeholders(cols)
      && Split(st.setClause, ", ") == SetItems(NonKey(cols, keys))
  {
    var update := NonKey(cols, keys);
    NonKeyExactly(cols, keys);
    forall j | 0 <= j < |update| ensures PlainName(update[j]) {
      assert update[j] in cols;
    }
    BuildItems(table, cols, keys, update, false);
  }
}
