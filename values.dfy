/** Shared vocabulary of the data loaders: optional and failing results, the cell values that
    pandas and psycopg2 pass around, and records as ordered key/value lists (Python dicts keep
    insertion order, and the upsert builders take their column list from that order). */
module Values {

  datatype Option<+T> = None | Some(value: T)

  /** The exceptions the modelled code raises and catches. */
  datatype Error = IndexError | ValueError | KeyError | RequestError

  datatype Result<+T> = Ok(value: T) | Err(error: Error)

  /** A cell as it reaches the database layer: Python None, a float NaN, an int, a float or a str. */
  datatype Value = VNone | VNaN | VInt(i: int) | VReal(r: real) | VText(s: string)

  /** One dict entry. */
  type Field = (string, Value)

  /** The keys of a dict, in insertion order. */
  function Keys(fields: seq<Field>): (ks: seq<string>)
    ensures |ks| == |fields|
    ensures forall i :: 0 <= i < |fields| ==> ks[i] == fields[i].0
  {
    if fields == [] then [] else [fields[0].0] + Keys(fields[1..])
  }

  /** `df.replace({np.nan: None})` on one cell. */
  function NaNToNone(v: Value): Value
  {
    if v.VNaN? then VNone else v
  }

  /** `df.replace({np.nan: None})` on one record: keys and their order are kept, every NaN
      becomes None and every other value is left alone. */
  function ReplaceNaN(fields: seq<Field>): (r: seq<Field>)
    ensures |r| == |fields|
    ensures forall i :: 0 <= i < |r| ==> r[i].0 == fields[i].0 && r[i].1 == NaNToNone(fields[i].1)
  {
    seq(|fields|, i requires 0 <= i < |fields| => (fields[i].0, NaNToNone(fields[i].1)))
  }

  /** Looks a key up in a dict; the first entry with that key is the one a Python dict holds,
      since assignment to an existing key replaces it in place. */
  function Lookup(fields: seq<Field>, k: string): Option<Value>
  {
    if fields == [] then None
    else if fields[0].0 == k then Some(fields[0].1)
    else Lookup(fields[1..], k)
  }

  /** `rename(columns=mapping)` (or `rename(index=mapping)`) on one label: the first pair
      whose key is the label gives the new label; a label without a pair is kept. */
  function RenameColumn(c: string, mapping: seq<(string, string)>): string
  {
    if mapping == [] then c
    else if mapping[0].0 == c then mapping[0].1
    else RenameColumn(c, mapping[1..])
  }

  /** `df.rename(columns=mapping).columns`: every label renamed, in place. */
  function Renamed(cols: seq<string>, mapping: seq<(string, string)>): (r: seq<string>)
    ensures |r| == |cols| && forall i :: 0 <= i < |cols| ==> r[i] == RenameColumn(cols[i], mapping)
  {
    seq(|cols|, i requires 0 <= i < |cols| => RenameColumn(cols[i], mapping))
  }

  /** No two pairs of a rename mapping share a key (a Python dict literal). */
  predicate Keyed(mapping: seq<(string, string)>)
  {
    forall i, j :: 0 <= i < j < |mapping| ==> mapping[i].0 != mapping[j].0
  }

  /** With a mapping keyed like a dict, a column named by pair `k` takes that pair's new
      name. */
  lemma {:induction false} RenameColumnKeyed(c: string, mapping: seq<(string, string)>, k: int)
    requires Keyed(mapping) && 0 <= k < |mapping| && mapping[k].0 == c
    ensures RenameColumn(c, mapping) == mapping[k].1
  {
    if k > 0 {
      assert mapping[0].0 != c;
      RenameColumnKeyed(c, mapping[1..], k - 1);
    }
  }

  /** A column the mapping does not mention keeps its name. */
  lemma {:induction false} RenameColumnUntouched(c: string, mapping: seq<(string, string)>)
    requires forall j :: 0 <= j < |mapping| ==> mapping[j].0 != c
    ensures RenameColumn(c, mapping) == c
  {
    if mapping != [] {
      RenameColumnUntouched(c, mapping[1..]);
    }
  }

  /** A column the mapping renames is present under its new name. */
  lemma RenamedTarget(cols: seq<string>, mapping: seq<(string, string)>, k: int)
    requires Keyed(mapping) && 0 <= k < |mapping| && mapping[k].0 in cols
    ensures mapping[k].1 in Renamed(cols, mapping)
  {
    var i :| 0 <= i < |cols| && cols[i] == mapping[k].0;
    RenameColumnKeyed(cols[i], mapping, k);
    assert Renamed(cols, mapping)[i] == mapping[k].1;
  }

  /** A column the mapping does not mention keeps its name. */
  lemma RenamedUntouched(cols: seq<string>, mapping: seq<(string, string)>, c: string)
    requires c in cols && forall j :: 0 <= j < |mapping| ==> mapping[j].0 != c
    ensures c in Renamed(cols, mapping)
  {
    var i :| 0 <= i < |cols| && cols[i] == c;
    RenameColumnUntouched(c, mapping);
    assert Renamed(cols, mapping)[i] == c;
  }
}
