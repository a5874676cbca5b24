/** The pandas DataFrame that `json_normalize` returns: the flat records of the elements
    become rows, the columns are the union of their keys in first-seen order, and a row
    whose record lacks a column holds NaN there. */
module Frames {
  import opened Wrappers
  import opened JsonValues
  import opened FlatRecords

  /** A cell: a decoded leaf value, or the NaN pandas fills in where a record lacks the column. */
  datatype Cell = Val(v: Json) | Missing

  datatype Frame = Frame(columns: seq<string>, rows: seq<seq<Cell>>)

  predicate Rectangular(f: Frame)
  {
    forall i :: 0 <= i < |f.rows| ==> |f.rows[i]| == |f.columns|
  }

  predicate Distinct(cols: seq<string>)
  {
    forall i, j :: 0 <= i < j < |cols| ==> cols[i] != cols[j]
  }

  /** Appends the keys of `ks` that are not columns yet, in order. */
  function AddColumns(cols: seq<string>, ks: seq<string>): (r: seq<string>)
    ensures forall c :: c in r <==> c in cols || c in ks
    decreases ks
  {
    if ks == [] then cols
    else AddColumns(if ks[0] in cols then cols else cols + [ks[0]], ks[1..])
  }

  /** Keys that are new and distinct are appended as they are. */
  lemma {:induction false} AddFreshColumns(cols: seq<string>, ks: seq<string>)
    requires Distinct(cols + ks)
    ensures AddColumns(cols, ks) == cols + ks
    decreases ks
  {
    if ks == [] {
      assert cols + ks == cols;
    } else {
      assert ks[0] !in cols by {
        forall i | 0 <= i < |cols| ensures cols[i] != ks[0] {
          assert (cols + ks)[i] == cols[i] && (cols + ks)[|cols|] == ks[0];
        }
      }
      assert cols + [ks[0]] + ks[1..] == cols + ks;
      AddFreshColumns(cols + [ks[0]], ks[1..]);
    }
  }

  /** The column list of a frame built from `recs`. */
  function ColumnUnion(recs: seq<Record>): seq<string>
  {
    if recs == [] then [] else AddColumns(ColumnUnion(recs[..|recs| - 1]), Keys(recs[|recs| - 1]))
  }

  lemma {:induction false} AddColumnsDistinct(cols: seq<string>, ks: seq<string>)
    requires Distinct(cols)
    ensures Distinct(AddColumns(cols, ks))
    decreases ks
  {
    if ks != [] {
      AddColumnsDistinct(if ks[0] in cols then cols else cols + [ks[0]], ks[1..]);
    }
  }

  /** No column is listed twice. */
  lemma {:induction false} ColumnUnionDistinct(recs: seq<Record>)
    ensures Distinct(ColumnUnion(recs))
  {
    if recs != [] {
      ColumnUnionDistinct(recs[..|recs| - 1]);
      AddColumnsDistinct(ColumnUnion(recs[..|recs| - 1]), Keys(recs[|recs| - 1]));
    }
  }

  /** The columns are exactly the keys found in some record. */
  lemma {:induction false} ColumnUnionKeys(recs: seq<Record>, c: string)
    ensures c in ColumnUnion(recs) <==> exists i :: 0 <= i < |recs| && c in Keys(recs[i])
  {
    if recs != [] {
      ColumnUnionKeys(recs[..|recs| - 1], c);
      if c in ColumnUnion(recs) {
        ColumnUnionOnlyKeys(recs, c);
      }
      if exists i :: 0 <= i < |recs| && c in Keys(recs[i]) {
        var i :| 0 <= i < |recs| && c in Keys(recs[i]);
        ColumnUnionAllKeys(recs, i, c);
      }
    }
  }

  lemma ColumnUnionOnlyKeys(recs: seq<Record>, c: string)
    requires recs != [] && c in ColumnUnion(recs)
    requires var front := recs[..|recs| - 1];
      c in ColumnUnion(front) ==> exists i :: 0 <= i < |front| && c in Keys(front[i])
    ensures exists i :: 0 <= i < |recs| && c in Keys(recs[i])
  {
    var n := |recs| - 1;
    var front := recs[..n];
    if c in ColumnUnion(front) {
      var i :| 0 <= i < n && c in Keys(front[i]);
      assert front[i] == recs[i];
    } else {
      assert c in Keys(recs[n]);
    }
  }

  lemma {:induction false} ColumnUnionAllKeys(recs: seq<Record>, i: nat, c: string)
    requires i < |recs| && c in Keys(recs[i])
    ensures c in ColumnUnion(recs)
  {
    var n := |recs| - 1;
    var front := recs[..n];
    if i < n {
      assert front[i] == recs[i];
      ColumnUnionAllKeys(front, i, c);
    }
    ColumnUnionLast(recs, c);
  }

  lemma ColumnUnionLast(recs: seq<Record>, c: string)
    requires recs != []
    requires c in ColumnUnion(recs[..|recs| - 1]) || c in Keys(recs[|recs| - 1])
    ensures c in ColumnUnion(recs)
  {
  }

  lemma KeysDistinct(rec: Record)
    requires DistinctKeys(rec)
    ensures Distinct(Keys(rec))
  {
  }

  function CellOf(x: Option<Json>): Cell
  {
    match x
    case Some(v) => Val(v)
    case None => Missing
  }

  /** The row of one record under the given columns. */
  function RowOf(cols: seq<string>, rec: Record): (row: seq<Cell>)
    ensures |row| == |cols|
  {
    seq(|cols|, j requires 0 <= j < |cols| => CellOf(Get(rec, cols[j])))
  }

  /** `pd.DataFrame(records)`. */
  function FromRecords(recs: seq<Record>): (f: Frame)
    ensures f.columns == ColumnUnion(recs)
    ensures |f.rows| == |recs| && Rectangular(f)
  {
    var cols := ColumnUnion(recs);
    Frame(cols, seq(|recs|, i requires 0 <= i < |recs| => RowOf(cols, recs[i])))
  }

  /** Every key of every record is a column and every column is some record's key; a cell
      is NaN exactly where its record lacks the column, and otherwise holds the record's value. */
  lemma FromRecordsCells(recs: seq<Record>)
    ensures var f := FromRecords(recs);
      && (forall i, j :: 0 <= i < |recs| && 0 <= j < |f.columns| ==>
            (f.rows[i][j] == Missing <==> f.columns[j] !in Keys(recs[i])))
      && (forall i, j :: 0 <= i < |recs| && 0 <= j < |f.columns| && f.rows[i][j].Val? ==>
            (f.columns[j], f.rows[i][j].v) in recs[i])
  {
  }

  lemma FromRecordsColumns(recs: seq<Record>, c: string)
    ensures c in FromRecords(recs).columns <==> exists i :: 0 <= i < |recs| && c in Keys(recs[i])
  {
    ColumnUnionKeys(recs, c);
  }

  /** A record with distinct keys comes back whole from its row: each of its pairs sits in
      the column of its key. */
  lemma RecordInRow(recs: seq<Record>, i: nat, k: string, v: Json)
    requires i < |recs| && DistinctKeys(recs[i]) && (k, v) in recs[i]
    ensures var f := FromRecords(recs);
      exists j :: 0 <= j < |f.columns| && f.columns[j] == k && f.rows[i][j] == Val(v)
  {
    var f := FromRecords(recs);
    assert k in Keys(recs[i]) by {
      var p :| 0 <= p < |recs[i]| && recs[i][p] == (k, v);
      assert Keys(recs[i])[p] == k;
    }
    FromRecordsColumns(recs, k);
    assert k in f.columns;
    var j :| 0 <= j < |f.columns| && f.columns[j] == k;
    GetDistinct(recs[i], k, v);
    assert f.rows[i][j] == Val(v);
  }

  /** The record of one list element: a dict is flattened, anything else gives an empty record. */
  function ElementRecord(e: Json): (rec: Record)
    ensures DistinctKeys(rec)
    ensures !e.JObj? ==> rec == []
  {
    if e.JObj? then
      FlattenObject(e.fields)
    else []
  }

  function ElementRecords(es: seq<Json>): (recs: seq<Record>)
    ensures |recs| == |es|
  {
    seq(|es|, i requires 0 <= i < |es| => ElementRecord(es[i]))
  }

  /** A list none of whose elements is itself a list. */
  predicate NoListElements(es: seq<Json>)
  {
    forall i :: 0 <= i < |es| ==> !es[i].JArr?
  }

  /** A list whose first element is not a list but some later one is: `DataFrame` then reads
      the rows as dicts and asks the list for its `keys()`. */
  predicate ListAfterDict(es: seq<Json>)
  {
    |es| > 0 && !es[0].JArr? && exists i :: 0 <= i < |es| && es[i].JArr?
  }

  /** What `_simple_json_normalize` makes of one element: a dict is flattened, a list keeps
      its shape with each element normalised in turn, anything else is an empty dict. */
  function Normalised(e: Json): (n: Json)
    ensures n.JArr? <==> e.JArr?
    ensures n.JArr? ==> |n.elems| == |e.elems|
    ensures n.JObj? ==> DistinctKeys(n.fields)
  {
    match e
    case JObj(fs) => JObj(FlattenObject(fs))
    case JArr(xs) => JArr(seq(|xs|, j requires 0 <= j < |xs| => Normalised(xs[j])))
    case _ => JObj([])
  }

  /** The cells `to_object_array` lays out for one row: a list's normalised elements, and for
      a dict what `list(d)` gives, its keys. */
  function PositionalItems(e: Json): (xs: seq<Json>)
    ensures e.JArr? ==> |xs| == |e.elems|
  {
    var n := Normalised(e);
    if n.JArr? then n.elems else seq(|n.fields|, j requires 0 <= j < |n.fields| => JStr(n.fields[j].0))
  }

  /** The largest of `ns`, or 0 for none. */
  function Longest(ns: seq<nat>): (k: nat)
    ensures forall i :: 0 <= i < |ns| ==> ns[i] <= k
    ensures k == 0 || exists i :: 0 <= i < |ns| && ns[i] == k
  {
    if ns == [] then 0
    else
      var w := Longest(ns[..|ns| - 1]);
      assert forall i :: 0 <= i < |ns| - 1 ==> ns[..|ns| - 1][i] == ns[i];
      if ns[|ns| - 1] >= w then ns[|ns| - 1] else w
  }

  /** The number of positional columns: the length of the longest row. */
  function Width(es: seq<Json>): (k: nat)
    ensures forall i :: 0 <= i < |es| ==> |PositionalItems(es[i])| <= k
    ensures k == 0 || exists i :: 0 <= i < |es| && |PositionalItems(es[i])| == k
  {
    var lens := seq(|es|, i requires 0 <= i < |es| => |PositionalItems(es[i])|);
    var k := Longest(lens);
    assert forall i :: 0 <= i < |es| ==> lens[i] == |PositionalItems(es[i])|;
    k
  }

  /** The text of a positional column label, as `to_csv` writes it. */
  function Decimal(n: nat): (s: string)
    ensures |s| >= 1
    ensures n >= 10 ==> |s| >= 2
    ensures forall i :: 0 <= i < |s| ==> '0' <= s[i] <= '9'
    ensures n > 0 ==> s[0] != '0'
  {
    if n < 10 then ["0123456789"[n]] else Decimal(n / 10) + ["0123456789"[n % 10]]
  }

  /** The number a text of decimal digits stands for, most significant digit first. */
  function DecimalValue(s: string): nat
  {
    if s == [] then 0 else 10 * DecimalValue(s[..|s| - 1]) + Digit(s[|s| - 1])
  }

  function Digit(c: char): nat
  {
    if '0' <= c <= '9' then c as int - '0' as int else 0
  }

  lemma DigitOf(d: nat)
    requires d < 10
    ensures Digit("0123456789"[d]) == d
  {
    var digits := "0123456789";
    assert digits[0] == '0' && digits[1] == '1' && digits[2] == '2' && digits[3] == '3' && digits[4] == '4';
    assert digits[5] == '5' && digits[6] == '6' && digits[7] == '7' && digits[8] == '8' && digits[9] == '9';
  }

  /** Reading a label's text back gives the label. */
  lemma {:induction false} DecimalRoundTrip(n: nat)
    ensures DecimalValue(Decimal(n)) == n
  {
    var s := Decimal(n);
    if n < 10 {
      DigitOf(n);
      assert s[..|s| - 1] == [];
    } else {
      assert s[..|s| - 1] == Decimal(n / 10);
      DecimalRoundTrip(n / 10);
      DigitOf(n % 10);
    }
  }

  /** The text of 10q + d is the text of q followed by the digit d. */
  lemma DecimalStep(q: nat, d: nat)
    requires q > 0 && d < 10
    ensures Decimal(10 * q + d) == Decimal(q) + ["0123456789"[d]]
  {
    assert (10 * q + d) / 10 == q && (10 * q + d) % 10 == d;
  }

  /** Different labels have different texts. */
  lemma DecimalInjective(a: nat, b: nat)
    requires Decimal(a) == Decimal(b)
    ensures a == b
  {
    DecimalRoundTrip(a);
    DecimalRoundTrip(b);
  }

  /** One positional row: the items in order, then None (written like NaN) up to width k. */
  function PaddedRow(xs: seq<Json>, k: nat): (row: seq<Cell>)
    ensures |row| == k
  {
    seq(k, j requires 0 <= j < k => if j < |xs| then Val(xs[j]) else Missing)
  }

  /** `pd.DataFrame(rows)` when the first row is a list: columns 0, ..., k-1 for the longest
      row k, each row laid out from the left. */
  function PositionalFrame(es: seq<Json>): (f: Frame)
    ensures |f.rows| == |es| && |f.columns| == Width(es) && Rectangular(f)
  {
    var k := Width(es);
    Frame(seq(k, j requires 0 <= j < k => Decimal(j)),
          seq(|es|, i requires 0 <= i < |es| => PaddedRow(PositionalItems(es[i]), k)))
  }

  /** Positional labels are distinct. */
  lemma PositionalDistinct(es: seq<Json>)
    ensures Distinct(PositionalFrame(es).columns)
  {
    var cols := PositionalFrame(es).columns;
    forall i, j | 0 <= i < j < |cols|
      ensures cols[i] != cols[j]
    {
      if cols[i] == cols[j] {
        DecimalInjective(i, j);
      }
    }
  }

  /** `pd.json_normalize(list)`: the `DataFrame` of the normalised elements. A first element
      that is a list makes the frame positional; a list after any other first element raises
      AttributeError; otherwise the elements' flat records are the rows. */
  function ListFrame(es: seq<Json>): (r: Result<Frame, PyError>)
    ensures r.Err? <==> ListAfterDict(es)
    ensures r.Err? ==> r.error == AttributeError
    ensures r.Ok? ==> |r.value.rows| == |es| && Rectangular(r.value) && Distinct(r.value.columns)
  {
    if |es| > 0 && es[0].JArr? then
      PositionalDistinct(es);
      Ok(PositionalFrame(es))
    else if exists i :: 0 <= i < |es| && es[i].JArr? then Err(AttributeError)
    else
      ColumnUnionDistinct(ElementRecords(es));
      Ok(FromRecords(ElementRecords(es)))
  }

  /** `pd.json_normalize(data)` with its default arguments; an argument that is neither a
      dict nor iterable raises NotImplementedError (a string counts as not iterable). */
  function JsonNormalize(data: Json): (r: Result<Frame, PyError>)
    ensures r.Ok? <==> data.JObj? || (data.JArr? && !ListAfterDict(data.elems))
    ensures r.Err? ==> r.error == if data.JArr? then AttributeError else NotImplementedError
    ensures r.Ok? ==> Rectangular(r.value) && Distinct(r.value.columns)
    ensures r.Ok? && data.JArr? ==> |r.value.rows| == |data.elems|
    ensures data.JObj? ==> |r.value.rows| == 1
  {
    match data
    case JArr(es) => ListFrame(es)
    case JObj(fields) =>
      ColumnUnionDistinct([FlattenObject(fields)]);
      Ok(FromRecords([FlattenObject(fields)]))
    case _ => Err(NotImplementedError)
  }

  /** For a list holding no list, row i is the flat record of element i, in list order,
      under the union of the element records' keys. */
  lemma NormalizeList(es: seq<Json>)
    requires NoListElements(es)
    ensures JsonNormalize(JArr(es)) == Ok(FromRecords(ElementRecords(es)))
    ensures var f := JsonNormalize(JArr(es)).value;
      && |f.rows| == |es|
      && (forall i :: 0 <= i < |es| ==> f.rows[i] == RowOf(f.columns, ElementRecord(es[i])))
  {
    var recs := ElementRecords(es);
    assert forall i :: 0 <= i < |es| ==> recs[i] == ElementRecord(es[i]);
  }

  /** For a list whose first element is a list, column j is labelled j and cell (i, j) is
      the j-th positional item of element i, or NaN past its end; some row fills every
      column. */
  lemma NormalizePositional(es: seq<Json>)
    requires |es| > 0 && es[0].JArr?
    ensures JsonNormalize(JArr(es)).Ok?
    ensures var f := JsonNormalize(JArr(es)).value;
      && |f.rows| == |es|
      && (forall j :: 0 <= j < |f.columns| ==> f.columns[j] == Decimal(j))
      && (forall i :: 0 <= i < |es| ==> |PositionalItems(es[i])| <= |f.columns|)
      && (|f.columns| == 0 || exists i :: 0 <= i < |es| && |PositionalItems(es[i])| == |f.columns|)
      && (forall i, j :: 0 <= i < |es| && 0 <= j < |f.columns| ==>
            f.rows[i][j] == if j < |PositionalItems(es[i])| then Val(PositionalItems(es[i])[j]) else Missing)
  {
  }

  /** A list item is laid out whole in a positional row, each element normalised. */
  lemma PositionalListRow(es: seq<Json>, i: nat)
    requires |es| > 0 && es[0].JArr? && i < |es| && es[i].JArr?
    ensures var f := JsonNormalize(JArr(es)).value;
      && |es[i].elems| <= |f.columns|
      && forall j :: 0 <= j < |es[i].elems| ==> f.rows[i][j] == Val(Normalised(es[i].elems[j]))
  {
    NormalizePositional(es);
  }

  /** The values of a record, in order. */
  function Values(rec: Record): (vs: seq<Cell>)
    ensures |vs| == |rec|
  {
    seq(|rec|, j requires 0 <= j < |rec| => Val(rec[j].1))
  }

  /** A frame of one dict has its keys as columns, in order, and its values as the one row. */
  lemma SingleRecordFrame(rec: Record)
    requires DistinctKeys(rec)
    ensures FromRecords([rec]) == Frame(Keys(rec), [Values(rec)])
  {
    var ks := Keys(rec);
    KeysDistinct(rec);
    assert [] + ks == ks;
    AddFreshColumns([], ks);
    var one: seq<Record> := [rec];
    assert one[..0] == [];
    assert ColumnUnion(one) == ks;
    forall j | 0 <= j < |rec|
      ensures RowOf(ks, rec)[j] == Val(rec[j].1)
    {
      GetDistinct(rec, rec[j].0, rec[j].1);
    }
    assert RowOf(ks, rec) == Values(rec);
  }

  /** Every leaf of one object, in order, is one column of a single row. */
  lemma NormalizeObject(fields: seq<(string, Json)>)
    ensures JsonNormalize(JObj(fields)) ==
      Ok(Frame(Keys(FlattenObject(fields)), [Values(FlattenObject(fields))]))
  {
    SingleRecordFrame(FlattenObject(fields));
  }

  /** The value json_normalize sees for a cell: its value, or for NaN a float, a scalar. */
  function CellJson(c: Cell): (e: Json)
    ensures c.Val? ==> e == c.v
    ensures c.Missing? ==> !e.JArr? && !e.JObj?
  {
    if c.Val? then c.v else JNull
  }

  /** The flat record of one cell. */
  function CellRecord(c: Cell): (rec: Record)
    ensures DistinctKeys(rec)
    ensures c.Missing? ==> rec == []
  {
    ElementRecord(CellJson(c))
  }

  function CellValues(cells: seq<Cell>): (es: seq<Json>)
    ensures |es| == |cells|
  {
    seq(|cells|, i requires 0 <= i < |cells| => CellJson(cells[i]))
  }

  /** json_normalize applied to a column (a pandas Series) of cells: the values the Series
      lists, normalised as a list, so the same three outcomes. */
  function NormalizeCells(cells: seq<Cell>): (r: Result<Frame, PyError>)
    ensures r.Err? <==> ListAfterDict(CellValues(cells))
    ensures r.Err? ==> r.error == AttributeError
    ensures r.Ok? ==> |r.value.rows| == |cells| && Rectangular(r.value) && Distinct(r.value.columns)
  {
    ListFrame(CellValues(cells))
  }

  function CellRecords(cells: seq<Cell>): (recs: seq<Record>)
    ensures |recs| == |cells|
    ensures forall i :: 0 <= i < |cells| ==> recs[i] == CellRecord(cells[i])
  {
    seq(|cells|, i requires 0 <= i < |cells| => CellRecord(cells[i]))
  }

  /** Cells none of which holds a list normalise to one row per cell, row i the flat
      record of cell i under the union of the cells' keys. */
  lemma NormalizeCellRecords(cells: seq<Cell>)
    requires forall i :: 0 <= i < |cells| ==> !CellJson(cells[i]).JArr?
    ensures NormalizeCells(cells) == Ok(FromRecords(CellRecords(cells)))
  {
    assert ElementRecords(CellValues(cells)) == CellRecords(cells);
  }

  /** Appending keys that are all columns already changes nothing. */
  lemma {:induction false} AddKnownColumns(cols: seq<string>, ks: seq<string>)
    requires forall k :: k in ks ==> k in cols
    ensures AddColumns(cols, ks) == cols
    decreases ks
  {
    if ks != [] {
      AddKnownColumns(cols, ks[1..]);
    }
  }

  /** Records that all have the same keys, in the same order, give exactly those keys as
      columns and their values as rows: nothing gets added or padded. */
  lemma {:induction false} UniformRecords(recs: seq<Record>, ks: seq<string>)
    requires |recs| >= 1
    requires forall i :: 0 <= i < |recs| ==> DistinctKeys(recs[i]) && Keys(recs[i]) == ks
    ensures FromRecords(recs) == Frame(ks, seq(|recs|, i requires 0 <= i < |recs| => Values(recs[i])))
  {
    UniformColumns(recs, ks);
    forall i | 0 <= i < |recs|
      ensures RowOf(ks, recs[i]) == Values(recs[i])
    {
      forall j | 0 <= j < |ks|
        ensures RowOf(ks, recs[i])[j] == Values(recs[i])[j]
      {
        GetDistinct(recs[i], recs[i][j].0, recs[i][j].1);
      }
    }
  }

  lemma {:induction false} UniformColumns(recs: seq<Record>, ks: seq<string>)
    requires |recs| >= 1
    requires forall i :: 0 <= i < |recs| ==> DistinctKeys(recs[i]) && Keys(recs[i]) == ks
    ensures ColumnUnion(recs) == ks
  {
    var n := |recs| - 1;
    if n == 0 {
      SingleRecordFrame(recs[0]);
      assert recs == [recs[0]];
    } else {
      UniformColumns(recs[..n], ks);
      AddKnownColumns(ks, Keys(recs[n]));
    }
  }
}
