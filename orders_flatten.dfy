/** The orders job (orders_s3_flatten_json.py): the list under "orders" is flattened to one
    row per order, a text `items` cell is decoded as JSON, the rows are exploded on `items`
    (one row per item, the other cells copied), the items are flattened in their turn, and
    the `items` column is replaced by the item columns, row i of the one beside row i of the
    other. */
module OrdersFlatten {
  import opened Wrappers
  import opened JsonValues
  import opened FlatRecords
  import opened Frames
  import opened Seqs

  const OrdersKey: string := "orders"
  const ItemsColumn: string := "items"

  /** `pd.json_normalize(data['orders'])`. */
  function OrdersFrame(data: Json): (r: Result<Frame, PyError>)
    ensures !data.JObj? ==> r == Err(TypeError)
    ensures data.JObj? && OrdersKey !in Keys(data.fields) ==> r == Err(KeyError(OrdersKey))
    ensures r.Ok? ==> Rectangular(r.value) && Distinct(r.value.columns)
  {
    var orders :- Subscript(data, OrdersKey);
    JsonNormalize(orders)
  }

  /** `df[name]` used as a column position: the first column of that name. */
  function ColumnIndex(cols: seq<string>, name: string): (r: Result<nat, PyError>)
    ensures r.Ok? <==> name in cols
    ensures r.Ok? ==> r.value < |cols| && cols[r.value] == name
    ensures r.Ok? ==> forall j :: 0 <= j < r.value ==> cols[j] != name
    ensures r.Err? ==> r.error == KeyError(name)
  {
    if cols == [] then Err(KeyError(name))
    else if cols[0] == name then Ok(0)
    else match ColumnIndex(cols[1..], name)
      case Ok(j) => Ok(j + 1)
      case Err(e) => Err(e)
  }

  /** A cell holding a Python str. */
  predicate IsText(c: Cell)
  {
    c.Val? && c.v.JStr?
  }

  /** `lambda x: json.loads(x) if isinstance(x, str) else x`; `parse` stands for json.loads,
      None for a JSONDecodeError. */
  function DecodeText(c: Cell, parse: string -> Option<Json>): Result<Cell, PyError>
  {
    if IsText(c) then
      match parse(c.v.s)
      case Some(j) => Ok(Val(j))
      case None => Err(JsonDecodeError(c.v.s))
    else Ok(c)
  }

  /** Every text cell of the column decodes. */
  predicate AllTextDecodes(rows: seq<seq<Cell>>, ix: nat, parse: string -> Option<Json>)
  {
    forall i :: 0 <= i < |rows| && ix < |rows[i]| && IsText(rows[i][ix]) ==> parse(rows[i][ix].v.s).Some?
  }

  /** `df['items'] = df['items'].apply(...)`: the column is decoded row by row, the first
      failure raising. */
  function DecodeItems(rows: seq<seq<Cell>>, ix: nat, parse: string -> Option<Json>): (r: Result<seq<seq<Cell>>, PyError>)
    requires forall i :: 0 <= i < |rows| ==> ix < |rows[i]|
    ensures r.Ok? <==> AllTextDecodes(rows, ix, parse)
    ensures r.Ok? ==> |r.value| == |rows|
    ensures r.Ok? ==> forall i :: 0 <= i < |rows| ==>
      && |r.value[i]| == |rows[i]|
      && (forall j :: 0 <= j < |rows[i]| && j != ix ==> r.value[i][j] == rows[i][j])
      && (IsText(rows[i][ix]) ==> r.value[i][ix] == Val(parse(rows[i][ix].v.s).value))
      && (!IsText(rows[i][ix]) ==> r.value[i][ix] == rows[i][ix])
  {
    if rows == [] then Ok([])
    else
      match DecodeText(rows[0][ix], parse)
      case Err(e) => Err(e)
      case Ok(c) =>
        match DecodeItems(rows[1..], ix, parse)
        case Err(e) =>
          assert !AllTextDecodes(rows[1..], ix, parse);
          Err(e)
        case Ok(rest) =>
          assert forall i :: 1 <= i < |rows| ==> rows[1..][i - 1] == rows[i];
          Ok([rows[0][ix := c]] + rest)
  }

  /** The elements `explode` spreads a cell over: a list's elements, a dict's keys.
      Anything else (text included) is not list-like. */
  function ListLike(c: Cell): (r: Option<seq<Cell>>)
    ensures r.Some? <==> c.Val? && (c.v.JArr? || c.v.JObj?)
    ensures r.Some? && c.v.JArr? ==>
      |r.value| == |c.v.elems| && forall j :: 0 <= j < |c.v.elems| ==> r.value[j] == Val(c.v.elems[j])
    ensures r.Some? && c.v.JObj? ==>
      |r.value| == |c.v.fields| && forall j :: 0 <= j < |c.v.fields| ==> r.value[j] == Val(JStr(c.v.fields[j].0))
  {
    if c.Val? && c.v.JArr? then
      Some(seq(|c.v.elems|, j requires 0 <= j < |c.v.elems| => Val(c.v.elems[j])))
    else if c.Val? && c.v.JObj? then
      Some(seq(|c.v.fields|, j requires 0 <= j < |c.v.fields| => Val(JStr(c.v.fields[j].0))))
    else None
  }

  /** How many rows one cell explodes into. */
  function Fan(c: Cell): nat
  {
    match ListLike(c)
    case Some(es) => if |es| == 0 then 1 else |es|
    case None => 1
  }

  /** The row with the cell at ix removed: its cells for every column but the exploded one. */
  function DropAt<T>(s: seq<T>, ix: nat): (r: seq<T>)
    ensures ix < |s| ==> |r| == |s| - 1
  {
    if ix < |s| then s[..ix] + s[ix + 1..] else s
  }

  /** One row of `explode(items)`: a non-empty list-like gives one row per element, an empty
      one a single row with NaN, anything else the row itself. */
  function ExplodeRow(row: seq<Cell>, ix: nat): (rs: seq<seq<Cell>>)
    ensures |rs| >= 1
    ensures ix < |row| ==> |rs| == Fan(row[ix])
    ensures forall j :: 0 <= j < |rs| ==> |rs[j]| == |row| && DropAt(rs[j], ix) == DropAt(row, ix)
    ensures ix < |row| && ListLike(row[ix]).Some? && |ListLike(row[ix]).value| > 0 ==>
      forall j :: 0 <= j < |rs| ==> rs[j][ix] == ListLike(row[ix]).value[j]
    ensures ix < |row| && ListLike(row[ix]) == Some([]) ==> rs == [row[ix := Missing]]
    ensures ix < |row| && ListLike(row[ix]).None? ==> rs == [row]
  {
    if ix >= |row| then [row]
    else match ListLike(row[ix])
      case None => [row]
      case Some(es) =>
        if |es| == 0 then
          assert DropAt(row[ix := Missing], ix) == DropAt(row, ix);
          [row[ix := Missing]]
        else
          var rs := seq(|es|, j requires 0 <= j < |es| => row[ix := es[j]]);
          assert forall j :: 0 <= j < |es| ==> DropAt(rs[j], ix) == DropAt(row, ix);
          rs
  }

  function Exploder(ix: nat): seq<Cell> -> seq<seq<Cell>>
  {
    row => ExplodeRow(row, ix)
  }

  /** `df.explode('items', ignore_index=True)`: the rows' blocks in row order, renumbered from 0. */
  function Explode(f: Frame, ix: nat): (e: Frame)
    ensures e.columns == f.columns && |e.rows| >= |f.rows|
  {
    FlatMapAtLeast(f.rows, Exploder(ix));
    Frame(f.columns, FlatMap(f.rows, Exploder(ix)))
  }

  /** `df['items']` as a Series. */
  function ColumnCells(f: Frame, ix: nat): (cells: seq<Cell>)
    ensures |cells| == |f.rows|
  {
    seq(|f.rows|, i requires 0 <= i < |f.rows| => if ix < |f.rows[i]| then f.rows[i][ix] else Missing)
  }

  /** `df.drop(columns=['items']).reset_index(drop=True)`. */
  function DropColumn(f: Frame, ix: nat): (d: Frame)
    ensures |d.rows| == |f.rows|
    ensures ix < |f.columns| ==> |d.columns| == |f.columns| - 1
    ensures Rectangular(f) && ix < |f.columns| ==> Rectangular(d)
  {
    Frame(DropAt(f.columns, ix), seq(|f.rows|, i requires 0 <= i < |f.rows| => DropAt(f.rows[i], ix)))
  }

  /** `pd.concat([a, b], axis=1)` for two frames indexed 0..n-1: row i of a beside row i of b. */
  function ConcatColumns(a: Frame, b: Frame): (c: Frame)
    requires |a.rows| == |b.rows|
    ensures c.columns == a.columns + b.columns && |c.rows| == |a.rows|
    ensures forall i :: 0 <= i < |a.rows| ==> c.rows[i] == a.rows[i] + b.rows[i]
    ensures Rectangular(a) && Rectangular(b) ==> Rectangular(c)
  {
    Frame(a.columns + b.columns, seq(|a.rows|, i requires 0 <= i < |a.rows| => a.rows[i] + b.rows[i]))
  }

  /** Lines 20-23: the order frame with its `items` column decoded, and that column's position. */
  function DecodedOrders(data: Json, parse: string -> Option<Json>): (r: Result<(Frame, nat), PyError>)
    ensures r.Ok? ==> OrdersFrame(data).Ok? && r.value.0.columns == OrdersFrame(data).value.columns
    ensures r.Ok? ==> r.value.1 < |r.value.0.columns| && r.value.0.columns[r.value.1] == ItemsColumn
    ensures r.Ok? ==> |r.value.0.rows| == |OrdersFrame(data).value.rows| && Rectangular(r.value.0)
  {
    var f :- OrdersFrame(data);
    var ix :- ColumnIndex(f.columns, ItemsColumn);
    var rows :- DecodeItems(f.rows, ix, parse);
    Ok((Frame(f.columns, rows), ix))
  }

  /** Lines 27-31 on the exploded frame: the items flattened, the items column replaced by
      them. Normalising the items column fails as json_normalize does, when a list follows
      a first item that is not one. */
  function Finish(e: Frame, ix: nat): (r: Result<Frame, PyError>)
    ensures r.Err? <==> ListAfterDict(CellValues(ColumnCells(e, ix)))
    ensures r.Err? ==> r.error == AttributeError
    ensures r.Ok? ==> |r.value.rows| == |e.rows|
  {
    var items :- NormalizeCells(ColumnCells(e, ix));
    Ok(ConcatColumns(DropColumn(e, ix), items))
  }

  /** The whole job on the decoded document, up to the CSV it writes. */
  function FlattenOrders(data: Json, parse: string -> Option<Json>): (r: Result<Frame, PyError>)
    ensures r.Ok? ==> OrdersFrame(data).Ok? && |r.value.rows| >= |OrdersFrame(data).value.rows|
  {
    var (g, ix) :- DecodedOrders(data, parse);
    Finish(Explode(g, ix), ix)
  }

  /** An exploded frame none of whose items cells holds a list. */
  predicate NoListItems(e: Frame, ix: nat)
  {
    forall i :: 0 <= i < |e.rows| && ix < |e.rows[i]| ==> !(e.rows[i][ix].Val? && e.rows[i][ix].v.JArr?)
  }

  /** An items cell whose list, if it is one, holds no list. */
  predicate FlatItemList(c: Cell)
  {
    c.Val? && c.v.JArr? ==> NoListElements(c.v.elems)
  }

  // ----- Properties -----

  /** Flattening `data['orders']` gives one row per order, in list order. */
  lemma OrdersOneRowEach(data: Json, es: seq<Json>)
    requires data.JObj? && Get(data.fields, OrdersKey) == Some(JArr(es)) && NoListElements(es)
    ensures OrdersFrame(data).Ok?
    ensures var f := OrdersFrame(data).value;
      |f.rows| == |es| && forall k :: 0 <= k < |es| ==> f.rows[k] == RowOf(f.columns, ElementRecord(es[k]))
  {
    assert Subscript(data, OrdersKey) == Ok(JArr(es));
    NormalizeList(es);
  }

  /** The job fails exactly when: the document is no dict or has no "orders" (TypeError,
      KeyError), "orders" is a scalar (NotImplementedError) or a list holding a list after a
      first order that is not one (AttributeError), the order frame has no `items` column
      (KeyError), an `items` text is not JSON (JSONDecodeError), or the exploded items
      put a list after a first item that is not one (AttributeError). */
  lemma FlattenOrdersSucceeds(data: Json, parse: string -> Option<Json>)
    ensures !data.JObj? ==> FlattenOrders(data, parse) == Err(TypeError)
    ensures data.JObj? && OrdersKey !in Keys(data.fields) ==> FlattenOrders(data, parse) == Err(KeyError(OrdersKey))
    ensures var orders := Subscript(data, OrdersKey);
      orders.Ok? && orders.value.JArr? && ListAfterDict(orders.value.elems) ==>
        FlattenOrders(data, parse) == Err(AttributeError)
    ensures var orders := Subscript(data, OrdersKey);
      orders.Ok? && !orders.value.JArr? && !orders.value.JObj? ==>
        FlattenOrders(data, parse) == Err(NotImplementedError)
    ensures OrdersFrame(data).Ok? && ItemsColumn !in OrdersFrame(data).value.columns ==>
      FlattenOrders(data, parse) == Err(KeyError(ItemsColumn))
    ensures DecodedOrders(data, parse).Ok? <==>
      && OrdersFrame(data).Ok?
      && ItemsColumn in OrdersFrame(data).value.columns
      && AllTextDecodes(OrdersFrame(data).value.rows, ColumnIndex(OrdersFrame(data).value.columns, ItemsColumn).value, parse)
    ensures FlattenOrders(data, parse).Ok? <==>
      && DecodedOrders(data, parse).Ok?
      && var (g, ix) := DecodedOrders(data, parse).value;
         !ListAfterDict(CellValues(ColumnCells(Explode(g, ix), ix)))
  {
  }

  /** Exploding cells whose lists hold no list leaves no list in the items column: those
      items normalise as flat records, and the job does not raise there. */
  lemma ExplodeNoListItems(g: Frame, ix: nat)
    requires Rectangular(g) && ix < |g.columns|
    requires forall k :: 0 <= k < |g.rows| ==> FlatItemList(g.rows[k][ix])
    ensures NoListItems(Explode(g, ix), ix)
    ensures Finish(Explode(g, ix), ix).Ok?
  {
    var e := Explode(g, ix);
    ExplodeCount(g, ix);
    forall i | 0 <= i < |e.rows| && ix < |e.rows[i]|
      ensures !(e.rows[i][ix].Val? && e.rows[i][ix].v.JArr?)
    {
      assert e.rows[i] in FlatMap(g.rows, Exploder(ix));
      FlatMapMember(g.rows, Exploder(ix), e.rows[i]);
      var k :| 0 <= k < |g.rows| && e.rows[i] in Exploder(ix)(g.rows[k]);
      ExplodedCellFlat(g.rows[k], ix, e.rows[i]);
    }
    FinishRecords(e, ix);
  }

  /** A cell of one exploded block is the original cell, NaN, or an element of its list. */
  lemma ExplodedCellFlat(row: seq<Cell>, ix: nat, r: seq<Cell>)
    requires ix < |row| && FlatItemList(row[ix]) && r in ExplodeRow(row, ix)
    ensures !(r[ix].Val? && r[ix].v.JArr?)
  {
    var rs := ExplodeRow(row, ix);
    var j :| 0 <= j < |rs| && rs[j] == r;
    match ListLike(row[ix])
    case None =>
    case Some(es) =>
      if |es| > 0 {
        assert r[ix] == es[j];
        if row[ix].v.JArr? {
          assert es[j] == Val(row[ix].v.elems[j]);
        }
      }
  }

  /** Items cells that hold no list: the item frame is the cells' flat records. */
  lemma FinishRecords(e: Frame, ix: nat)
    requires Rectangular(e) && ix < |e.columns| && NoListItems(e, ix)
    ensures Finish(e, ix).Ok?
    ensures NormalizeCells(ColumnCells(e, ix)) == Ok(FromRecords(CellRecords(ColumnCells(e, ix))))
  {
    var cells := ColumnCells(e, ix);
    forall i | 0 <= i < |cells| ensures !CellJson(cells[i]).JArr? {
      assert cells[i] == e.rows[i][ix];
    }
    NormalizeCellRecords(cells);
  }

  /** What the decoding step leaves: the same columns, the same rows but for the items cell. */
  lemma DecodedOrdersFrame(data: Json, parse: string -> Option<Json>)
    requires DecodedOrders(data, parse).Ok?
    ensures OrdersFrame(data).Ok?
    ensures var f := OrdersFrame(data).value;
      var (g, ix) := DecodedOrders(data, parse).value;
      && ColumnIndex(f.columns, ItemsColumn) == Ok(ix)
      && g.columns == f.columns && Distinct(g.columns) && Rectangular(g)
      && ix < |g.columns| && g.columns[ix] == ItemsColumn
      && |g.rows| == |f.rows|
      && forall k :: 0 <= k < |g.rows| ==> DropAt(g.rows[k], ix) == DropAt(f.rows[k], ix)
  {
    var f := OrdersFrame(data).value;
    var ix := ColumnIndex(f.columns, ItemsColumn).value;
    var rows := DecodeItems(f.rows, ix, parse).value;
    assert DecodedOrders(data, parse).value == (Frame(f.columns, rows), ix);
    forall k | 0 <= k < |rows|
      ensures DropAt(rows[k], ix) == DropAt(f.rows[k], ix)
    {
      DecodeKeepsOthers(f.rows[k], rows[k], ix);
    }
  }

  lemma DecodeKeepsOthers(before: seq<Cell>, after: seq<Cell>, ix: nat)
    requires ix < |before| == |after|
    requires forall j :: 0 <= j < |before| && j != ix ==> after[j] == before[j]
    ensures DropAt(after, ix) == DropAt(before, ix)
  {
    assert after[..ix] == before[..ix];
    assert after[ix + 1..] == before[ix + 1..];
  }

  /** Exploding keeps the frame rectangular and yields sum-of-fans rows, at least one per input row. */
  lemma ExplodeCount(g: Frame, ix: nat)
    requires Rectangular(g) && ix < |g.columns|
    ensures Rectangular(Explode(g, ix))
    ensures |Explode(g, ix).rows| == SumLengths(g.rows, Exploder(ix)) >= |g.rows|
  {
    FlatMapLength(g.rows, Exploder(ix));
    FlatMapAtLeast(g.rows, Exploder(ix));
    var e := Explode(g, ix);
    forall i | 0 <= i < |e.rows| ensures |e.rows[i]| == |e.columns| {
      assert e.rows[i] in FlatMap(g.rows, Exploder(ix));
      FlatMapMember(g.rows, Exploder(ix), e.rows[i]);
    }
  }

  /** An order whose items cell lists N >= 1 elements becomes N consecutive rows, row j
      holding element j in the items cell and the order's other cells unchanged. */
  lemma ExplodeFanOut(g: Frame, ix: nat, k: nat)
    requires k < |g.rows| && ix < |g.rows[k]|
    requires ListLike(g.rows[k][ix]).Some? && |ListLike(g.rows[k][ix]).value| >= 1
    ensures BlockStart(g.rows, Exploder(ix), k) + |ListLike(g.rows[k][ix]).value| <= |Explode(g, ix).rows|
    ensures forall j :: 0 <= j < |ListLike(g.rows[k][ix]).value| ==> ExplodedAt(g, ix, k, j)
  {
    ExplodedRowAt(g, ix, k, |ListLike(g.rows[k][ix]).value| - 1);
    forall j | 0 <= j < |ListLike(g.rows[k][ix]).value|
      ensures ExplodedAt(g, ix, k, j)
    {
      ExplodedRowAt(g, ix, k, j);
    }
  }

  /** Exploded row BlockStart + j is order k's row with its j-th item in the items cell. */
  predicate ExplodedAt(g: Frame, ix: nat, k: nat, j: nat)
    requires k < |g.rows| && ix < |g.rows[k]|
    requires ListLike(g.rows[k][ix]).Some? && j < |ListLike(g.rows[k][ix]).value|
  {
    var start := BlockStart(g.rows, Exploder(ix), k);
    var e := Explode(g, ix);
    && start + j < |e.rows|
    && |e.rows[start + j]| == |g.rows[k]|
    && e.rows[start + j][ix] == ListLike(g.rows[k][ix]).value[j]
    && DropAt(e.rows[start + j], ix) == DropAt(g.rows[k], ix)
  }

  /** Row j of order k's block. */
  lemma ExplodedRowAt(g: Frame, ix: nat, k: nat, j: nat)
    requires k < |g.rows| && ix < |g.rows[k]|
    requires ListLike(g.rows[k][ix]).Some? && j < |ListLike(g.rows[k][ix]).value|
    ensures ExplodedAt(g, ix, k, j)
  {
    var row := g.rows[k];
    var block := ExplodeRow(row, ix);
    assert Exploder(ix)(row) == block;
    FlatMapAt(g.rows, Exploder(ix), k, j);
  }

  /** Lines 27-31: the output columns are the order columns without `items`, then the item
      columns; row i is exploded row i without its items cell, beside the flattened item of
      that cell. */
  lemma FinishShape(e: Frame, ix: nat)
    requires Rectangular(e) && ix < |e.columns| && NoListItems(e, ix)
    ensures Finish(e, ix).Ok?
    ensures var out := Finish(e, ix).value;
      var itemCols := NormalizeCells(ColumnCells(e, ix)).value.columns;
      && out.columns == DropAt(e.columns, ix) + itemCols
      && |out.rows| == |e.rows|
      && forall i :: 0 <= i < |e.rows| ==>
           out.rows[i] == DropAt(e.rows[i], ix) + RowOf(itemCols, CellRecord(e.rows[i][ix]))
  {
    FinishRecords(e, ix);
  }

  /** The order columns keep no `items` column; one comes back only if some item itself has
      a key "items". */
  lemma FinishDropsItems(e: Frame, ix: nat)
    requires Rectangular(e) && Distinct(e.columns) && ix < |e.columns| && e.columns[ix] == ItemsColumn
    requires NoListItems(e, ix)
    ensures ItemsColumn !in DropAt(e.columns, ix)
    ensures Finish(e, ix).Ok?
    ensures ItemsColumn in Finish(e, ix).value.columns <==>
      exists i :: 0 <= i < |e.rows| && ItemsColumn in Keys(CellRecord(e.rows[i][ix]))
  {
    DropAtRemoves(e.columns, ix);
    FinishShape(e, ix);
    ItemColumns(e, ix, ItemsColumn);
  }

  /** Dropping the one occurrence of a column leaves none. */
  lemma DropAtRemoves(cols: seq<string>, ix: nat)
    requires Distinct(cols) && ix < |cols|
    ensures cols[ix] !in DropAt(cols, ix)
  {
    var c := cols[ix];
    var before, after := cols[..ix], cols[ix + 1..];
    assert DropAt(cols, ix) == before + after;
    forall j | 0 <= j < |before| ensures before[j] != c {
      assert before[j] == cols[j];
    }
    forall j | 0 <= j < |after| ensures after[j] != c {
      assert after[j] == cols[ix + 1 + j];
    }
    assert c !in before && c !in after;
  }

  /** The item columns are the keys of the items' flat records. */
  lemma ItemColumns(e: Frame, ix: nat, c: string)
    requires Rectangular(e) && ix < |e.columns| && NoListItems(e, ix)
    ensures NormalizeCells(ColumnCells(e, ix)).Ok?
    ensures c in NormalizeCells(ColumnCells(e, ix)).value.columns <==>
      exists i :: 0 <= i < |e.rows| && c in Keys(CellRecord(e.rows[i][ix]))
  {
    var cells := ColumnCells(e, ix);
    var recs := CellRecords(cells);
    FinishRecords(e, ix);
    FromRecordsColumns(recs, c);
    forall i | 0 <= i < |e.rows| ensures recs[i] == CellRecord(e.rows[i][ix]) {
      assert cells[i] == e.rows[i][ix];
    }
  }

  /** The heart of the job: an order whose decoded items cell lists N >= 1 elements yields N
      consecutive output rows; row j is the order's own cells (all but `items`) followed by
      the flattened j-th item. Blocks follow the order list, so the output has at least as
      many rows as there are orders. */
  lemma OrderItemRows(data: Json, parse: string -> Option<Json>, g: Frame, ix: nat, k: nat, j: nat)
    requires DecodedOrders(data, parse) == Ok((g, ix))
    requires k < |g.rows| && ix < |g.rows[k]| && ListLike(g.rows[k][ix]).Some? && j < |ListLike(g.rows[k][ix]).value|
    requires forall k :: 0 <= k < |g.rows| ==> FlatItemList(g.rows[k][ix])
    ensures OrdersFrame(data).Ok? && FlattenOrders(data, parse).Ok?
    ensures var f := OrdersFrame(data).value;
      var out := FlattenOrders(data, parse).value;
      var start := BlockStart(g.rows, Exploder(ix), k);
      var orderCols := |g.columns| - 1;
      && |out.rows| >= |g.rows| == |f.rows|
      && start + j < |out.rows|
      && orderCols <= |out.columns|
      && out.rows[start + j] ==
           DropAt(f.rows[k], ix) + RowOf(out.columns[orderCols..], CellRecord(ListLike(g.rows[k][ix]).value[j]))
  {
    DecodedOrdersFrame(data, parse);
    assert FlattenOrders(data, parse) == Finish(Explode(g, ix), ix);
    FinishedRowAt(g, ix, k, j);
  }

  /** Row BlockStart + j of the finished frame: order k's cells without `items`, then its j-th
      item laid out under the item columns. */
  lemma FinishedRowAt(g: Frame, ix: nat, k: nat, j: nat)
    requires Rectangular(g) && ix < |g.columns| && k < |g.rows|
    requires ListLike(g.rows[k][ix]).Some? && j < |ListLike(g.rows[k][ix]).value|
    requires forall k :: 0 <= k < |g.rows| ==> FlatItemList(g.rows[k][ix])
    ensures Finish(Explode(g, ix), ix).Ok?
    ensures var out := Finish(Explode(g, ix), ix).value;
      var start := BlockStart(g.rows, Exploder(ix), k);
      var orderCols := |g.columns| - 1;
      && |out.rows| >= |g.rows|
      && start + j < |out.rows|
      && orderCols <= |out.columns|
      && out.rows[start + j] ==
           DropAt(g.rows[k], ix) + RowOf(out.columns[orderCols..], CellRecord(ListLike(g.rows[k][ix]).value[j]))
  {
    var e := Explode(g, ix);
    ExplodeCount(g, ix);
    ExplodedRowAt(g, ix, k, j);
    assert ExplodedAt(g, ix, k, j);
    ExplodeNoListItems(g, ix);
    FinishShape(e, ix);
    var out := Finish(e, ix).value;
    var itemCols := NormalizeCells(ColumnCells(e, ix)).value.columns;
    assert |DropAt(e.columns, ix)| == |g.columns| - 1;
    assert out.columns[|g.columns| - 1..] == itemCols;
  }
}
