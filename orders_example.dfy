/** A worked instance of the orders job: one order holding one flat item comes out as one
    row with the order's scalar fields followed by the item's fields. */
module OrdersExample {
  import opened Wrappers
  import opened JsonValues
  import opened FlatRecords
  import opened Frames
  import opened Seqs
  import opened OrdersFlatten

  /** The fields of an order with an order id, a customer id and a list of items. */
  function OrderFields(id: Json, customer: Json, items: seq<Json>): seq<(string, Json)>
  {
    [("order_id", id), ("customer_id", customer), (ItemsColumn, JArr(items))]
  }

  /** Step 2: an order of scalar fields becomes one row; its `items` list stays a cell. */
  lemma OneOrderFrame(doc: Json, id: Json, customer: Json, item: Json)
    requires !id.JObj? && !customer.JObj?
    requires doc == JObj([(OrdersKey, JArr([JObj(OrderFields(id, customer, [item]))]))])
    ensures OrdersFrame(doc) == Ok(Frame(["order_id", "customer_id", ItemsColumn], [[Val(id), Val(customer), Val(JArr([item]))]]))
  {
    var fs := OrderFields(id, customer, [item]);
    assert Get(doc.fields, OrdersKey) == Some(JArr([JObj(fs)]));
    assert OrdersFrame(doc) == JsonNormalize(JArr([JObj(fs)]));
    OrderFieldsFlat(id, customer, [item]);
    FlatDictFrame(fs);
  }

  /** The order's three fields are distinct and none is a dict: its keys in order, its values in order. */
  lemma OrderFieldsFlat(id: Json, customer: Json, items: seq<Json>)
    requires !id.JObj? && !customer.JObj?
    ensures var fs := OrderFields(id, customer, items);
      && DistinctKeys(fs) && (forall j :: 0 <= j < |fs| ==> !fs[j].1.JObj?)
      && Keys(fs) == ["order_id", "customer_id", ItemsColumn]
      && Values(fs) == [Val(id), Val(customer), Val(JArr(items))]
  {
    var fs := OrderFields(id, customer, items);
    assert fs[0].0 != fs[1].0 && fs[0].0 != fs[2].0 && fs[1].0 != fs[2].0;
  }

  /** A list holding one flat dict normalises to that dict's keys over its values. */
  lemma FlatDictFrame(fs: seq<(string, Json)>)
    requires DistinctKeys(fs) && forall j :: 0 <= j < |fs| ==> !fs[j].1.JObj?
    ensures JsonNormalize(JArr([JObj(fs)])) == Ok(Frame(Keys(fs), [Values(fs)]))
  {
    FlattenScalarObject(fs);
    var es := [JObj(fs)];
    assert NoListElements(es);
    NormalizeList(es);
    assert ElementRecords(es) == [fs];
    SingleRecordFrame(fs);
  }

  /** Step 3, first half: a list cell is not text, so decoding leaves it as it is. */
  lemma OneOrderDecoded(doc: Json, parse: string -> Option<Json>, id: Json, customer: Json, item: Json)
    requires !id.JObj? && !customer.JObj?
    requires doc == JObj([(OrdersKey, JArr([JObj(OrderFields(id, customer, [item]))]))])
    ensures DecodedOrders(doc, parse) == Ok((Frame(["order_id", "customer_id", ItemsColumn], [[Val(id), Val(customer), Val(JArr([item]))]]), 2))
  {
    OneOrderFrame(doc, id, customer, item);
    var cols := ["order_id", "customer_id", ItemsColumn];
    var rows := [[Val(id), Val(customer), Val(JArr([item]))]];
    assert ColumnIndex(cols, ItemsColumn) == Ok(2);
    var d := DecodeItems(rows, 2, parse);
    assert AllTextDecodes(rows, 2, parse);
    assert d.value[0] == rows[0];
    assert d.value == rows;
  }

  /** Step 3, second half: a one-element list explodes into one row holding that element. */
  lemma OneOrderExploded(id: Json, customer: Json, item: Json)
    ensures Explode(Frame(["order_id", "customer_id", ItemsColumn], [[Val(id), Val(customer), Val(JArr([item]))]]), 2)
         == Frame(["order_id", "customer_id", ItemsColumn], [[Val(id), Val(customer), Val(item)]])
  {
    var row := [Val(id), Val(customer), Val(JArr([item]))];
    var items := ListLike(row[2]).value;
    assert items == [Val(item)];
    var block := ExplodeRow(row, 2);
    assert |block| == 1 && block[0][2] == Val(item);
    assert DropAt(block[0], 2) == DropAt(row, 2);
    assert block[0] == [Val(id), Val(customer), Val(item)] by {
      assert block[0][0] == DropAt(block[0], 2)[0] == row[0];
      assert block[0][1] == DropAt(block[0], 2)[1] == row[1];
    }
    var rows := [row];
    assert FlatMap(rows, Exploder(2)) == block + FlatMap(rows[1..], Exploder(2));
    assert rows[1..] == [];
  }

  /** The one-row exploded frame whose `items` cell holds `item`. */
  function ItemFrame(id: Json, customer: Json, item: Json): Frame
  {
    Frame(["order_id", "customer_id", ItemsColumn], [[Val(id), Val(customer), Val(item)]])
  }

  /** Step 4: a flat item dict normalises to its keys over its values. */
  lemma OneItemCells(id: Json, customer: Json, its: seq<(string, Json)>)
    requires DistinctKeys(its) && forall i :: 0 <= i < |its| ==> !its[i].1.JObj?
    ensures NormalizeCells(ColumnCells(ItemFrame(id, customer, JObj(its)), 2)) == Ok(Frame(Keys(its), [Values(its)]))
  {
    var cells := ColumnCells(ItemFrame(id, customer, JObj(its)), 2);
    assert cells == [Val(JObj(its))];
    FlattenScalarObject(its);
    NormalizeCellRecords(cells);
    assert CellRecords(cells) == [its];
    SingleRecordFrame(its);
  }

  /** Step 5, first half: dropping `items` leaves the order's own cells. */
  lemma OneItemDropped(id: Json, customer: Json, item: Json)
    ensures DropColumn(ItemFrame(id, customer, item), 2) == Frame(["order_id", "customer_id"], [[Val(id), Val(customer)]])
  {
    var row := [Val(id), Val(customer), Val(item)];
    assert DropAt(row, 2) == [Val(id), Val(customer)];
    assert DropAt(["order_id", "customer_id", ItemsColumn], 2) == ["order_id", "customer_id"];
  }

  /** Step 5: the order cells beside the item cells. */
  lemma OneItemFinished(id: Json, customer: Json, its: seq<(string, Json)>)
    requires DistinctKeys(its) && forall i :: 0 <= i < |its| ==> !its[i].1.JObj?
    ensures Finish(ItemFrame(id, customer, JObj(its)), 2)
         == Ok(Frame(["order_id", "customer_id"] + Keys(its), [[Val(id), Val(customer)] + Values(its)]))
  {
    var e := ItemFrame(id, customer, JObj(its));
    OneItemCells(id, customer, its);
    OneItemDropped(id, customer, JObj(its));
    var a := Frame(["order_id", "customer_id"], [[Val(id), Val(customer)]]);
    var b := Frame(Keys(its), [Values(its)]);
    assert Finish(e, 2) == Ok(ConcatColumns(a, b));
    assert ConcatColumns(a, b).rows == [a.rows[0] + b.rows[0]];
  }

  /** One order with one flat item: the job writes one row, the order's scalars followed by
      the item's fields, under the order keys followed by the item keys. */
  lemma OneOrderFlattens(doc: Json, parse: string -> Option<Json>, id: Json, customer: Json, its: seq<(string, Json)>)
    requires !id.JObj? && !customer.JObj?
    requires DistinctKeys(its) && forall i :: 0 <= i < |its| ==> !its[i].1.JObj?
    requires doc == JObj([(OrdersKey, JArr([JObj(OrderFields(id, customer, [JObj(its)]))]))])
    ensures FlattenOrders(doc, parse) ==
      Ok(Frame(["order_id", "customer_id"] + Keys(its), [[Val(id), Val(customer)] + Values(its)]))
  {
    OneOrderDecoded(doc, parse, id, customer, JObj(its));
    OneOrderExploded(id, customer, JObj(its));
    OneItemFinished(id, customer, its);
  }

  /** The order {"order_id": "1", "customer_id": "9", "items": [{"item_id": "a",
      "product_name": "X", "quantity": "2", "price": "5.0"}]}. */
  function SampleOrders(): Json
  {
    JObj([(OrdersKey, JArr([JObj(OrderFields(JStr("1"), JStr("9"), [JObj(SampleItem())]))]))])
  }

  /** The item of `SampleOrders`. */
  function SampleItem(): seq<(string, Json)>
  {
    [("item_id", JStr("a")), ("product_name", JStr("X")), ("quantity", JStr("2")), ("price", JStr("5.0"))]
  }

  /** The sample item is flat, with four distinct keys. */
  lemma SampleItemFlat()
    ensures DistinctKeys(SampleItem()) && forall i :: 0 <= i < |SampleItem()| ==> !SampleItem()[i].1.JObj?
    ensures Keys(SampleItem()) == ["item_id", "product_name", "quantity", "price"]
    ensures Values(SampleItem()) == [Val(JStr("a")), Val(JStr("X")), Val(JStr("2")), Val(JStr("5.0"))]
  {
  }

  /** The sample order comes out as the six columns order_id, customer_id, item_id,
      product_name, quantity, price over one row. */
  lemma SampleFlattens(doc: Json, parse: string -> Option<Json>)
    requires doc == SampleOrders()
    ensures FlattenOrders(doc, parse) ==
      Ok(Frame(["order_id", "customer_id", "item_id", "product_name", "quantity", "price"],
               [[Val(JStr("1")), Val(JStr("9")), Val(JStr("a")), Val(JStr("X")), Val(JStr("2")), Val(JStr("5.0"))]]))
  {
    SampleItemFlat();
    OneOrderFlattens(doc, parse, JStr("1"), JStr("9"), SampleItem());
    AppendFour(["order_id", "customer_id"], "item_id", "product_name", "quantity", "price");
    AppendFour([Val(JStr("1")), Val(JStr("9"))], Val(JStr("a")), Val(JStr("X")), Val(JStr("2")), Val(JStr("5.0")));
  }

  /** Two cells followed by four. */
  lemma AppendFour<T>(s: seq<T>, a: T, b: T, c: T, d: T)
    requires |s| == 2
    ensures s + [a, b, c, d] == [s[0], s[1], a, b, c, d]
  {
  }
}
