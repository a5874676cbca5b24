/** The products job (users_products_s3_flattened_json.py): the downloaded text is parsed
    as JSON, the value under "products" is flattened with json_normalize, and the frame is
    written out as CSV; any exception inside the try block is caught and reported instead. */
module ProductsFlatten {
  import opened Wrappers
  import opened JsonValues
  import opened FlatRecords
  import opened Frames

  const ProductsKey: string := "products"

  /** How `process_s3_json` ends: the flattened frame is written, or the exception is reported. */
  datatype Outcome = Written(frame: Frame) | Reported(error: PyError)

  /** `json.loads`, given as the parser `parse`; a text it rejects raises JSONDecodeError. */
  function Loads(content: string, parse: string -> Option<Json>): (r: Result<Json, PyError>)
    ensures r.Ok? <==> parse(content).Some?
    ensures r.Ok? ==> r.value == parse(content).value
    ensures r.Err? ==> r.error == JsonDecodeError(content)
  {
    match parse(content)
    case Some(d) => Ok(d)
    case None => Err(JsonDecodeError(content))
  }

  /** Lines 15 and 18: parse, subscript, normalise. */
  function Flatten(content: string, parse: string -> Option<Json>): (r: Result<Frame, PyError>)
    ensures parse(content).None? ==> r == Err(JsonDecodeError(content))
    ensures r.Ok? ==> Rectangular(r.value) && Distinct(r.value.columns)
  {
    var data :- Loads(content, parse);
    var products :- Subscript(data, ProductsKey);
    JsonNormalize(products)
  }

  /** The whole try/except: a written frame always has distinct columns and one cell per
      column in every row. */
  function ProcessS3Json(content: string, parse: string -> Option<Json>): (o: Outcome)
    ensures o.Written? ==> Rectangular(o.frame) && Distinct(o.frame.columns)
  {
    match Flatten(content, parse)
    case Ok(f) => Written(f)
    case Err(e) => Reported(e)
  }

  /** The products value a parsed document holds, if any. */
  function Products(content: string, parse: string -> Option<Json>): Option<Json>
  {
    if parse(content).Some? && parse(content).value.JObj? then Get(parse(content).value.fields, ProductsKey)
    else None
  }

  /** The job writes a frame exactly when the text parses to a dict whose "products" is a
      dict, or a list that does not put a list after a first element that is not one;
      otherwise it reports the exception the failing step raises. */
  lemma ProcessOutcomes(content: string, parse: string -> Option<Json>)
    ensures ProcessS3Json(content, parse).Written? <==>
      && Products(content, parse).Some?
      && (|| Products(content, parse).value.JObj?
          || (Products(content, parse).value.JArr? && !ListAfterDict(Products(content, parse).value.elems)))
    ensures parse(content).None? ==> ProcessS3Json(content, parse) == Reported(JsonDecodeError(content))
    ensures parse(content).Some? && !parse(content).value.JObj? ==> ProcessS3Json(content, parse) == Reported(TypeError)
    ensures parse(content).Some? && parse(content).value.JObj? && Products(content, parse).None? ==>
      ProcessS3Json(content, parse) == Reported(KeyError(ProductsKey))
    ensures Products(content, parse).Some? && !Products(content, parse).value.JArr? && !Products(content, parse).value.JObj? ==>
      ProcessS3Json(content, parse) == Reported(NotImplementedError)
    ensures var p := Products(content, parse);
      p.Some? && p.value.JArr? && ListAfterDict(p.value.elems) ==> ProcessS3Json(content, parse) == Reported(AttributeError)
  {
  }

  /** A list of products whose first element is itself a list is written positionally:
      columns "0", "1", ... up to the longest element, a list element's normalised items
      from the left, a dict element's flattened keys, NaN past a row's end. */
  lemma PositionalProducts(content: string, parse: string -> Option<Json>, es: seq<Json>)
    requires Products(content, parse) == Some(JArr(es)) && |es| > 0 && es[0].JArr?
    ensures ProcessS3Json(content, parse).Written?
    ensures var f := ProcessS3Json(content, parse).frame;
      && |f.rows| == |es|
      && (forall j :: 0 <= j < |f.columns| ==> f.columns[j] == Decimal(j))
      && (forall i, j :: 0 <= i < |es| && 0 <= j < |f.columns| ==>
            f.rows[i][j] == if j < |PositionalItems(es[i])| then Val(PositionalItems(es[i])[j]) else Missing)
  {
    NormalizePositional(es);
    assert ProcessS3Json(content, parse) == Written(JsonNormalize(JArr(es)).value);
  }

  /** A list of products gives one row per element, in list order: row i is element i's
      flat record laid out under the frame's columns. */
  lemma ProductRows(content: string, parse: string -> Option<Json>, es: seq<Json>)
    requires Products(content, parse) == Some(JArr(es)) && NoListElements(es)
    ensures ProcessS3Json(content, parse).Written?
    ensures var f := ProcessS3Json(content, parse).frame;
      && |f.rows| == |es|
      && forall i :: 0 <= i < |es| ==> f.rows[i] == RowOf(f.columns, ElementRecord(es[i]))
  {
    NormalizeList(es);
  }

  /** The columns are the keys of the elements' flat records, no more and no fewer. */
  lemma ProductColumns(content: string, parse: string -> Option<Json>, es: seq<Json>, c: string)
    requires Products(content, parse) == Some(JArr(es)) && NoListElements(es)
    ensures ProcessS3Json(content, parse).Written?
    ensures c in ProcessS3Json(content, parse).frame.columns <==>
      exists i :: 0 <= i < |es| && c in Keys(ElementRecord(es[i]))
  {
    NormalizeList(es);
    FromRecordsColumns(ElementRecords(es), c);
    assert forall i :: 0 <= i < |es| ==> ElementRecords(es)[i] == ElementRecord(es[i]);
  }

  /** A cell is NaN exactly where its product has no such leaf; a filled cell holds a leaf of
      that product under the cell's column name, and never a dict. */
  lemma ProductCells(content: string, parse: string -> Option<Json>, es: seq<Json>, i: nat, j: nat)
    requires Products(content, parse) == Some(JArr(es)) && NoListElements(es)
    requires i < |es| && es[i].JObj?
    ensures ProcessS3Json(content, parse).Written?
    ensures var f := ProcessS3Json(content, parse).frame;
      j < |f.columns| ==>
        && (f.rows[i][j] == Missing <==> f.columns[j] !in Keys(FlattenObject(es[i].fields)))
        && (f.rows[i][j].Val? ==>
              (f.columns[j], f.rows[i][j].v) in LeafList(es[i].fields) && !f.rows[i][j].v.JObj?)
  {
    var recs := ElementRecords(es);
    NormalizeList(es);
    FromRecordsCells(recs);
    FlattenObjectSound(es[i].fields);
  }

  /** A top-level non-dict value of a product, unclashed by a nested path of the same name,
      keeps its key as its column name. */
  lemma ProductTopLevel(content: string, parse: string -> Option<Json>, es: seq<Json>, i: nat, k: string, v: Json)
    requires Products(content, parse) == Some(JArr(es)) && NoListElements(es)
    requires i < |es| && es[i].JObj? && DistinctKeys(es[i].fields) && (k, v) in es[i].fields && !v.JObj?
    requires forall q :: q in NestedLeaves(es[i].fields) ==> q.0 != k
    ensures ProcessS3Json(content, parse).Written?
    ensures var f := ProcessS3Json(content, parse).frame;
      exists j :: 0 <= j < |f.columns| && f.columns[j] == k && f.rows[i][j] == Val(v)
  {
    TopLevelColumn(es[i].fields, k, v);
    InRecordColumn(es, i, k, v);
    assert ProcessS3Json(content, parse) == Written(JsonNormalize(JArr(es)).value);
  }

  /** A nested value reached through keys k1, ..., kn (as `name.first_name` or
      `contact.email`) lands in column "k1. ... .kn" of the product's row. */
  lemma ProductNestedColumn(content: string, parse: string -> Option<Json>, es: seq<Json>, i: nat, path: seq<string>, v: Json)
    requires Products(content, parse) == Some(JArr(es)) && NoListElements(es)
    requires i < |es| && es[i].JObj? && |path| >= 1 && LeafAt(es[i], path) == Some(v)
    requires forall q :: q in LeafList(es[i].fields) && q.0 == PathName("", path) ==> q.1 == v
    ensures ProcessS3Json(content, parse).Written?
    ensures var f := ProcessS3Json(content, parse).frame;
      exists j :: 0 <= j < |f.columns| && f.columns[j] == PathName("", path) && f.rows[i][j] == Val(v)
  {
    var name := PathName("", path);
    PathColumn(es[i].fields, path, v);
    InRecordColumn(es, i, name, v);
    assert ProcessS3Json(content, parse) == Written(JsonNormalize(JArr(es)).value);
  }

  /** A pair of element i's flat record shows up in row i under its key. */
  lemma InRecordColumn(es: seq<Json>, i: nat, k: string, v: Json)
    requires NoListElements(es)
    requires i < |es| && es[i].JObj? && Get(FlattenObject(es[i].fields), k) == Some(v)
    ensures var f := JsonNormalize(JArr(es)).value;
      exists j :: 0 <= j < |f.columns| && f.columns[j] == k && f.rows[i][j] == Val(v)
  {
    var recs := ElementRecords(es);
    NormalizeList(es);
    assert recs[i] == FlattenObject(es[i].fields);
    assert (k, v) in recs[i];
    RecordInRow(recs, i, k, v);
  }

  /** Products that are flat dicts with the same keys in the same order come out unchanged:
      those keys are the columns and each product's values are its row. */
  lemma UniformProducts(content: string, parse: string -> Option<Json>, es: seq<Json>, ks: seq<string>)
    requires Products(content, parse) == Some(JArr(es)) && |es| >= 1
    requires forall i :: 0 <= i < |es| ==>
      && es[i].JObj? && DistinctKeys(es[i].fields) && Keys(es[i].fields) == ks
      && forall j :: 0 <= j < |es[i].fields| ==> !es[i].fields[j].1.JObj?
    ensures ProcessS3Json(content, parse) ==
      Written(Frame(ks, seq(|es|, i requires 0 <= i < |es| => Values(es[i].fields))))
  {
    UniformFrame(es, ks);
    NormalizeList(es);
    WrittenNormalized(content, parse, JArr(es));
  }

  /** A successful normalisation of the products is what the job writes. */
  lemma WrittenNormalized(content: string, parse: string -> Option<Json>, products: Json)
    requires Products(content, parse) == Some(products) && JsonNormalize(products).Ok?
    ensures ProcessS3Json(content, parse) == Written(JsonNormalize(products).value)
  {
  }

  lemma UniformFrame(es: seq<Json>, ks: seq<string>)
    requires |es| >= 1
    requires forall i :: 0 <= i < |es| ==>
      && es[i].JObj? && DistinctKeys(es[i].fields) && Keys(es[i].fields) == ks
      && forall j :: 0 <= j < |es[i].fields| ==> !es[i].fields[j].1.JObj?
    ensures NoListElements(es)
    ensures FromRecords(ElementRecords(es)) ==
      Frame(ks, seq(|es|, i requires 0 <= i < |es| => Values(es[i].fields)))
  {
    var recs := seq(|es|, i requires 0 <= i < |es| => es[i].fields);
    ScalarRecords(es);
    UniformRecords(recs, ks);
    assert seq(|recs|, i requires 0 <= i < |recs| => Values(recs[i])) ==
      seq(|es|, i requires 0 <= i < |es| => Values(es[i].fields));
  }

  /** Dicts of non-dict values with distinct keys are their own flat records. */
  lemma ScalarRecords(es: seq<Json>)
    requires forall i :: 0 <= i < |es| ==>
      && es[i].JObj? && DistinctKeys(es[i].fields)
      && forall j :: 0 <= j < |es[i].fields| ==> !es[i].fields[j].1.JObj?
    ensures NoListElements(es)
    ensures ElementRecords(es) == seq(|es|, i requires 0 <= i < |es| => es[i].fields)
  {
    var recs := ElementRecords(es);
    forall i | 0 <= i < |es|
      ensures recs[i] == es[i].fields
    {
      FlattenScalarObject(es[i].fields);
    }
  }

  /** Products that are dicts of non-dict values, whatever their keys, keep their pairs:
      the columns are the products' keys in first-seen order, and row i holds product i's
      value under each of its keys and NaN under every other column. */
  lemma ScalarProducts(content: string, parse: string -> Option<Json>, es: seq<Json>)
    requires Products(content, parse) == Some(JArr(es))
    requires forall i :: 0 <= i < |es| ==>
      && es[i].JObj? && DistinctKeys(es[i].fields)
      && forall j :: 0 <= j < |es[i].fields| ==> !es[i].fields[j].1.JObj?
    ensures ProcessS3Json(content, parse).Written?
    ensures var f := ProcessS3Json(content, parse).frame;
      && f.columns == ColumnUnion(seq(|es|, i requires 0 <= i < |es| => es[i].fields))
      && |f.rows| == |es|
      && forall i, j :: 0 <= i < |es| && 0 <= j < |f.columns| ==>
           f.rows[i][j] == CellOf(Get(es[i].fields, f.columns[j]))
  {
    ScalarRecords(es);
    NormalizeList(es);
    WrittenNormalized(content, parse, JArr(es));
  }

  /** A single dict under "products" is one row: its leaves, in order, are the columns. */
  lemma SingleProduct(content: string, parse: string -> Option<Json>, fields: seq<(string, Json)>)
    requires Products(content, parse) == Some(JObj(fields))
    ensures ProcessS3Json(content, parse) ==
      Written(Frame(Keys(FlattenObject(fields)), [Values(FlattenObject(fields))]))
  {
    NormalizeObject(fields);
  }
}
