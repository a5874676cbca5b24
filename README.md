# JSON flattening and merge pipeline — a Dafny model

The repository holds three AWS Glue job scripts that together form one data-shape pipeline.

1. **Orders.** `orders_s3_flatten_json.py` proceeds in these steps:
   - it flattens the list under `orders` into one row per order;
   - it decodes any `items` cell that holds JSON text;
   - it explodes the rows on `items`, one row per item, copying the other cells;
   - it flattens the items in their turn;
   - it replaces the `items` column by the item columns, placed side by side by position.
2. **Products and users.** `users_products_s3_flattened_json.py` flattens the list (or dict) under `products` with `json_normalize` inside a `try` block. Any exception is reported, not propagated.
3. **Merge.** `final_job.py` works on the three CSV outputs:
   - it left-joins orders to users on `customer_id = user_id`;
   - it left-joins the result to products on `product_name`;
   - it selects 13 aliased columns;
   - it declares the same 13 names, with types, for the catalog table.

The model is written as pure functions. The source has no loops in this part, and the one in-place column update is modelled as a function from frame to frame. The model is organised in these modules:

- `JsonValues`: the JSON tree, Python's `d[k]` with its `TypeError` and `KeyError`, and the exceptions the jobs can raise.
- `FlatRecords`: the way `json_normalize` flattens one dict. It puts the top-level non-dict values first, then the nested leaves under `parent.child` names, with later pairs overwriting earlier ones.
- `Frames`:
  - a DataFrame is a list of columns and rows of cells, where a missing cell is NaN;
  - the columns are the first-seen union of the records' keys;
  - the module also defines `json_normalize` itself on a list, a dict or anything else, with the three ways the `DataFrame` built from a list can come out:
    - a list whose first element is not a list becomes one flat record per element;
    - a list whose first element is a list becomes positional columns `0`, `1`, …;
    - a list that holds a list after a first element that is not one raises AttributeError.
- `OrdersFlatten`: the orders job. `OrdersExample` works through the six-column sample order.
- `ProductsFlatten`: the products (and users) job, with its error path as an `Outcome`.
- `SparkTables`:
  - Spark values are text or null, and columns carry their source DataFrame, so `orders_df["product_name"]` and `products_df["product_name"]` are different attributes;
  - reading a CSV file with a header is modelled;
  - name resolution is modelled: a name matching no column is unresolved, and a name matching two columns is ambiguous;
  - the left equi-join is modelled: a null never matches, an unmatched row is padded with nulls, and a row is repeated once per match.
- `FinalJob`: the two joins, the projection, the catalog schema, and the `full_name` expression (see Findings).

`json.loads` is a parameter `parse: string -> Option<Json>` (None is a `JSONDecodeError`). The CSV text a job writes is also the next job's input. The Spark side starts from a parsed `Csv` value (a header and records of text), and the two CSV formats are not connected in the model.

## Model

| member | source | states |
|---|---|---|
| JsonValues.Subscript | orders_s3_flatten_json.py:20 | `data[key]` succeeds exactly on a dict holding the key, giving that key's value; a non-dict raises TypeError, a missing key KeyError(key) |
| JsonValues.Get | users_products_s3_flattened_json.py:18 | a lookup finds a value exactly when the key is one of the dict's keys, and the pair is in the dict |
| JsonValues.GetDistinct | users_products_s3_flattened_json.py:18 | in a dict with distinct keys, the lookup of a pair's key gives that pair's value |
| FlatRecords.Leaves | users_products_s3_flattened_json.py:18 | the leaves collected from a nested dict are never dicts |
| FlatRecords.ScalarFields | users_products_s3_flattened_json.py:18 | the top-level pairs kept are exactly the non-dict ones, with distinct keys kept distinct; a dict with no nested dict is kept whole |
| FlatRecords.ObjectFields | users_products_s3_flattened_json.py:18 | the pairs recursed into are exactly the dict-valued ones |
| FlatRecords.Latest | users_products_s3_flattened_json.py:18 | the value a key ends with is one of the pairs assigned to it; no value means the key was never assigned |
| FlatRecords.PutGet | users_products_s3_flattened_json.py:18 | after `d[k] = v`, k reads v and every other key reads what it read before |
| FlatRecords.PutDistinct | users_products_s3_flattened_json.py:18 | assignment keeps a dict's keys distinct |
| FlatRecords.PutFresh | users_products_s3_flattened_json.py:18 | assigning a new key appends it at the end (dict insertion order) |
| FlatRecords.PutAllGet | users_products_s3_flattened_json.py:18 | after a sequence of assignments, a key reads its last assigned value, or its old value if never assigned |
| FlatRecords.PutAllDistinct | users_products_s3_flattened_json.py:18 | a sequence of assignments keeps keys distinct |
| FlatRecords.PutAllFresh | users_products_s3_flattened_json.py:18 | assigning only new, distinct keys appends them in order |
| FlatRecords.FlattenObjectSound | users_products_s3_flattened_json.py:18 | each column of a flattened record holds the last leaf listed under that dotted name, and every pair is such a leaf, never a dict |
| FlatRecords.FlattenScalarObject | users_products_s3_flattened_json.py:18 | a dict with no nested dict flattens to itself, unchanged |
| FlatRecords.LatestAppend | users_products_s3_flattened_json.py:18 | in the scalars-then-nested order, a nested leaf overrides a top-level value of the same name |
| FlatRecords.LatestDistinct | users_products_s3_flattened_json.py:18 | with distinct keys, a key ends with its only value |
| FlatRecords.TopLevelColumn | users_products_s3_flattened_json.py:18 | a top-level non-dict value that no nested path shadows keeps its key as column name and its value |
| FlatRecords.PieceInLeaves | users_products_s3_flattened_json.py:18 | a leaf of any field (itself, or a leaf of its nested dict under the extended prefix) is a leaf of the whole dict |
| FlatRecords.LeafInLeaves | users_products_s3_flattened_json.py:18 | the value at key path k1...kn is listed as a leaf named prefix.k1. ... .kn |
| FlatRecords.GetObjectFields | users_products_s3_flattened_json.py:18 | a dict-valued key is found among the dict-valued fields with the same value |
| FlatRecords.FlattenObject | users_products_s3_flattened_json.py:18 | the flat record of one dict is a dict: no column appears twice (what it holds is stated by FlattenObjectSound, FlattenScalarObject and PathColumn) |
| FlatRecords.PathColumn | final_job.py:41-42 | the value at path k1...kn is the flattened record's value under the column "k1. ... .kn" (as `name.first_name`, `contact.email`) when no other leaf has that name |
| FlatRecords.TopLevelName | users_products_s3_flattened_json.py:18 | a top-level key is its own column name, with no prefix or separator |
| FlatRecords.PathLeafListed | final_job.py:41-42 | the value at a key path is among the listed leaves under its dotted name |
| Frames.AddColumns | users_products_s3_flattened_json.py:18 | adding a record's keys to the columns gives exactly the old columns and those keys |
| Frames.AddFreshColumns | users_products_s3_flattened_json.py:18 | new keys are appended after the existing columns, in their own order |
| Frames.AddColumnsDistinct | users_products_s3_flattened_json.py:18 | adding keys never duplicates a column |
| Frames.ColumnUnionDistinct | users_products_s3_flattened_json.py:18 | the column union of records has no duplicate |
| Frames.ColumnUnionKeys | users_products_s3_flattened_json.py:18 | a name is a column exactly when some record has it as a key |
| Frames.ColumnUnionOnlyKeys | users_products_s3_flattened_json.py:18 | every column comes from some record's keys (induction step) |
| Frames.ColumnUnionAllKeys | users_products_s3_flattened_json.py:18 | every record key is a column (induction step) |
| Frames.KeysDistinct | users_products_s3_flattened_json.py:18 | a record with distinct keys has a duplicate-free key list |
| Frames.RowOf | users_products_s3_flattened_json.py:18 | a record laid out under the columns has one cell per column |
| Frames.FromRecords | users_products_s3_flattened_json.py:18 | the DataFrame of records has the column union as columns, one row per record and one cell per column |
| Frames.FromRecordsCells | users_products_s3_flattened_json.py:18 | a cell is NaN exactly where its record lacks the column, and a filled cell is that record's pair |
| Frames.FromRecordsColumns | users_products_s3_flattened_json.py:18 | the columns are exactly the keys some record has |
| Frames.RecordInRow | users_products_s3_flattened_json.py:18 | every pair of record i appears in row i under its key |
| Frames.ElementRecord | users_products_s3_flattened_json.py:18 | the record of one element has distinct keys; an element that is not a dict gives the empty record (all columns NaN) |
| Frames.Normalised | users_products_s3_flattened_json.py:18 | a list element keeps its list shape and length, each of its elements normalised in turn; a dict becomes a flat record with distinct keys; a scalar an empty dict |
| Frames.PositionalItems | users_products_s3_flattened_json.py:18 | a list row lays out its own elements, as many as it has |
| Frames.Width | users_products_s3_flattened_json.py:18 | the positional width is the length of the longest row: no row is longer, and some row is that long |
| Frames.Decimal | users_products_s3_flattened_json.py:18 | a positional column label's text is a non-empty run of decimal digits with no leading zero (except for label 0), two or more digits from 10 on |
| Frames.DecimalRoundTrip | users_products_s3_flattened_json.py:18 | reading a label's text back as a decimal number gives the label |
| Frames.DecimalStep | users_products_s3_flattened_json.py:18 | for q > 0 and a digit d, the text of 10q + d is the text of q followed by d |
| Frames.DecimalInjective | users_products_s3_flattened_json.py:18 | two labels with the same text are the same label |
| Frames.PaddedRow | users_products_s3_flattened_json.py:18 | a positional row has one cell per column |
| Frames.PositionalFrame | users_products_s3_flattened_json.py:18 | the positional frame has one row per element, as many columns as the longest row, one cell per column in every row |
| Frames.PositionalDistinct | users_products_s3_flattened_json.py:18 | the positional labels are distinct |
| Frames.ListFrame | users_products_s3_flattened_json.py:18 | `DataFrame` of the normalised elements raises AttributeError exactly when a list follows a first element that is not a list; otherwise one row per element, rectangular, distinct columns |
| Frames.ElementRecords | users_products_s3_flattened_json.py:18 | one record per list element, each with distinct keys |
| Frames.JsonNormalize | users_products_s3_flattened_json.py:18 | `json_normalize` succeeds exactly on a dict, or on a list that does not put a list after a first non-list element; a scalar raises NotImplementedError and such a list AttributeError; a list gives one row per element, a dict one row; rows are rectangular and columns distinct |
| Frames.NormalizeList | users_products_s3_flattened_json.py:18 | a list holding no list gives the records frame: one row per element in list order, row i laying out element i's flat record |
| Frames.NormalizePositional | users_products_s3_flattened_json.py:18 | a list whose first element is a list gives columns labelled 0, 1, ... up to the longest row; cell (i, j) is element i's j-th positional item, NaN past its end |
| Frames.PositionalListRow | users_products_s3_flattened_json.py:18 | a list element of such a list is laid out whole, each of its elements normalised |
| Frames.Values | users_products_s3_flattened_json.py:18 | a record's values form one cell per pair |
| Frames.SingleRecordFrame | users_products_s3_flattened_json.py:18 | one record is a frame whose columns are its keys in order and whose one row is its values |
| Frames.NormalizeObject | users_products_s3_flattened_json.py:18 | a dict normalises to one row: its flat record's keys over its values |
| Frames.NormalizeCells | orders_s3_flatten_json.py:27 | normalising a column raises AttributeError exactly when its values put a list after a first non-list value; otherwise one row per cell, rectangular, with distinct columns |
| Frames.CellJson | orders_s3_flatten_json.py:27 | a cell is normalised as its value; a NaN cell as a scalar, neither list nor dict |
| Frames.CellValues | orders_s3_flatten_json.py:27 | one value per cell |
| Frames.CellRecord | orders_s3_flatten_json.py:27 | the record of one cell has distinct keys; a NaN cell gives the empty record |
| Frames.NormalizeCellRecords | orders_s3_flatten_json.py:27 | cells none of which holds a list give the records frame of the cells' records |
| Frames.AddKnownColumns | users_products_s3_flattened_json.py:18 | keys that are already columns add none |
| Frames.UniformRecords | users_products_s3_flattened_json.py:18 | records sharing one key list give those keys as columns and each record's values as its row |
| Frames.UniformColumns | users_products_s3_flattened_json.py:18 | records sharing one key list have that list as column union |
| Seqs.FlatMapLength | orders_s3_flatten_json.py:24 | the concatenated blocks have the sum of the block lengths |
| Seqs.FlatMapAppend | orders_s3_flatten_json.py:24 | the blocks of two row lists are those of each, one after the other |
| Seqs.FlatMapAtLeast | final_job.py:33 | when every row gives at least one row, there are at least as many output rows |
| Seqs.FlatMapExactlyOne | final_job.py:33 | when every row gives exactly one row, the count is kept |
| Seqs.FlatMapMember | final_job.py:33 | an output row is in the result exactly when some input row's block contains it |
| Seqs.FlatMapBlock | orders_s3_flatten_json.py:24 | the block of input row k sits, whole and consecutive, at its start position |
| Seqs.FlatMapAt | orders_s3_flatten_json.py:24 | element j of input row k's block is output element start(k)+j |
| OrdersFlatten.ColumnIndex | orders_s3_flatten_json.py:23 | `df['items']` finds the first column of that name exactly when there is one, else KeyError('items') |
| OrdersFlatten.OrdersFrame | orders_s3_flatten_json.py:20 | the order frame fails with TypeError on a non-dict document and KeyError('orders') without `orders`; otherwise it is rectangular with distinct columns |
| OrdersFlatten.DecodedOrders | orders_s3_flatten_json.py:20-23 | after decoding, the columns are the order frame's, with `items` at the returned position, and the order count is kept |
| OrdersFlatten.ListLike | orders_s3_flatten_json.py:24 | `explode` spreads a list over its elements and a dict over its keys; nothing else is list-like |
| OrdersFlatten.DecodeItems | orders_s3_flatten_json.py:23 | succeeds exactly when every text `items` cell parses; then a text cell becomes its parsed value, every other cell (other columns, non-text items) is unchanged, and the row count is kept |
| OrdersFlatten.DropAt | orders_s3_flatten_json.py:30 | dropping a column removes one cell |
| OrdersFlatten.ExplodeRow | orders_s3_flatten_json.py:24 | a row becomes as many rows as its list-like has elements (one if empty or not list-like, so never none); each carries the row's other cells unchanged; element j goes to row j; an empty list-like gives NaN; a scalar leaves the row as it is |
| OrdersFlatten.Explode | orders_s3_flatten_json.py:24 | exploding keeps the columns and never loses a row |
| OrdersFlatten.ColumnCells | orders_s3_flatten_json.py:27 | the `items` column has one cell per row |
| OrdersFlatten.DropColumn | orders_s3_flatten_json.py:30 | dropping a column removes one column name and one cell per row, and keeps the row count |
| OrdersFlatten.ConcatColumns | orders_s3_flatten_json.py:31 | the columns of the first frame, then the second's; row i is row i of the first beside row i of the second |
| OrdersFlatten.Finish | orders_s3_flatten_json.py:27-31 | the item step raises AttributeError exactly when the exploded items put a list after a first item that is not one; otherwise it keeps the exploded row count |
| OrdersFlatten.FlattenOrders | orders_s3_flatten_json.py:20-31 | a successful run has at least one row per order |
| OrdersFlatten.OrdersOneRowEach | orders_s3_flatten_json.py:20 | flattening `data['orders']`, a list holding no list, gives one row per order, in list order |
| OrdersFlatten.FlattenOrdersSucceeds | orders_s3_flatten_json.py:20-31 | the job fails on a non-dict document with TypeError, without `orders` with KeyError('orders'), on an orders list with a list after a non-list first order with AttributeError, without an `items` column with KeyError('items'); decoding succeeds exactly when every text item parses, and the job exactly when, in addition, the exploded items put no list after a non-list first item |
| OrdersFlatten.DecodedOrdersFrame | orders_s3_flatten_json.py:20-23 | the decoded frame keeps the order frame's distinct columns, its row count and every non-`items` cell |
| OrdersFlatten.DecodeKeepsOthers | orders_s3_flatten_json.py:23 | rewriting only the `items` cell leaves the rest of the row as it was |
| OrdersFlatten.ExplodeCount | orders_s3_flatten_json.py:24 | the exploded frame is rectangular and has the sum of the fan-outs, at least one per order |
| OrdersFlatten.ExplodeNoListItems | orders_s3_flatten_json.py:24-27 | when no items list holds a list, no exploded items cell is a list and the item step succeeds |
| OrdersFlatten.ExplodedCellFlat | orders_s3_flatten_json.py:24 | an exploded items cell is the original cell, NaN, or an element of its list |
| OrdersFlatten.FinishRecords | orders_s3_flatten_json.py:27 | items cells holding no list normalise to the records frame of the cells' records |
| OrdersFlatten.ExplodeFanOut | orders_s3_flatten_json.py:22-24 | an order with N ≥ 1 items gives N consecutive rows, row j holding item j and the order's other cells unchanged |
| OrdersFlatten.ExplodedRowAt | orders_s3_flatten_json.py:24 | exploded row start(k)+j has order k's width, item j in the items cell and order k's other cells |
| OrdersFlatten.FinishShape | orders_s3_flatten_json.py:27-31 | with no list among the items, the output columns are the order columns without `items` followed by the item columns; row i is exploded row i's other cells followed by item i's flat record laid out under the item columns |
| OrdersFlatten.FinishedRowAt | orders_s3_flatten_json.py:24-31 | row start(k)+j of the finished frame is order k's cells without `items`, then its j-th item laid out under the item columns |
| OrdersFlatten.FinishDropsItems | orders_s3_flatten_json.py:30-31 | the order part has no `items` column; one appears in the output only if some item has an `items` key itself |
| OrdersFlatten.DropAtRemoves | orders_s3_flatten_json.py:30 | dropping the only occurrence of a column leaves none |
| OrdersFlatten.ItemColumns | orders_s3_flatten_json.py:27 | a column is among the item columns exactly when some item's flat record has that key |
| OrdersFlatten.OrderItemRows | orders_s3_flatten_json.py:20-31 | when no items list holds a list, item j of order k is output row start(k)+j: the order's non-`items` cells followed by that item's fields; at least one output row per order |
| OrdersExample.OneOrderFrame | orders_s3_flatten_json.py:20 | an order of scalar fields becomes one row with its `items` list in a cell |
| OrdersExample.OrderFieldsFlat | orders_s3_flatten_json.py:20 | the sample order's three keys are distinct and none holds a dict |
| OrdersExample.FlatDictFrame | orders_s3_flatten_json.py:20 | a list of one flat dict normalises to its keys over its values |
| OrdersExample.OneOrderDecoded | orders_s3_flatten_json.py:23 | a list-valued `items` cell is left as it is |
| OrdersExample.OneOrderExploded | orders_s3_flatten_json.py:24 | a one-element list explodes into one row holding that element |
| OrdersExample.OneItemCells | orders_s3_flatten_json.py:27 | a flat item normalises to its keys over its values |
| OrdersExample.OneItemDropped | orders_s3_flatten_json.py:30 | dropping `items` leaves order_id and customer_id |
| OrdersExample.OneItemFinished | orders_s3_flatten_json.py:30-31 | the order cells followed by the item cells |
| OrdersExample.OneOrderFlattens | orders_s3_flatten_json.py:20-31 | one order with one flat item gives one row: order_id, customer_id, then the item's keys, with their values |
| OrdersExample.SampleFlattens | orders_s3_flatten_json.py:20-31 | the order {order_id "1", customer_id "9", items [{item_id "a", product_name "X", quantity "2", price "5.0"}]} gives columns order_id, customer_id, item_id, product_name, quantity, price over the one row of those six values |
| ProductsFlatten.Loads | users_products_s3_flattened_json.py:15 | parsing succeeds exactly when the text is JSON, else JSONDecodeError |
| ProductsFlatten.Flatten | users_products_s3_flattened_json.py:15-18 | text that is not JSON fails with JSONDecodeError; a flattened frame is rectangular with distinct columns |
| ProductsFlatten.ProcessS3Json | users_products_s3_flattened_json.py:10-30 | a written frame is rectangular with distinct columns |
| ProductsFlatten.ProcessOutcomes | users_products_s3_flattened_json.py:12-30 | a frame is written exactly when the text parses to a dict whose `products` is a dict, or a list that puts no list after a non-list first element; otherwise the error is reported, not raised: JSONDecodeError, TypeError, KeyError('products'), NotImplementedError or AttributeError for each failing step |
| ProductsFlatten.PositionalProducts | users_products_s3_flattened_json.py:18 | products whose first element is a list are written positionally: columns "0", "1", ..., row i holding element i's positional items and NaN past them |
| ProductsFlatten.ProductRows | users_products_s3_flattened_json.py:18 | one row per product in list order, row i laying out product i's flat record when no product is itself a list |
| ProductsFlatten.ProductColumns | users_products_s3_flattened_json.py:18 | the columns are exactly the union of the products' flattened keys when no product is itself a list |
| ProductsFlatten.ProductCells | users_products_s3_flattened_json.py:18 | a cell is NaN exactly when its product lacks that column; a filled cell is a leaf of that product under that name, never a dict when no product is itself a list |
| ProductsFlatten.ProductTopLevel | users_products_s3_flattened_json.py:18 | a top-level scalar field is copied unchanged under its own name when no product is itself a list |
| ProductsFlatten.ProductNestedColumn | users_products_s3_flattened_json.py:18 | a value nested under keys k1...kn lands in column "k1. ... .kn" of its product's row when no product is itself a list |
| ProductsFlatten.InRecordColumn | users_products_s3_flattened_json.py:18 | a pair of product i's flat record appears in row i under its key when no product is itself a list |
| ProductsFlatten.UniformProducts | users_products_s3_flattened_json.py:18 | flat products sharing one key list come out unchanged: those keys as columns, each product's values as its row, no column added |
| ProductsFlatten.ScalarProducts | users_products_s3_flattened_json.py:18 | dicts of non-dict values, whatever their keys: the columns are the keys in first-seen order; row i holds product i's value under each of its keys and NaN elsewhere |
| ProductsFlatten.SingleProduct | users_products_s3_flattened_json.py:18 | a single dict under `products` is one row of its flat record |
| SparkTables.CsvCell | final_job.py:24-26 | an empty CSV field reads as null, any other as exactly its text |
| SparkTables.Field | final_job.py:24-26 | a field reads as null exactly when the record is too short or the field empty, and otherwise as its text |
| SparkTables.Load | final_job.py:24-26 | a CSV with header gives one attribute per header name from that source and one row per record; a cell is null exactly when the field is empty or missing, otherwise the field's text |
| SparkTables.Hits | final_job.py:39-53 | the positions a reference denotes, all of them and in increasing order |
| SparkTables.Resolve | final_job.py:33-53 | a reference resolves to the one column it denotes; it is unresolved exactly when none does; an ambiguous error means two columns match |
| SparkTables.ResolveUnique | final_job.py:39-53 | a reference denoting exactly one column resolves to it |
| SparkTables.ResolveAmbiguous | final_job.py:36 | a reference denoting two columns fails as ambiguous |
| SparkTables.NamesResolve | final_job.py:33-36 | a name resolves exactly when it occurs once among the column names, and then to that column |
| SparkTables.LoadResolve | final_job.py:24-33 | a name resolves in a loaded table exactly when the CSV header holds it once |
| SparkTables.AttrResolve | final_job.py:39-53 | in a table of one source, resolving that source's attribute is resolving the name |
| SparkTables.ResolveLeft | final_job.py:39-53 | a reference found only in the left part of a join resolves to the same position |
| SparkTables.ResolveRight | final_job.py:39-53 | a reference found only in the right part resolves to its position shifted by the left width |
| SparkTables.ResolveSplit | final_job.py:39-53 | a reference resolved in a joined table is found in exactly one side and absent from the other |
| SparkTables.Matches | final_job.py:33-36 | the matching right rows are exactly those whose key equals the left key, never more rows than the right table has; a null key matches nothing (how often and in what order each row appears is stated by MatchesIndices) |
| SparkTables.KeyEquals | final_job.py:33-36 | the join condition holds exactly for two equal keys that are not null |
| SparkTables.MatchIndices | final_job.py:33-36 | the positions of the matching right rows, all of them and in increasing order |
| SparkTables.MatchesIndices | final_job.py:33-36 | the matches are the right rows at the matching positions, in right-table order: their number is the number of right rows with that key |
| SparkTables.UniqueKeyMatches | final_job.py:33 | a key that no two right rows share gives at most one match |
| SparkTables.Nulls | final_job.py:33 | the padding for an unmatched row is all nulls, one per right column |
| SparkTables.JoinRow | final_job.py:33 | a left row gives one joined row per match, or one if there is none, each beginning with the left row |
| SparkTables.JoinRowMatched | final_job.py:33-36 | row t of a matched left row's block is the left row followed by the t-th matching right row |
| SparkTables.LeftJoin | final_job.py:33-36 | the joined attributes are the left's then the right's, and no left row is lost |
| SparkTables.JoinOn | final_job.py:33-36 | the join succeeds exactly when both key names resolve, otherwise it fails with the first resolution error |
| SparkTables.LeftJoinValid | final_job.py:33-36 | joining two well-formed tables gives a well-formed one: every joined row has one cell per column of both sides |
| SparkTables.JoinRowWidth | final_job.py:33 | a joined row has the left width plus the right width |
| SparkTables.LeftJoinKeepsAll | final_job.py:33 | a left join keeps every left row at least once |
| SparkTables.LeftJoinAtMostOne | final_job.py:33 | with at most one match per row the row count is unchanged |
| SparkTables.LeftJoinUniqueKey | final_job.py:33 | joining on a key unique among the right rows (as user_id) keeps the left row count |
| SparkTables.LeftJoinBlock | final_job.py:33 | the rows of left row k are consecutive: one per match (k repeated) or one |
| SparkTables.LeftJoinUnmatched | final_job.py:33 | an unmatched left row appears once with all right columns null |
| SparkTables.LeftJoinMember | final_job.py:33 | a row is in the join exactly when it is some left row followed by a matching right row, or an unmatched left row followed by nulls |
| SparkTables.JoinRowMember | final_job.py:33 | the same characterisation for one left row |
| SparkTables.LeftJoinPrefix | final_job.py:33 | every joined row starts with some left row |
| FinalJob.CatalogMatchesSelection | final_job.py:39-97 | the catalog declares exactly the projection's aliases, in the same order, 13 of them |
| FinalJob.Bind | final_job.py:39-53 | `df["name"]` binds to a joined column that belongs to df and has that name |
| FinalJob.BindAll | final_job.py:39-53 | the select list binds exactly when every expression does |
| FinalJob.Concat | final_job.py:41 | the intended text `+`: null exactly when a side is null, otherwise the concatenation |
| FinalJob.Eval | final_job.py:39-53 | a selected expression is null exactly when some column it reads is null in the row |
| FinalJob.Project | final_job.py:39-53 | `select` succeeds exactly when every expression binds; its columns are the aliases, it keeps the row count, and each row has one cell per expression |
| FinalJob.FullName | final_job.py:41 | the intended `full_name`: null exactly when a name part is null, otherwise first name, one space, last name |
| FinalJob.LoadedLineage | final_job.py:24-26 | every loaded column is tagged with the DataFrame it was read into |
| FinalJob.RunShape | final_job.py:33-97 | a successful run outputs the catalog's columns, at least one row per order and 13 cells per row |
| FinalJob.MergeKeepsOrders | final_job.py:33-36 | after both joins there are at least as many rows as orders |
| FinalJob.MergeIsJoin | final_job.py:36 | the second join is a left join of the first join's result, not of `orders_df`, to products on product_name |
| FinalJob.MergeCoversOrders | final_job.py:33-36 | every order row begins some merged row |
| FinalJob.Merge | final_job.py:33-36 | the merged table has the orders' attributes, then the users', then the products', and loses no order row |
| FinalJob.MergeFromOrders | final_job.py:33-36 | every merged row begins with some order row |
| FinalJob.StartsWithTrans | final_job.py:33-36 | a row that begins with a row beginning with r begins with r |
| FinalJob.LeftJoinCovers | final_job.py:33 | every left row begins some joined row |
| FinalJob.SelectedColumn | final_job.py:40-52 | a selected `df["name"]` copies, row by row, the joined column that is df's attribute of that name |
| FinalJob.AliasedColumn | final_job.py:40-52 | a selected `df["name"]` appears under its alias and copies, row by row, the joined column that is df's attribute of that name |
| FinalJob.ProductNames | final_job.py:46-50 | `item_product_name` copies the orders side's product_name and `product_product_name` the products side's |
| FinalJob.FullNameColumn | final_job.py:41 | `full_name` is, row by row, the intended concatenation of the users' `name.first_name`, " " and `name.last_name` |
| FinalJob.JoinedNameColumn | final_job.py:41 | a selected `first + " " + last` evaluates row by row to the intended full name of those two columns |
| FinalJob.MergedAttrs | final_job.py:33-36 | the joined columns are the orders', users' and products' columns in that order |
| FinalJob.MergeSucceeds | final_job.py:33-36 | both joins succeed exactly when customer_id occurs once in orders, user_id once in users, and product_name once in the orders and users headers together and once in products |
| FinalJob.MergeResolves | final_job.py:33-36 | the merge succeeds exactly when its four key references resolve, the second join's left key among the orders then users attributes |
| FinalJob.BindColumn | final_job.py:39-53 | a name that occurs once in its source's header binds |
| FinalJob.BindColumnNamed | final_job.py:39-53 | a name that binds occurs once in its source's header |
| FinalJob.BindSucceeds | final_job.py:39-53 | an expression binds exactly when each column it names occurs once in its source's header |
| FinalJob.Run | final_job.py:24-53 | a successful run has the 13 aliases as its columns and at least one row per order record |
| FinalJob.RunSucceeds | final_job.py:24-53 | the job succeeds exactly when the join keys fit and every selected column occurs once in its source's header |
| FinalJob.RunWithoutCustomerId | final_job.py:33 | orders without customer_id fail with an unresolved customer_id |
| FinalJob.RunAmbiguousProductName | final_job.py:36 | users with a product_name column of their own make the second join's key ambiguous |
| FinalJob.OrderCellFromOrders | final_job.py:43-49 | a selected orders column holds, in every output row, that column's value from some order row |
| FinalJob.RunOrderCell | final_job.py:24-53 | on the CSV files themselves, a selected orders column holds in every output row the field under that header in some orders record |
| FinalJob.MergedRowFromOrder | final_job.py:33-36 | an orders-part cell of a merged row is the same cell of some order row |
| FinalJob.OrdersPart | final_job.py:33-36 | an orders attribute of the joined table lies in its orders part, at the same position |
| FinalJob.SparkPlus | final_job.py:41 | Spark's `+` on text is null when either side is null or cannot be cast to a number, as a run of spaces cannot |
| FinalJob.FullNameAsWrittenNull | final_job.py:41 | as written, `full_name` is null for every user |
| FinalJob.FullNameJaneDoe | final_job.py:41 | for Jane Doe the intended value is "Jane Doe" and the written one null |

## Left out

- S3 reads and writes, the `StringIO` buffer, `to_csv`, `final_df.write.json` and the `print` messages are I/O. The jobs start from the parsed document (orders), the downloaded text (products) or the parsed CSV files (merge).
- The CSV boundary between stages is not modelled. The Spark side reads a `Csv` value (header and records), not the text pandas writes.
- The CSV reader's rules are simplified:
  - a short record is padded with nulls and a long one truncated;
  - an empty field is null;
  - quoting is not modelled, and neither is the renaming of duplicate headers.
- Spark's case-insensitive name resolution is not modelled: names match exactly. Backtick quoting in `` users_df["`name.first_name`"] `` is taken as quoting the literal dotted name.
- Spark gives no row order for a join. The model fixes the natural order: left rows in order, and a row's matches in right-table order.
- JSON numbers are integers. Floating point is out of scope.
- The catalog types (`int`, `float`) are declared only. No cast happens in the code, and the model keeps every merged value as text or null.
- `schema_df` (final_job.py:29) is read but never used.
- The Spark session, the Glue context, the Glue database and the table creation (final_job.py:9-13, 61-117) are left out. Only the `schema` list is kept, as `FinalJob.CatalogSchema`.
- Distributed execution of the Spark jobs is not modelled.
- The users file is not part of this model. The script normalises whatever list sits under `products` in the file it is given; the merge takes its users CSV to be the output of that same normalisation run on a users file, with the users under its own key. `ProductsFlatten` models that one normalisation; the users file's layout and the key it uses are assumptions, not code.
- The model follows the code paths of pandas 2.x: `json_normalize` on a list goes through `_simple_json_normalize`, then `DataFrame` through `to_arrays`, which takes `to_object_array` when the first row is a list and `_list_of_dict_to_arrays` otherwise. Other pandas versions are not modelled. Within those paths these details are fixed one way:
  - an empty key and a key with a leading dot are not special-cased;
  - an exploded empty `items` list gives one NaN cell, and normalising that NaN cell, or any non-dict item, gives an empty record (all item columns NaN);
  - positional column labels (the integers 0, 1, ...) are modelled as their decimal text, which is the header `to_csv` writes for them;
  - the `None` that pads a short positional row is modelled as NaN (`Missing`); both are written as an empty CSV field.
- FinalJob.SparkPlus: the numeric cast-and-add of two texts is the parameter `add`. Only the casts that surely fail (null, or only spaces) are spelled out. ANSI mode, where a failed cast raises, is not modelled.
- FinalJob.RunWithoutCustomerId: a missing join or filter column is reported as `Unresolved(name)`. In PySpark the three column references `orders_df.customer_id`, `users_df.user_id` (final_job.py:33) and `merged_df.product_name` (final_job.py:36) are attribute accesses, which raise `AttributeError` through `__getattr__` rather than an analysis error; the model does not tell the two exception kinds apart.
- JsonValues.Subscript, JsonValues.Get: a JSON object is a sequence of pairs and may repeat a key, where a Python dict cannot. A lookup reads the first pair holding the key, whereas `json.loads` and the flattening keep the last. The model stands for a Python dict only when an object's keys are distinct; the `parse` parameter is trusted never to produce a repeated key.

## Findings

| source | as written | input that shows it | evidently intended | confidence | as-written member | corrected member |
|---|---|---|---|---|---|---|
| final_job.py:41 | `users_df["name.first_name"] + " " + users_df["name.last_name"]` uses Spark's `+`, which is numeric addition. Both sides are cast to double, the literal " " never casts, so the sum is null. | a user with first name "Jane" and last name "Doe": `full_name` is null | first name, one space and last name ("Jane Doe"), null only when a part is null — `F.concat` / `F.concat_ws` | not executed | FinalJob.FullNameAsWrittenNull | FinalJob.FullName |

The rest of the model (`FinalJob.Eval`, `FinalJob.FullNameColumn`) uses the corrected concatenation `FinalJob.Concat`.
