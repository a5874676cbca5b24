/** The merge job (final_job.py): orders are left-joined to users on customer_id = user_id,
    the result is left-joined to products on product_name, and 13 columns are selected under
    fixed aliases, the ones the catalog table declares. */
module FinalJob {
  import opened Wrappers
  import opened Seqs
  import opened SparkTables

  /** A column expression: a column of one input DataFrame, a text literal, or `a + b`. */
  datatype Expr = Column(src: Source, name: string) | Lit(text: string) | Plus(left: Expr, right: Expr)

  datatype Selected = Selected(expr: Expr, alias: string)

  /** The three DataFrames read at lines 24-26. */
  datatype Inputs = Inputs(users: Table, orders: Table, products: Table)

  function SourceTable(src: Source, ins: Inputs): Table
  {
    match src
    case Users => ins.users
    case Orders => ins.orders
    case Products => ins.products
  }

  /** The `select` list of lines 40-52, in order. */
  const Selection: seq<Selected> := [
    Selected(Column(Users, "user_id"), "user_id"),
    Selected(Plus(Plus(Column(Users, "name.first_name"), Lit(" ")), Column(Users, "name.last_name")), "full_name"),
    Selected(Column(Users, "contact.email"), "email"),
    Selected(Column(Orders, "order_id"), "order_id"),
    Selected(Column(Orders, "order_date"), "order_date"),
    Selected(Column(Orders, "item_id"), "item_id"),
    Selected(Column(Orders, "product_name"), "item_product_name"),
    Selected(Column(Orders, "quantity"), "quantity"),
    Selected(Column(Orders, "price"), "price"),
    Selected(Column(Orders, "total_amount"), "total_amount"),
    Selected(Column(Products, "product_name"), "product_product_name"),
    Selected(Column(Products, "category"), "category"),
    Selected(Column(Products, "stock_quantity"), "stock_quantity")
  ]

  const FullNameAt: nat := 1
  const ItemProductNameAt: nat := 6
  const ProductProductNameAt: nat := 10

  function Aliases(sel: seq<Selected>): (names: seq<string>)
    ensures |names| == |sel| && forall j :: 0 <= j < |sel| ==> names[j] == sel[j].alias
  {
    seq(|sel|, j requires 0 <= j < |sel| => sel[j].alias)
  }

  /** The column types the catalog table declares (lines 83-97). */
  datatype HiveType = HiveString | HiveInt | HiveFloat

  const CatalogSchema: seq<(string, HiveType)> := [
    ("user_id", HiveString), ("full_name", HiveString), ("email", HiveString),
    ("order_id", HiveString), ("order_date", HiveString), ("item_id", HiveString),
    ("item_product_name", HiveString), ("quantity", HiveInt), ("price", HiveFloat),
    ("total_amount", HiveFloat), ("product_product_name", HiveString), ("category", HiveString),
    ("stock_quantity", HiveInt)
  ]

  function CatalogNames(): (names: seq<string>)
    ensures |names| == |CatalogSchema| && forall j :: 0 <= j < |names| ==> names[j] == CatalogSchema[j].0
  {
    seq(|CatalogSchema|, j requires 0 <= j < |CatalogSchema| => CatalogSchema[j].0)
  }

  /** The catalog declares exactly the projection's aliases, in the same order: 13 columns. */
  lemma CatalogMatchesSelection()
    ensures CatalogNames() == Aliases(Selection) && |CatalogNames()| == 13
  {
    var c := CatalogNames();
    var a := Aliases(Selection);
    assert |c| == |a| == 13;
    forall j | 0 <= j < 13
      ensures c[j] == a[j]
    {
      assert c[j] == CatalogSchema[j].0 && a[j] == Selection[j].alias;
    }
  }

  /** An expression whose column references are resolved to positions of the joined table. */
  datatype Bound = BColumn(ix: nat) | BLit(text: string) | BPlus(left: Bound, right: Bound)

  /** Resolution of `df["name"]`: the name in its own DataFrame, then that attribute in the
      joined table. */
  function Bind(e: Expr, merged: Table, ins: Inputs): (r: Result<Bound, AnalysisError>)
    ensures e.Column? && r.Ok? ==>
      && r.value.BColumn? && r.value.ix < |merged.attrs|
      && merged.attrs[r.value.ix] in SourceTable(e.src, ins).attrs
      && merged.attrs[r.value.ix].name == e.name
  {
    match e
    case Column(src, name) =>
      var t := SourceTable(src, ins);
      var i :- Resolve(t.attrs, ByName(name));
      var x :- Resolve(merged.attrs, ByAttr(t.attrs[i]));
      Ok(BColumn(x))
    case Lit(s) => Ok(BLit(s))
    case Plus(a, b) =>
      var x :- Bind(a, merged, ins);
      var y :- Bind(b, merged, ins);
      Ok(BPlus(x, y))
  }

  /** All selected expressions bound, or the first failure. */
  function BindAll(sel: seq<Selected>, merged: Table, ins: Inputs): (r: Result<seq<Bound>, AnalysisError>)
    ensures r.Ok? <==> forall j :: 0 <= j < |sel| ==> Bind(sel[j].expr, merged, ins).Ok?
    ensures r.Ok? ==> |r.value| == |sel| && forall j :: 0 <= j < |sel| ==> Bind(sel[j].expr, merged, ins) == Ok(r.value[j])
  {
    if sel == [] then Ok([])
    else
      var b :- Bind(sel[0].expr, merged, ins);
      var bs :- BindAll(sel[1..], merged, ins);
      assert forall j :: 1 <= j < |sel| ==> sel[j] == sel[1..][j - 1];
      Ok([b] + bs)
  }

  /** `F.concat`-style `+` on text: concatenation, null when either side is null. */
  function Concat(x: Value, y: Value): (r: Value)
    ensures r.Null? <==> x.Null? || y.Null?
    ensures r.Str? ==> r.s == x.s + y.s
  {
    if x.Str? && y.Str? then Str(x.s + y.s) else Null
  }

  /** Some column the expression reads holds null in the row. */
  predicate ReadsNull(b: Bound, row: seq<Value>)
  {
    match b
    case BColumn(x) => At(row, x).Null?
    case BLit(_) => false
    case BPlus(l, r) => ReadsNull(l, row) || ReadsNull(r, row)
  }

  /** An expression is null exactly when a column it reads is null: `+` on text propagates
      null and nothing else makes one. */
  function Eval(b: Bound, row: seq<Value>): (v: Value)
    ensures v.Null? <==> ReadsNull(b, row)
  {
    match b
    case BColumn(x) => At(row, x)
    case BLit(s) => Str(s)
    case BPlus(l, r) => Concat(Eval(l, row), Eval(r, row))
  }

  /** The result of `select`: its column names and its rows. */
  datatype Projected = Projected(columns: seq<string>, rows: seq<seq<Value>>)

  /** `merged_df.select(...)`: one output row per joined row, one cell per selected expression. */
  function Project(merged: Table, sel: seq<Selected>, ins: Inputs): (r: Result<Projected, AnalysisError>)
    ensures r.Ok? <==> forall j :: 0 <= j < |sel| ==> Bind(sel[j].expr, merged, ins).Ok?
    ensures r.Ok? ==> r.value.columns == Aliases(sel) && |r.value.rows| == |merged.rows|
    ensures r.Ok? ==> forall i :: 0 <= i < |r.value.rows| ==> |r.value.rows[i]| == |sel|
  {
    var bs :- BindAll(sel, merged, ins);
    Ok(Projected(Aliases(sel),
      seq(|merged.rows|, i requires 0 <= i < |merged.rows| =>
        seq(|bs|, j requires 0 <= j < |bs| => Eval(bs[j], merged.rows[i])))))
  }

  /** Lines 33 and 36: the two chained left joins. */
  function Merge(ins: Inputs): (r: Result<Table, AnalysisError>)
    ensures r.Ok? ==> r.value.attrs == ins.orders.attrs + ins.users.attrs + ins.products.attrs
    ensures r.Ok? ==> |r.value.rows| >= |ins.orders.rows|
  {
    var m1 :- JoinOn(ins.orders, ins.users, "customer_id", "user_id");
    JoinOn(m1, ins.products, "product_name", "product_name")
  }

  function Load3(users: Csv, orders: Csv, products: Csv): Inputs
  {
    Inputs(Load(Users, users), Load(Orders, orders), Load(Products, products))
  }

  /** Lines 24-26, 33, 36 and 39-53. */
  function Run(users: Csv, orders: Csv, products: Csv): (r: Result<Projected, AnalysisError>)
    ensures r.Ok? ==> r.value.columns == Aliases(Selection) && |r.value.rows| >= |orders.records|
  {
    var ins := Load3(users, orders, products);
    var m :- Merge(ins);
    Project(m, Selection, ins)
  }

  /** The null-propagating `full_name` of line 41, read as intended. */
  function FullName(first: Value, last: Value): (v: Value)
    ensures v.Null? <==> first.Null? || last.Null?
    ensures v.Str? ==> v.s == first.s + " " + last.s
  {
    Concat(Concat(first, Str(" ")), last)
  }

  // ---- the join stage ----

  /** Each attribute of an input table carries that table as its source. */
  predicate Lineage(ins: Inputs)
  {
    && (forall a :: a in ins.users.attrs ==> a.source == Users)
    && (forall a :: a in ins.orders.attrs ==> a.source == Orders)
    && (forall a :: a in ins.products.attrs ==> a.source == Products)
  }

  lemma LoadedLineage(users: Csv, orders: Csv, products: Csv)
    ensures Lineage(Load3(users, orders, products))
  {
    var ins := Load3(users, orders, products);
    forall a | a in ins.users.attrs ensures a.source == Users {
      var i :| 0 <= i < |ins.users.attrs| && ins.users.attrs[i] == a;
    }
    forall a | a in ins.orders.attrs ensures a.source == Orders {
      var i :| 0 <= i < |ins.orders.attrs| && ins.orders.attrs[i] == a;
    }
    forall a | a in ins.products.attrs ensures a.source == Products {
      var i :| 0 <= i < |ins.products.attrs| && ins.products.attrs[i] == a;
    }
  }

  /** When the job succeeds, its columns are the catalog's, and no order row is lost: there
      are at least as many output rows as order records, each with 13 cells. */
  lemma RunShape(users: Csv, orders: Csv, products: Csv)
    requires Run(users, orders, products).Ok?
    ensures var out := Run(users, orders, products).value;
      && out.columns == CatalogNames()
      && |out.rows| >= |orders.records|
      && forall i :: 0 <= i < |out.rows| ==> |out.rows[i]| == 13
  {
    var ins := Load3(users, orders, products);
    CatalogMatchesSelection();
    MergeKeepsOrders(ins);
  }

  /** Both joins are left outer joins, the second on the result of the first: the joined table
      has at least one row per order row. */
  lemma MergeKeepsOrders(ins: Inputs)
    requires Merge(ins).Ok?
    ensures |Merge(ins).value.rows| >= |ins.orders.rows|
  {
    var lk := Resolve(ins.orders.attrs, ByName("customer_id")).value;
    var rk := Resolve(ins.users.attrs, ByName("user_id")).value;
    var m1 := LeftJoin(ins.orders, ins.users, lk, rk);
    LeftJoinKeepsAll(ins.orders, ins.users, lk, rk);
    var lk2 := Resolve(m1.attrs, ByName("product_name")).value;
    var rk2 := Resolve(ins.products.attrs, ByName("product_name")).value;
    LeftJoinKeepsAll(m1, ins.products, lk2, rk2);
  }

  /** The key positions the two joins resolve. */
  function Joined1(ins: Inputs): Table
    requires Merge(ins).Ok?
  {
    LeftJoin(ins.orders, ins.users,
      Resolve(ins.orders.attrs, ByName("customer_id")).value,
      Resolve(ins.users.attrs, ByName("user_id")).value)
  }

  lemma MergeIsJoin(ins: Inputs)
    requires Merge(ins).Ok?
    ensures Merge(ins).value == LeftJoin(Joined1(ins), ins.products,
      Resolve(Joined1(ins).attrs, ByName("product_name")).value,
      Resolve(ins.products.attrs, ByName("product_name")).value)
  {
  }

  /** Every order row begins at least one joined row. */
  lemma MergeCoversOrders(ins: Inputs, k: nat)
    requires Merge(ins).Ok? && k < |ins.orders.rows|
    ensures exists i :: 0 <= i < |Merge(ins).value.rows| && StartsWith(Merge(ins).value.rows[i], ins.orders.rows[k])
  {
    var lk := Resolve(ins.orders.attrs, ByName("customer_id")).value;
    var rk := Resolve(ins.users.attrs, ByName("user_id")).value;
    var m1 := Joined1(ins);
    var lk2 := Resolve(m1.attrs, ByName("product_name")).value;
    var rk2 := Resolve(ins.products.attrs, ByName("product_name")).value;
    MergeIsJoin(ins);
    var i1 := LeftJoinCovers(ins.orders, ins.users, lk, rk, k);
    var i := LeftJoinCovers(m1, ins.products, lk2, rk2, i1);
    StartsWithTrans(Merge(ins).value.rows[i], m1.rows[i1], ins.orders.rows[k]);
  }

  /** Every joined row begins with an order row. */
  lemma MergeFromOrders(ins: Inputs, i: nat)
    requires Merge(ins).Ok? && i < |Merge(ins).value.rows|
    ensures exists k :: 0 <= k < |ins.orders.rows| && StartsWith(Merge(ins).value.rows[i], ins.orders.rows[k])
  {
    var lk := Resolve(ins.orders.attrs, ByName("customer_id")).value;
    var rk := Resolve(ins.users.attrs, ByName("user_id")).value;
    var m1 := Joined1(ins);
    var lk2 := Resolve(m1.attrs, ByName("product_name")).value;
    var rk2 := Resolve(ins.products.attrs, ByName("product_name")).value;
    MergeIsJoin(ins);
    var r := Merge(ins).value.rows[i];
    LeftJoinPrefix(m1, ins.products, lk2, rk2, i);
    var i1 :| 0 <= i1 < |m1.rows| && StartsWith(r, m1.rows[i1]);
    LeftJoinPrefix(ins.orders, ins.users, lk, rk, i1);
    var k :| 0 <= k < |ins.orders.rows| && StartsWith(m1.rows[i1], ins.orders.rows[k]);
    StartsWithTrans(r, m1.rows[i1], ins.orders.rows[k]);
  }

  predicate StartsWith(r: seq<Value>, p: seq<Value>)
  {
    |r| >= |p| && r[..|p|] == p
  }

  lemma StartsWithTrans(a: seq<Value>, b: seq<Value>, c: seq<Value>)
    requires StartsWith(a, b) && StartsWith(b, c)
    ensures StartsWith(a, c)
  {
    assert a[..|c|] == a[..|b|][..|c|];
  }

  /** Left row k begins the first row of its block. */
  lemma LeftJoinCovers(left: Table, right: Table, lk: nat, rk: nat, k: nat) returns (i: nat)
    requires k < |left.rows|
    ensures i < |LeftJoin(left, right, lk, rk).rows| && StartsWith(LeftJoin(left, right, lk, rk).rows[i], left.rows[k])
  {
    LeftJoinBlock(left, right, lk, rk, k);
    i := BlockStart(left.rows, Joiner(right, lk, rk), k);
    var block := JoinRow(left.rows[k], right, lk, rk);
    assert block[0] in block;
    assert LeftJoin(left, right, lk, rk).rows[i] == block[0];
  }

  // ---- the projection ----

  /** A selected column of an input DataFrame reads, in every output row, the cell of the
      joined row under that DataFrame's attribute of that name. */
  lemma SelectedColumn(m: Table, sel: seq<Selected>, ins: Inputs, out: Projected, j: nat)
    requires Lineage(ins) && Project(m, sel, ins) == Ok(out)
    requires j < |sel| && sel[j].expr.Column?
    ensures var e := sel[j].expr;
      exists x :: 0 <= x < |m.attrs| && m.attrs[x] == Attr(e.src, e.name) &&
        forall i :: 0 <= i < |out.rows| ==> out.rows[i][j] == At(m.rows[i], x)
  {
    var e := sel[j].expr;
    var bs := BindAll(sel, m, ins).value;
    var x := bs[j].ix;
    assert m.attrs[x] in SourceTable(e.src, ins).attrs;
    assert m.attrs[x] == Attr(e.src, e.name);
    forall i | 0 <= i < |out.rows|
      ensures out.rows[i][j] == At(m.rows[i], x)
    {
      ProjectCell(m, sel, ins, out, i, j);
    }
  }

  /** `item_product_name` is the orders' product_name and `product_product_name` the
      products' product_name: the two same-named columns are told apart by their DataFrames. */
  lemma ProductNames(m: Table, ins: Inputs, out: Projected)
    requires Lineage(ins) && Project(m, Selection, ins) == Ok(out)
    ensures ItemProductNameAt < |out.columns| && out.columns[ItemProductNameAt] == "item_product_name"
    ensures ProductProductNameAt < |out.columns| && out.columns[ProductProductNameAt] == "product_product_name"
    ensures exists x :: (0 <= x < |m.attrs| && m.attrs[x] == Attr(Orders, "product_name") &&
      forall i :: 0 <= i < |out.rows| ==> At(out.rows[i], ItemProductNameAt) == At(m.rows[i], x))
    ensures exists x :: (0 <= x < |m.attrs| && m.attrs[x] == Attr(Products, "product_name") &&
      forall i :: 0 <= i < |out.rows| ==> At(out.rows[i], ProductProductNameAt) == At(m.rows[i], x))
  {
    ProductNamesSelected();
    AliasedColumn(m, Selection, ins, out, ItemProductNameAt);
    AliasedColumn(m, Selection, ins, out, ProductProductNameAt);
  }

  lemma ProductNamesSelected()
    ensures |Selection| == 13
    ensures Selection[ItemProductNameAt] == Selected(Column(Orders, "product_name"), "item_product_name")
    ensures Selection[ProductProductNameAt] == Selected(Column(Products, "product_name"), "product_product_name")
  {
  }

  /** A selected column of an input DataFrame appears under its alias, and reads in every
      output row the joined cell under that DataFrame's attribute of that name. */
  lemma AliasedColumn(m: Table, sel: seq<Selected>, ins: Inputs, out: Projected, j: nat)
    requires Lineage(ins) && Project(m, sel, ins) == Ok(out)
    requires j < |sel| && sel[j].expr.Column?
    ensures j < |out.columns| && out.columns[j] == sel[j].alias
    ensures var e := sel[j].expr;
      exists x :: 0 <= x < |m.attrs| && m.attrs[x] == Attr(e.src, e.name) &&
        forall i :: 0 <= i < |out.rows| ==> At(out.rows[i], j) == At(m.rows[i], x)
  {
    SelectedColumn(m, sel, ins, out, j);
    var e := sel[j].expr;
    var x :| 0 <= x < |m.attrs| && m.attrs[x] == Attr(e.src, e.name) &&
      forall i :: 0 <= i < |out.rows| ==> out.rows[i][j] == At(m.rows[i], x);
    forall i | 0 <= i < |out.rows|
      ensures At(out.rows[i], j) == At(m.rows[i], x)
    {
      assert out.rows[i][j] == At(m.rows[i], x);
    }
  }

  /** `full_name` is built, in every row, from the users' first and last name cells. */
  lemma FullNameColumn(m: Table, ins: Inputs, out: Projected)
    requires Lineage(ins) && Project(m, Selection, ins) == Ok(out)
    ensures FullNameAt < |out.columns| && out.columns[FullNameAt] == "full_name"
    ensures exists f, l :: (0 <= f < |m.attrs| && 0 <= l < |m.attrs|
      && m.attrs[f] == Attr(Users, "name.first_name") && m.attrs[l] == Attr(Users, "name.last_name")
      && forall i :: 0 <= i < |out.rows| ==> At(out.rows[i], FullNameAt) == FullName(At(m.rows[i], f), At(m.rows[i], l)))
  {
    FullNameSelected();
    JoinedNameColumn(m, Selection, ins, out, FullNameAt, "name.first_name", "name.last_name");
  }

  /** A selected `first + " " + last` of two users columns, for any selection list. */
  lemma JoinedNameColumn(m: Table, sel: seq<Selected>, ins: Inputs, out: Projected, j: nat, fname: string, lname: string)
    requires Lineage(ins) && Project(m, sel, ins) == Ok(out)
    requires j < |sel| && sel[j].expr == Plus(Plus(Column(Users, fname), Lit(" ")), Column(Users, lname))
    ensures exists f, l :: (0 <= f < |m.attrs| && 0 <= l < |m.attrs|
      && m.attrs[f] == Attr(Users, fname) && m.attrs[l] == Attr(Users, lname)
      && forall i :: 0 <= i < |out.rows| ==> out.rows[i][j] == FullName(At(m.rows[i], f), At(m.rows[i], l)))
  {
    var bs := BindAll(sel, m, ins).value;
    var first := Column(Users, fname);
    var last := Column(Users, lname);
    assert Bind(Plus(Plus(first, Lit(" ")), last), m, ins) == Ok(bs[j]);
    BindPlus(Plus(first, Lit(" ")), last, m, ins);
    BindPlus(first, Lit(" "), m, ins);
    var bf := Bind(first, m, ins).value;
    var bl := Bind(last, m, ins).value;
    assert m.attrs[bf.ix] in ins.users.attrs && m.attrs[bl.ix] in ins.users.attrs;
    var b := BPlus(BPlus(bf, BLit(" ")), bl);
    assert Bind(Lit(" "), m, ins) == Ok(BLit(" "));
    assert bs[j] == b;
    forall i | 0 <= i < |out.rows|
      ensures out.rows[i][j] == FullName(At(m.rows[i], bf.ix), At(m.rows[i], bl.ix))
    {
      ProjectCell(m, sel, ins, out, i, j);
      var row := m.rows[i];
      assert Eval(BPlus(bf, BLit(" ")), row) == Concat(At(row, bf.ix), Str(" "));
    }
  }

  lemma FullNameSelected()
    ensures |Selection| == 13
    ensures Selection[FullNameAt] ==
      Selected(Plus(Plus(Column(Users, "name.first_name"), Lit(" ")), Column(Users, "name.last_name")), "full_name")
  {
  }

  /** Cell j of output row i is selected expression j evaluated on joined row i. */
  lemma ProjectCell(m: Table, sel: seq<Selected>, ins: Inputs, out: Projected, i: nat, j: nat)
    requires Project(m, sel, ins) == Ok(out) && i < |out.rows| && j < |sel|
    ensures out.rows[i][j] == Eval(BindAll(sel, m, ins).value[j], m.rows[i])
  {
  }

  lemma BindPlus(a: Expr, b: Expr, m: Table, ins: Inputs)
    requires Bind(Plus(a, b), m, ins).Ok?
    ensures Bind(a, m, ins).Ok? && Bind(b, m, ins).Ok?
    ensures Bind(Plus(a, b), m, ins).value == BPlus(Bind(a, m, ins).value, Bind(b, m, ins).value)
  {
  }

  // ---- when the job runs through ----

  function Header(src: Source, users: Csv, orders: Csv, products: Csv): Csv
  {
    match src
    case Users => users
    case Orders => orders
    case Products => products
  }

  /** Every column the expression names occurs exactly once in its DataFrame's header. */
  predicate Referenced(e: Expr, users: Csv, orders: Csv, products: Csv)
  {
    match e
    case Column(src, n) => Once(Header(src, users, orders, products).header, n)
    case Lit(_) => true
    case Plus(a, b) => Referenced(a, users, orders, products) && Referenced(b, users, orders, products)
  }

  /** The join keys resolve: customer_id once among the orders' columns, user_id once among the
      users', product_name once among the columns of the first join and once among the products'. */
  predicate KeysFit(users: Csv, orders: Csv, products: Csv)
  {
    && Once(orders.header, "customer_id")
    && Once(users.header, "user_id")
    && Once(orders.header + users.header, "product_name")
    && Once(products.header, "product_name")
  }

  predicate HeadersFit(users: Csv, orders: Csv, products: Csv)
  {
    && KeysFit(users, orders, products)
    && forall j :: 0 <= j < |Selection| ==> Referenced(Selection[j].expr, users, orders, products)
  }

  /** The joined table's attributes are the orders', then the users', then the products'. */
  lemma MergedAttrs(ins: Inputs)
    requires Merge(ins).Ok?
    ensures Merge(ins).value.attrs == ins.orders.attrs + ins.users.attrs + ins.products.attrs
  {
    MergeIsJoin(ins);
  }

  /** The two joins resolve their keys exactly when the headers fit them. */
  lemma MergeSucceeds(users: Csv, orders: Csv, products: Csv)
    ensures Merge(Load3(users, orders, products)).Ok? <==> KeysFit(users, orders, products)
  {
    var ins := Load3(users, orders, products);
    MergeResolves(ins);
    LoadResolve(Orders, orders, "customer_id");
    LoadResolve(Users, users, "user_id");
    LoadResolve(Products, products, "product_name");
    var both := ins.orders.attrs + ins.users.attrs;
    LoadedNames(orders, users, both);
    NamesResolve(both, orders.header + users.header, "product_name");
  }

  /** The merge succeeds exactly when its four key references resolve. */
  lemma MergeResolves(ins: Inputs)
    ensures Merge(ins).Ok? <==>
      && Resolve(ins.orders.attrs, ByName("customer_id")).Ok?
      && Resolve(ins.users.attrs, ByName("user_id")).Ok?
      && Resolve(ins.orders.attrs + ins.users.attrs, ByName("product_name")).Ok?
      && Resolve(ins.products.attrs, ByName("product_name")).Ok?
  {
    if Resolve(ins.orders.attrs, ByName("customer_id")).Ok? && Resolve(ins.users.attrs, ByName("user_id")).Ok? {
      assert JoinOn(ins.orders, ins.users, "customer_id", "user_id").value.attrs == ins.orders.attrs + ins.users.attrs;
    }
  }

  /** The attributes of the loaded orders then users carry their two headers' names. */
  lemma LoadedNames(orders: Csv, users: Csv, both: seq<Attr>)
    requires both == Load(Orders, orders).attrs + Load(Users, users).attrs
    ensures |both| == |orders.header + users.header|
    ensures forall i :: 0 <= i < |both| ==> both[i].name == (orders.header + users.header)[i]
  {
    var names := orders.header + users.header;
    forall i | 0 <= i < |both| ensures both[i].name == names[i] {
      if i < |orders.header| {
        assert both[i] == Load(Orders, orders).attrs[i];
      } else {
        assert both[i] == Load(Users, users).attrs[i - |orders.header|];
      }
    }
  }

  /** A column of one input, named once in its header, resolves in the joined table. */
  lemma BindColumn(src: Source, n: string, m: Table, users: Csv, orders: Csv, products: Csv)
    requires m.attrs == Load(Orders, orders).attrs + Load(Users, users).attrs + Load(Products, products).attrs
    requires Once(Header(src, users, orders, products).header, n)
    ensures Bind(Column(src, n), m, Load3(users, orders, products)).Ok?
  {
    var ins := Load3(users, orders, products);
    LoadedLineage(users, orders, products);
    var t := SourceTable(src, ins);
    SourceLoaded(src, users, orders, products);
    LoadResolve(src, Header(src, users, orders, products), n);
    var i := Resolve(t.attrs, ByName(n)).value;
    var a := Attr(src, n);
    assert t.attrs[i] == a;
    AttrResolve(t.attrs, src, n);
    var o, u, p := ins.orders.attrs, ins.users.attrs, ins.products.attrs;
    assert forall j :: 0 <= j < |o| ==> o[j] in o;
    assert forall j :: 0 <= j < |u| ==> u[j] in u;
    assert forall j :: 0 <= j < |p| ==> p[j] in p;
    match src
    case Orders =>
      ResolveLeft(o, u, ByAttr(a));
      ResolveLeft(o + u, p, ByAttr(a));
    case Users =>
      ResolveRight(o, u, ByAttr(a));
      ResolveLeft(o + u, p, ByAttr(a));
    case Products =>
      forall j | 0 <= j < |o + u| ensures !Denotes(ByAttr(a), (o + u)[j]) {
        if j >= |o| {
          assert (o + u)[j] == u[j - |o|];
        }
      }
      ResolveRight(o + u, p, ByAttr(a));
  }

  lemma SourceLoaded(src: Source, users: Csv, orders: Csv, products: Csv)
    ensures SourceTable(src, Load3(users, orders, products)) == Load(src, Header(src, users, orders, products))
  {
  }

  /** A column that binds is named once in its header. */
  lemma BindColumnNamed(src: Source, n: string, m: Table, users: Csv, orders: Csv, products: Csv)
    requires Bind(Column(src, n), m, Load3(users, orders, products)).Ok?
    ensures Once(Header(src, users, orders, products).header, n)
  {
    var t := SourceTable(src, Load3(users, orders, products));
    assert Resolve(t.attrs, ByName(n)).Ok?;
    SourceLoaded(src, users, orders, products);
    LoadResolve(src, Header(src, users, orders, products), n);
  }

  /** An expression binds in the joined table exactly when every column it names occurs once
      in its DataFrame's header. */
  lemma {:induction false} BindSucceeds(e: Expr, m: Table, users: Csv, orders: Csv, products: Csv)
    requires m.attrs == Load(Orders, orders).attrs + Load(Users, users).attrs + Load(Products, products).attrs
    ensures Bind(e, m, Load3(users, orders, products)).Ok? <==> Referenced(e, users, orders, products)
  {
    var ins := Load3(users, orders, products);
    match e
    case Column(src, n) =>
      if Bind(e, m, ins).Ok? {
        BindColumnNamed(src, n, m, users, orders, products);
      }
      if Once(Header(src, users, orders, products).header, n) {
        BindColumn(src, n, m, users, orders, products);
      }
    case Lit(_) =>
    case Plus(a, b) =>
      BindSucceeds(a, m, users, orders, products);
      BindSucceeds(b, m, users, orders, products);
  }

  /** The job runs through, rather than failing analysis, exactly when the keys and the 13
      selected columns are each named once where they are looked up. */
  lemma RunSucceeds(users: Csv, orders: Csv, products: Csv)
    ensures Run(users, orders, products).Ok? <==> HeadersFit(users, orders, products)
  {
    var ins := Load3(users, orders, products);
    MergeSucceeds(users, orders, products);
    if Merge(ins).Ok? {
      var m := Merge(ins).value;
      MergedAttrs(ins);
      forall j | 0 <= j < |Selection|
        ensures Bind(Selection[j].expr, m, ins).Ok? <==> Referenced(Selection[j].expr, users, orders, products)
      {
        BindSucceeds(Selection[j].expr, m, users, orders, products);
      }
    }
  }

  /** Without a customer_id in the orders, the first join fails to resolve it. */
  lemma RunWithoutCustomerId(users: Csv, orders: Csv, products: Csv)
    requires "customer_id" !in orders.header
    ensures Run(users, orders, products) == Err(Unresolved("customer_id"))
  {
    var o := Load(Orders, orders).attrs;
    forall j | 0 <= j < |o| ensures !Denotes(ByName("customer_id"), o[j]) {
      assert o[j].name == orders.header[j];
    }
  }

  /** When both the orders and the users have a product_name, `merged_df.product_name` at
      line 36 is ambiguous. */
  lemma RunAmbiguousProductName(users: Csv, orders: Csv, products: Csv, i: nat, k: nat)
    requires Once(orders.header, "customer_id") && Once(users.header, "user_id")
    requires i < |orders.header| && orders.header[i] == "product_name"
    requires k < |users.header| && users.header[k] == "product_name"
    ensures Run(users, orders, products) == Err(Ambiguous("product_name"))
  {
    var ins := Load3(users, orders, products);
    LoadResolve(Orders, orders, "customer_id");
    LoadResolve(Users, users, "user_id");
    var both := ins.orders.attrs + ins.users.attrs;
    assert both[i] == ins.orders.attrs[i];
    assert both[|orders.header| + k] == ins.users.attrs[k];
    ResolveAmbiguous(both, ByName("product_name"), i, |orders.header| + k);
    assert JoinOn(ins.orders, ins.users, "customer_id", "user_id").value.attrs == both;
  }

  /** The Glue-visible outcome of a successful run. */
  lemma RunProjects(users: Csv, orders: Csv, products: Csv)
    requires Run(users, orders, products).Ok?
    ensures var ins := Load3(users, orders, products);
      && Lineage(ins) && Merge(ins).Ok?
      && Project(Merge(ins).value, Selection, ins) == Run(users, orders, products)
  {
    LoadedLineage(users, orders, products);
  }

  /** Every order column of the output (order_id through total_amount) holds, in each row, the
      cell of some order row under that column of the orders. */
  lemma OrderCellFromOrders(ins: Inputs, m: Table, sel: seq<Selected>, out: Projected, j: nat) returns (x: nat)
    requires Lineage(ins) && Valid(ins.orders) && Merge(ins) == Ok(m) && Project(m, sel, ins) == Ok(out)
    requires j < |sel| && sel[j].expr.Column? && sel[j].expr.src == Orders
    ensures x < |ins.orders.attrs| && ins.orders.attrs[x] == Attr(Orders, sel[j].expr.name)
    ensures forall i :: 0 <= i < |out.rows| ==>
      exists k :: 0 <= k < |ins.orders.rows| && At(out.rows[i], j) == At(ins.orders.rows[k], x)
  {
    AliasedColumn(m, sel, ins, out, j);
    x :| 0 <= x < |m.attrs| && m.attrs[x] == Attr(Orders, sel[j].expr.name) &&
      forall i :: 0 <= i < |out.rows| ==> At(out.rows[i], j) == At(m.rows[i], x);
    OrdersPart(ins, m.attrs, x);
    forall i | 0 <= i < |out.rows|
      ensures exists k :: 0 <= k < |ins.orders.rows| && At(out.rows[i], j) == At(ins.orders.rows[k], x)
    {
      CellFromMergedRow(ins, m, At(out.rows[i], j), i, x);
    }
  }

  lemma CellFromMergedRow(ins: Inputs, m: Table, v: Value, i: nat, x: nat)
    requires Valid(ins.orders) && Merge(ins) == Ok(m) && x < |ins.orders.attrs|
    requires i < |m.rows| && v == At(m.rows[i], x)
    ensures exists k :: 0 <= k < |ins.orders.rows| && v == At(ins.orders.rows[k], x)
  {
    var k := MergedRowFromOrder(ins, m, i, x);
  }

  /** On the CSV files themselves: an output column selected from the orders DataFrame
      holds, in every output row, the field under that column's header in some orders
      record. */
  lemma RunOrderCell(users: Csv, orders: Csv, products: Csv, j: nat) returns (x: nat)
    requires Run(users, orders, products).Ok?
    requires j < |Selection| && Selection[j].expr.Column? && Selection[j].expr.src == Orders
    ensures x < |orders.header| && orders.header[x] == Selection[j].expr.name
    ensures var out := Run(users, orders, products).value;
      forall i :: 0 <= i < |out.rows| ==>
        exists k :: 0 <= k < |orders.records| && At(out.rows[i], j) == Field(orders.records[k], x)
  {
    var ins := Load3(users, orders, products);
    RunProjects(users, orders, products);
    x := OrderCellFromCsv(orders, ins, Merge(ins).value, Run(users, orders, products).value, j);
  }

  lemma OrderCellFromCsv(orders: Csv, ins: Inputs, m: Table, out: Projected, j: nat) returns (x: nat)
    requires ins.orders == Load(Orders, orders)
    requires Lineage(ins) && Merge(ins) == Ok(m) && Project(m, Selection, ins) == Ok(out)
    requires j < |Selection| && Selection[j].expr.Column? && Selection[j].expr.src == Orders
    ensures x < |orders.header| && orders.header[x] == Selection[j].expr.name
    ensures forall i :: 0 <= i < |out.rows| ==>
      exists k :: 0 <= k < |orders.records| && At(out.rows[i], j) == Field(orders.records[k], x)
  {
    x := OrderCellFromOrders(ins, m, Selection, out, j);
    forall i | 0 <= i < |out.rows|
      ensures exists k :: 0 <= k < |orders.records| && At(out.rows[i], j) == Field(orders.records[k], x)
    {
      LoadedCell(At(out.rows[i], j), orders, x);
    }
  }

  /** A cell equal to some loaded orders cell is the field read from some orders record. */
  lemma LoadedCell(v: Value, csv: Csv, x: nat)
    requires x < |csv.header|
    requires exists k :: 0 <= k < |Load(Orders, csv).rows| && v == At(Load(Orders, csv).rows[k], x)
    ensures exists k :: 0 <= k < |csv.records| && v == Field(csv.records[k], x)
  {
    var t := Load(Orders, csv);
    var k :| 0 <= k < |t.rows| && v == At(t.rows[k], x);
    assert x < |t.rows[k]|;
    assert v == Field(csv.records[k], x);
  }

  /** Joined row i carries, in the orders part, the cells of some order row. */
  lemma MergedRowFromOrder(ins: Inputs, m: Table, i: nat, x: nat) returns (k: nat)
    requires Valid(ins.orders) && Merge(ins) == Ok(m) && i < |m.rows| && x < |ins.orders.attrs|
    ensures k < |ins.orders.rows| && At(m.rows[i], x) == ins.orders.rows[k][x]
  {
    MergeFromOrders(ins, i);
    k :| 0 <= k < |ins.orders.rows| && StartsWith(m.rows[i], ins.orders.rows[k]);
    assert m.rows[i][..|ins.orders.rows[k]|][x] == m.rows[i][x];
  }

  /** An orders attribute of the joined table lies in its orders part. */
  lemma OrdersPart(ins: Inputs, attrs: seq<Attr>, x: nat)
    requires Lineage(ins) && attrs == ins.orders.attrs + ins.users.attrs + ins.products.attrs
    requires x < |attrs| && attrs[x].source == Orders
    ensures x < |ins.orders.attrs| && attrs[x] == ins.orders.attrs[x]
  {
    var o := ins.orders.attrs;
    var rest := ins.users.attrs + ins.products.attrs;
    assert attrs == o + rest;
  }

  // ---- full_name as written ----

  /** A text Spark cannot cast to a number whatever the rest of the cast rules: only spaces. */
  predicate Blank(s: string)
  {
    forall i :: 0 <= i < |s| ==> s[i] == ' '
  }

  /** Spark's `+` on two text columns (non-ANSI mode): both sides are cast to double and added,
      and a side that does not cast makes the sum null. `add` stands for the cast-and-add of two
      texts, which this model does not spell out; only the casts that surely fail are. */
  function SparkPlus(x: Value, y: Value, add: (string, string) -> Value): (r: Value)
    ensures x.Null? || y.Null? || Blank(x.s) || Blank(y.s) ==> r == Null
  {
    if x.Null? || y.Null? || Blank(x.s) || Blank(y.s) then Null else add(x.s, y.s)
  }

  /** Line 41 as written: `(first + " ") + last` with Spark's `+`. */
  function FullNameAsWritten(first: Value, last: Value, add: (string, string) -> Value): Value
  {
    SparkPlus(SparkPlus(first, Str(" "), add), last, add)
  }

  /** As written, `full_name` is null in every row: the literal " " never casts to a number. */
  lemma FullNameAsWrittenNull(first: Value, last: Value, add: (string, string) -> Value)
    ensures FullNameAsWritten(first, last, add) == Null
  {
    assert Blank(" ");
  }

  /** The user Jane Doe: the intended full_name is "Jane Doe", the written one null. */
  lemma FullNameJaneDoe(add: (string, string) -> Value)
    ensures FullName(Str("Jane"), Str("Doe")) == Str("Jane Doe")
    ensures FullNameAsWritten(Str("Jane"), Str("Doe"), add) == Null
  {
    FullNameAsWrittenNull(Str("Jane"), Str("Doe"), add);
  }
}
