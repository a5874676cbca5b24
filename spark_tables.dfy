/** Spark DataFrames as the merge job (final_job.py) uses them: tables read from CSV with a
    header, column references resolved against a table's attributes, and the left outer
    equi-join. Every attribute remembers the table it was read from, so that a column of
    the joined table can still be named through the DataFrame it came from. */
module SparkTables {
  import opened Wrappers
  import opened Seqs

  /** A CSV read with only the header option infers no types: every cell is text or null. */
  datatype Value = Str(s: string) | Null

  /** The three tables read at final_job.py lines 24-26. */
  datatype Source = Users | Orders | Products

  /** An attribute: a column together with the table it was read from. */
  datatype Attr = Attr(source: Source, name: string)

  datatype Table = Table(attrs: seq<Attr>, rows: seq<seq<Value>>)

  datatype AnalysisError = Unresolved(name: string) | Ambiguous(name: string)

  /** A CSV file as text: its header line and its records. */
  datatype Csv = Csv(header: seq<string>, records: seq<seq<string>>)

  predicate Valid(t: Table)
  {
    forall k :: 0 <= k < |t.rows| ==> |t.rows[k]| == |t.attrs|
  }

  /** Spark reads an empty field as null. */
  function CsvCell(field: string): (v: Value)
    ensures v.Null? <==> field == ""
    ensures field != "" ==> v == Str(field)
  {
    if field == "" then Null else Str(field)
  }

  /** The value read for field x of a record: null when the record is too short. */
  function Field(rec: seq<string>, x: nat): (v: Value)
    ensures v.Null? <==> x >= |rec| || rec[x] == ""
    ensures v.Str? ==> v.s == rec[x]
  {
    if x < |rec| then CsvCell(rec[x]) else Null
  }

  /** `spark.read.option("header", "true").csv(path)`: the header names the attributes; a
      short record is padded with nulls and a long one cut to the header's width. */
  function Load(src: Source, csv: Csv): (t: Table)
    ensures Valid(t) && |t.attrs| == |csv.header| && |t.rows| == |csv.records|
    ensures forall i :: 0 <= i < |csv.header| ==> t.attrs[i] == Attr(src, csv.header[i])
    ensures forall k, j :: 0 <= k < |csv.records| && 0 <= j < |csv.header| ==>
      (t.rows[k][j].Null? <==> j >= |csv.records[k]| || csv.records[k][j] == "")
    ensures forall k, j :: 0 <= k < |csv.records| && 0 <= j < |csv.header| && t.rows[k][j].Str? ==>
      t.rows[k][j].s == csv.records[k][j]
  {
    var n := |csv.header|;
    Table(seq(n, i requires 0 <= i < n => Attr(src, csv.header[i])),
          seq(|csv.records|, k requires 0 <= k < |csv.records| =>
            seq(n, j requires 0 <= j < n => if j < |csv.records[k]| then CsvCell(csv.records[k][j]) else Null)))
  }

  /** A column reference: `df["name"]` / `df.name` looks a name up among a DataFrame's own
      columns; inside a joined table, a column of an input DataFrame is found by its attribute. */
  datatype Ref = ByName(name: string) | ByAttr(attr: Attr)

  predicate Denotes(ref: Ref, a: Attr)
  {
    match ref
    case ByName(n) => a.name == n
    case ByAttr(b) => a == b
  }

  function RefName(ref: Ref): string
  {
    match ref
    case ByName(n) => n
    case ByAttr(b) => b.name
  }

  /** The positions from `from` on whose attribute the reference denotes, in increasing order. */
  function Hits(attrs: seq<Attr>, ref: Ref, from: nat): (hs: seq<nat>)
    requires from <= |attrs|
    ensures forall j :: 0 <= j < |hs| ==> from <= hs[j] < |attrs| && Denotes(ref, attrs[hs[j]])
    ensures forall i :: from <= i < |attrs| && Denotes(ref, attrs[i]) ==> i in hs
    ensures forall a, b :: 0 <= a < b < |hs| ==> hs[a] < hs[b]
    decreases |attrs| - from
  {
    if from == |attrs| then []
    else if Denotes(ref, attrs[from]) then [from] + Hits(attrs, ref, from + 1)
    else Hits(attrs, ref, from + 1)
  }

  /** Resolving a reference: it must denote exactly one attribute; none is an unresolved
      column, several are an ambiguous reference. */
  function Resolve(attrs: seq<Attr>, ref: Ref): (r: Result<nat, AnalysisError>)
    ensures r.Ok? ==> r.value < |attrs| && Denotes(ref, attrs[r.value])
    ensures r.Ok? ==> forall j :: 0 <= j < |attrs| && Denotes(ref, attrs[j]) ==> j == r.value
    ensures r == Err(Unresolved(RefName(ref))) <==> forall j :: 0 <= j < |attrs| ==> !Denotes(ref, attrs[j])
    ensures r.Err? ==> r.error.name == RefName(ref)
    ensures r.Err? && r.error.Ambiguous? ==>
      exists i, j :: 0 <= i < j < |attrs| && Denotes(ref, attrs[i]) && Denotes(ref, attrs[j])
  {
    var hs := Hits(attrs, ref, 0);
    if |hs| == 0 then Err(Unresolved(RefName(ref)))
    else if |hs| > 1 then
      assert hs[0] < hs[1] && Denotes(ref, attrs[hs[0]]) && Denotes(ref, attrs[hs[1]]);
      Err(Ambiguous(RefName(ref)))
    else Ok(hs[0])
  }

  /** A reference that denotes exactly one attribute resolves to it. */
  lemma ResolveUnique(attrs: seq<Attr>, ref: Ref, i: nat)
    requires i < |attrs| && Denotes(ref, attrs[i])
    requires forall j :: 0 <= j < |attrs| && j != i ==> !Denotes(ref, attrs[j])
    ensures Resolve(attrs, ref) == Ok(i)
  {
  }

  /** A reference that denotes two attributes is ambiguous. */
  lemma ResolveAmbiguous(attrs: seq<Attr>, ref: Ref, i: nat, j: nat)
    requires i < j < |attrs| && Denotes(ref, attrs[i]) && Denotes(ref, attrs[j])
    ensures Resolve(attrs, ref) == Err(Ambiguous(RefName(ref)))
  {
    var r := Resolve(attrs, ref);
    assert r.Err?;
  }

  /** The header names column n exactly once. */
  predicate Once(header: seq<string>, n: string)
  {
    exists i :: 0 <= i < |header| && header[i] == n && forall j :: 0 <= j < |header| && j != i ==> header[j] != n
  }

  /** A name resolves among attributes with the given names exactly when it occurs once among
      those names, and then to its position. */
  lemma NamesResolve(attrs: seq<Attr>, names: seq<string>, n: string)
    requires |attrs| == |names| && forall i :: 0 <= i < |attrs| ==> attrs[i].name == names[i]
    ensures Resolve(attrs, ByName(n)).Ok? <==> Once(names, n)
    ensures Resolve(attrs, ByName(n)).Ok? ==> names[Resolve(attrs, ByName(n)).value] == n
  {
    assert forall i :: 0 <= i < |attrs| ==> (Denotes(ByName(n), attrs[i]) <==> names[i] == n);
    if Once(names, n) {
      var i :| 0 <= i < |names| && names[i] == n && forall j :: 0 <= j < |names| && j != i ==> names[j] != n;
      ResolveUnique(attrs, ByName(n), i);
    }
  }

  /** In particular, for a table read from CSV, the names are its header. */
  lemma LoadResolve(src: Source, csv: Csv, n: string)
    ensures Resolve(Load(src, csv).attrs, ByName(n)).Ok? <==> Once(csv.header, n)
    ensures Resolve(Load(src, csv).attrs, ByName(n)).Ok? ==>
      csv.header[Resolve(Load(src, csv).attrs, ByName(n)).value] == n
  {
    NamesResolve(Load(src, csv).attrs, csv.header, n);
  }

  /** Within attributes that all come from one table, a reference by attribute and one by
      name resolve alike. */
  lemma AttrResolve(attrs: seq<Attr>, src: Source, n: string)
    requires forall a :: a in attrs ==> a.source == src
    ensures Resolve(attrs, ByAttr(Attr(src, n))) == Resolve(attrs, ByName(n))
  {
    var byAttr := ByAttr(Attr(src, n));
    forall i | 0 <= i < |attrs|
      ensures Denotes(byAttr, attrs[i]) == Denotes(ByName(n), attrs[i])
    {
      assert attrs[i] in attrs;
    }
    var r := Resolve(attrs, ByName(n));
    if r.Ok? {
      ResolveUnique(attrs, byAttr, r.value);
    } else if r.error.Ambiguous? {
      var i, j :| 0 <= i < j < |attrs| && Denotes(ByName(n), attrs[i]) && Denotes(ByName(n), attrs[j]);
      ResolveAmbiguous(attrs, byAttr, i, j);
    } else {
      assert RefName(byAttr) == n;
    }
  }

  /** A reference resolved in the left part, and denoting nothing in the right part, resolves
      to the same position in both together. */
  lemma ResolveLeft(xs: seq<Attr>, ys: seq<Attr>, ref: Ref)
    requires Resolve(xs, ref).Ok?
    requires forall j :: 0 <= j < |ys| ==> !Denotes(ref, ys[j])
    ensures Resolve(xs + ys, ref) == Resolve(xs, ref)
  {
    var i := Resolve(xs, ref).value;
    forall j | 0 <= j < |xs + ys| && j != i
      ensures !Denotes(ref, (xs + ys)[j])
    {
      if j >= |xs| {
        assert (xs + ys)[j] == ys[j - |xs|];
      }
    }
    ResolveUnique(xs + ys, ref, i);
  }

  /** A reference denoting nothing in the left part and resolved in the right part resolves
      to that position shifted past the left part. */
  lemma ResolveRight(xs: seq<Attr>, ys: seq<Attr>, ref: Ref)
    requires Resolve(ys, ref).Ok?
    requires forall j :: 0 <= j < |xs| ==> !Denotes(ref, xs[j])
    ensures Resolve(xs + ys, ref) == Ok(|xs| + Resolve(ys, ref).value)
  {
    var i := Resolve(ys, ref).value;
    forall j | 0 <= j < |xs + ys| && j != |xs| + i
      ensures !Denotes(ref, (xs + ys)[j])
    {
      if j >= |xs| {
        assert (xs + ys)[j] == ys[j - |xs|];
      }
    }
    ResolveUnique(xs + ys, ref, |xs| + i);
  }

  /** A reference that resolves in two parts together resolves in one of them and denotes
      nothing in the other. */
  lemma ResolveSplit(xs: seq<Attr>, ys: seq<Attr>, ref: Ref)
    requires Resolve(xs + ys, ref).Ok?
    ensures || (Resolve(xs, ref).Ok? && forall j :: 0 <= j < |ys| ==> !Denotes(ref, ys[j]))
            || (Resolve(ys, ref).Ok? && forall j :: 0 <= j < |xs| ==> !Denotes(ref, xs[j]))
  {
    var i := Resolve(xs + ys, ref).value;
    if i < |xs| {
      assert (xs + ys)[i] == xs[i];
      forall j | 0 <= j < |xs| && j != i ensures !Denotes(ref, xs[j]) {
        assert (xs + ys)[j] == xs[j];
      }
      ResolveUnique(xs, ref, i);
      forall j | 0 <= j < |ys| ensures !Denotes(ref, ys[j]) {
        assert (xs + ys)[|xs| + j] == ys[j];
      }
    } else {
      assert (xs + ys)[i] == ys[i - |xs|];
      forall j | 0 <= j < |ys| && j != i - |xs| ensures !Denotes(ref, ys[j]) {
        assert (xs + ys)[|xs| + j] == ys[j];
      }
      ResolveUnique(ys, ref, i - |xs|);
      forall j | 0 <= j < |xs| ensures !Denotes(ref, xs[j]) {
        assert (xs + ys)[j] == xs[j];
      }
    }
  }

  /** The cell at i, null past the end of the row. */
  function At(row: seq<Value>, i: nat): Value
  {
    if i < |row| then row[i] else Null
  }

  /** SQL `=` in a join condition: only two non-null equal texts match. */
  predicate KeyEquals(x: Value, y: Value)
    ensures KeyEquals(x, y) <==> x == y && !x.Null?
  {
    x.Str? && y.Str? && x.s == y.s
  }

  /** The right rows whose key cell matches `key`, in order. */
  function Matches(rights: seq<seq<Value>>, rk: nat, key: Value): (ms: seq<seq<Value>>)
    ensures forall m :: m in ms <==> m in rights && KeyEquals(key, At(m, rk))
    ensures |ms| <= |rights|
    ensures key.Null? ==> ms == []
  {
    if rights == [] then []
    else
      var rest := Matches(rights[1..], rk, key);
      assert forall m :: m in rights <==> m == rights[0] || m in rights[1..];
      if KeyEquals(key, At(rights[0], rk)) then [rights[0]] + rest else rest
  }

  /** The positions from `from` on of the right rows whose key cell matches `key`, in
      increasing order. */
  function MatchIndices(rights: seq<seq<Value>>, rk: nat, key: Value, from: nat): (hs: seq<nat>)
    requires from <= |rights|
    ensures forall t :: 0 <= t < |hs| ==> from <= hs[t] < |rights| && KeyEquals(key, At(rights[hs[t]], rk))
    ensures forall j :: from <= j < |rights| && KeyEquals(key, At(rights[j], rk)) ==> j in hs
    ensures forall a, b :: 0 <= a < b < |hs| ==> hs[a] < hs[b]
    decreases |rights| - from
  {
    if from == |rights| then []
    else if KeyEquals(key, At(rights[from], rk)) then [from] + MatchIndices(rights, rk, key, from + 1)
    else MatchIndices(rights, rk, key, from + 1)
  }

  /** The matches are the right rows at the matching positions, each once, in right-table
      order: as many as there are right rows with that key. */
  lemma MatchesIndices(rights: seq<seq<Value>>, rk: nat, key: Value)
    ensures var ms := Matches(rights, rk, key);
      var hs := MatchIndices(rights, rk, key, 0);
      |ms| == |hs| && forall t :: 0 <= t < |hs| ==> ms[t] == rights[hs[t]]
  {
    MatchesFrom(rights, rk, key, 0);
    assert rights[0..] == rights;
  }

  lemma {:induction false} MatchesFrom(rights: seq<seq<Value>>, rk: nat, key: Value, from: nat)
    requires from <= |rights|
    ensures var ms := Matches(rights[from..], rk, key);
      var hs := MatchIndices(rights, rk, key, from);
      |ms| == |hs| && forall t :: 0 <= t < |hs| ==> ms[t] == rights[hs[t]]
    decreases |rights| - from
  {
    if from < |rights| {
      MatchesFrom(rights, rk, key, from + 1);
      MatchesStep(rights, rk, key, from);
      var rest := Matches(rights[from + 1..], rk, key);
      var later := MatchIndices(rights, rk, key, from + 1);
      if KeyEquals(key, At(rights[from], rk)) {
        ConsIndexed(rights, from, rest, later);
      }
    }
  }

  /** One step of Matches on a suffix. */
  lemma MatchesStep(rights: seq<seq<Value>>, rk: nat, key: Value, from: nat)
    requires from < |rights|
    ensures Matches(rights[from..], rk, key) ==
      if KeyEquals(key, At(rights[from], rk)) then [rights[from]] + Matches(rights[from + 1..], rk, key)
      else Matches(rights[from + 1..], rk, key)
  {
    var tail := rights[from..];
    assert tail[0] == rights[from];
    assert tail[1..] == rights[from + 1..];
  }

  /** Prepending a row and its position keeps rows and positions in step. */
  lemma ConsIndexed(rights: seq<seq<Value>>, from: nat, rest: seq<seq<Value>>, later: seq<nat>)
    requires from < |rights| && |rest| == |later|
    requires forall t :: 0 <= t < |later| ==> later[t] < |rights| && rest[t] == rights[later[t]]
    ensures var ms := [rights[from]] + rest;
      var hs := [from] + later;
      |ms| == |hs| && forall t :: 0 <= t < |hs| ==> hs[t] < |rights| && ms[t] == rights[hs[t]]
  {
    var ms := [rights[from]] + rest;
    var hs := [from] + later;
    forall t | 0 < t < |hs| ensures hs[t] < |rights| && ms[t] == rights[hs[t]] {
      assert ms[t] == rest[t - 1] && hs[t] == later[t - 1];
    }
  }

  /** A right table in which no two rows share a non-null key gives every left row at most
      one match. */
  lemma UniqueKeyMatches(rights: seq<seq<Value>>, rk: nat, key: Value)
    requires forall i, j :: 0 <= i < j < |rights| ==> !KeyEquals(At(rights[i], rk), At(rights[j], rk))
    ensures |Matches(rights, rk, key)| <= 1
  {
    MatchesIndices(rights, rk, key);
    var hs := MatchIndices(rights, rk, key, 0);
    if |hs| >= 2 {
      TwoMatchesShareKey(rights, rk, key);
    }
  }

  /** Two matches of one key have equal keys themselves. */
  lemma TwoMatchesShareKey(rights: seq<seq<Value>>, rk: nat, key: Value)
    requires |MatchIndices(rights, rk, key, 0)| >= 2
    ensures var hs := MatchIndices(rights, rk, key, 0);
      hs[0] < hs[1] < |rights| && KeyEquals(At(rights[hs[0]], rk), At(rights[hs[1]], rk))
  {
  }

  function Nulls(n: nat): (ns: seq<Value>)
    ensures |ns| == n && forall i :: 0 <= i < n ==> ns[i] == Null
  {
    seq(n, i requires 0 <= i < n => Null)
  }

  /** The rows one left row contributes to `left.join(right, cond, how='left')`: the left row
      before each matching right row, or, when none matches, before a row of nulls. */
  function JoinRow(l: seq<Value>, right: Table, lk: nat, rk: nat): (rs: seq<seq<Value>>)
    ensures var ms := Matches(right.rows, rk, At(l, lk));
      |rs| == if ms == [] then 1 else |ms|
    ensures forall r :: r in rs ==> |r| >= |l| && r[..|l|] == l
  {
    var ms := Matches(right.rows, rk, At(l, lk));
    if ms == [] then [l + Nulls(|right.attrs|)]
    else
      var rs := seq(|ms|, j requires 0 <= j < |ms| => l + ms[j]);
      assert forall j :: 0 <= j < |ms| ==> rs[j][..|l|] == l;
      rs
  }

  function Joiner(right: Table, lk: nat, rk: nat): seq<Value> -> seq<seq<Value>>
  {
    l => JoinRow(l, right, lk, rk)
  }

  /** The joined table: the left attributes then the right ones, the left rows' blocks in order. */
  function LeftJoin(left: Table, right: Table, lk: nat, rk: nat): (j: Table)
    ensures j.attrs == left.attrs + right.attrs && |j.rows| >= |left.rows|
  {
    FlatMapAtLeast(left.rows, Joiner(right, lk, rk));
    Table(left.attrs + right.attrs, FlatMap(left.rows, Joiner(right, lk, rk)))
  }

  /** `left.join(right, left.lname == right.rname, how='left')`, each key resolved by name in its
      own DataFrame. */
  function JoinOn(left: Table, right: Table, lname: string, rname: string): (r: Result<Table, AnalysisError>)
    ensures r.Ok? <==> Resolve(left.attrs, ByName(lname)).Ok? && Resolve(right.attrs, ByName(rname)).Ok?
    ensures r.Err? ==> r.error == (if Resolve(left.attrs, ByName(lname)).Err? then Resolve(left.attrs, ByName(lname)).error
                                   else Resolve(right.attrs, ByName(rname)).error)
  {
    var lk :- Resolve(left.attrs, ByName(lname));
    var rk :- Resolve(right.attrs, ByName(rname));
    Ok(LeftJoin(left, right, lk, rk))
  }

  /** Every joined row has one cell per attribute of both sides. */
  lemma LeftJoinValid(left: Table, right: Table, lk: nat, rk: nat)
    requires Valid(left) && Valid(right)
    ensures Valid(LeftJoin(left, right, lk, rk))
  {
    var j := LeftJoin(left, right, lk, rk);
    forall k | 0 <= k < |j.rows|
      ensures |j.rows[k]| == |j.attrs|
    {
      var r := j.rows[k];
      assert r in j.rows;
      FlatMapMember(left.rows, Joiner(right, lk, rk), r);
      var i :| 0 <= i < |left.rows| && r in JoinRow(left.rows[i], right, lk, rk);
      JoinRowWidth(left.rows[i], right, lk, rk, r);
    }
  }

  lemma JoinRowWidth(l: seq<Value>, right: Table, lk: nat, rk: nat, r: seq<Value>)
    requires Valid(right) && r in JoinRow(l, right, lk, rk)
    ensures |r| == |l| + |right.attrs|
  {
    var ms := Matches(right.rows, rk, At(l, lk));
    if ms != [] {
      var j :| 0 <= j < |ms| && r == l + ms[j];
      assert ms[j] in right.rows;
    }
  }

  /** A left join keeps every left row at least once. */
  lemma LeftJoinKeepsAll(left: Table, right: Table, lk: nat, rk: nat)
    ensures |LeftJoin(left, right, lk, rk).rows| >= |left.rows|
  {
    FlatMapAtLeast(left.rows, Joiner(right, lk, rk));
  }

  /** When no left row matches more than one right row, the join has exactly the left's rows. */
  lemma LeftJoinAtMostOne(left: Table, right: Table, lk: nat, rk: nat)
    requires forall k :: 0 <= k < |left.rows| ==> |Matches(right.rows, rk, At(left.rows[k], lk))| <= 1
    ensures |LeftJoin(left, right, lk, rk).rows| == |left.rows|
  {
    FlatMapExactlyOne(left.rows, Joiner(right, lk, rk));
  }

  /** Joining on a key that is unique among the right rows (as `user_id` in the users table)
      keeps the left table's row count. */
  lemma LeftJoinUniqueKey(left: Table, right: Table, lk: nat, rk: nat)
    requires forall i, j :: 0 <= i < j < |right.rows| ==> !KeyEquals(At(right.rows[i], rk), At(right.rows[j], rk))
    ensures |LeftJoin(left, right, lk, rk).rows| == |left.rows|
  {
    forall k | 0 <= k < |left.rows|
      ensures |Matches(right.rows, rk, At(left.rows[k], lk))| <= 1
    {
      UniqueKeyMatches(right.rows, rk, At(left.rows[k], lk));
    }
    LeftJoinAtMostOne(left, right, lk, rk);
  }

  /** Row t of a matched left row's block is the left row followed by the t-th matching
      right row, the matches taken in right-table order. */
  lemma JoinRowMatched(l: seq<Value>, right: Table, lk: nat, rk: nat)
    requires Matches(right.rows, rk, At(l, lk)) != []
    ensures var rs := JoinRow(l, right, lk, rk);
      var hs := MatchIndices(right.rows, rk, At(l, lk), 0);
      |rs| == |hs| && forall t :: 0 <= t < |hs| ==> rs[t] == l + right.rows[hs[t]]
  {
    MatchesIndices(right.rows, rk, At(l, lk));
  }

  /** Left row k's rows sit contiguously, in the order of the right rows it matches, after the
      rows of the left rows before it: the fan-out of one order row into one row per match. */
  lemma LeftJoinBlock(left: Table, right: Table, lk: nat, rk: nat, k: nat)
    requires k < |left.rows|
    ensures var rows := LeftJoin(left, right, lk, rk).rows;
      var start := BlockStart(left.rows, Joiner(right, lk, rk), k);
      var block := JoinRow(left.rows[k], right, lk, rk);
      start + |block| <= |rows| && rows[start..start + |block|] == block
  {
    FlatMapBlock(left.rows, Joiner(right, lk, rk), k);
  }

  /** A left row that matches nothing, in particular one whose key is null, appears once,
      with a null in every right column. */
  lemma LeftJoinUnmatched(left: Table, right: Table, lk: nat, rk: nat, k: nat)
    requires k < |left.rows|
    requires Matches(right.rows, rk, At(left.rows[k], lk)) == []
    ensures var rows := LeftJoin(left, right, lk, rk).rows;
      var start := BlockStart(left.rows, Joiner(right, lk, rk), k);
      start < |rows| && rows[start] == left.rows[k] + Nulls(|right.attrs|)
  {
    LeftJoinBlock(left, right, lk, rk, k);
  }

  /** What a left outer join is, stated independently of its construction: a row is in the
      result exactly when it is some left row followed by a right row with an equal non-null
      key, or a left row that matches nothing followed by nulls. */
  lemma LeftJoinMember(left: Table, right: Table, lk: nat, rk: nat, r: seq<Value>)
    ensures r in LeftJoin(left, right, lk, rk).rows <==>
      exists k :: 0 <= k < |left.rows| && JoinedFrom(left.rows[k], right, lk, rk, r)
  {
    FlatMapMember(left.rows, Joiner(right, lk, rk), r);
    forall k | 0 <= k < |left.rows|
      ensures r in JoinRow(left.rows[k], right, lk, rk) <==> JoinedFrom(left.rows[k], right, lk, rk, r)
    {
      JoinRowMember(left.rows[k], right, lk, rk, r);
    }
  }

  predicate JoinedFrom(l: seq<Value>, right: Table, lk: nat, rk: nat, r: seq<Value>)
  {
    || (exists m :: m in right.rows && KeyEquals(At(l, lk), At(m, rk)) && r == l + m)
    || (Matches(right.rows, rk, At(l, lk)) == [] && r == l + Nulls(|right.attrs|))
  }

  lemma JoinRowMember(l: seq<Value>, right: Table, lk: nat, rk: nat, r: seq<Value>)
    ensures r in JoinRow(l, right, lk, rk) <==> JoinedFrom(l, right, lk, rk, r)
  {
    var ms := Matches(right.rows, rk, At(l, lk));
    if ms != [] {
      if r in JoinRow(l, right, lk, rk) {
        var j :| 0 <= j < |ms| && r == l + ms[j];
        assert ms[j] in ms;
      }
      if exists m :: m in right.rows && KeyEquals(At(l, lk), At(m, rk)) && r == l + m {
        var m :| m in right.rows && KeyEquals(At(l, lk), At(m, rk)) && r == l + m;
        var j :| 0 <= j < |ms| && ms[j] == m;
        assert JoinRow(l, right, lk, rk)[j] == r;
      }
    }
  }

  /** Every joined row begins with a left row (given rows as wide as the left's attributes). */
  lemma LeftJoinPrefix(left: Table, right: Table, lk: nat, rk: nat, i: nat)
    requires i < |LeftJoin(left, right, lk, rk).rows|
    ensures var r := LeftJoin(left, right, lk, rk).rows[i];
      exists k :: 0 <= k < |left.rows| && |r| >= |left.rows[k]| && r[..|left.rows[k]|] == left.rows[k]
  {
    var r := LeftJoin(left, right, lk, rk).rows[i];
    assert r in LeftJoin(left, right, lk, rk).rows;
    FlatMapMember(left.rows, Joiner(right, lk, rk), r);
    var k :| 0 <= k < |left.rows| && r in JoinRow(left.rows[k], right, lk, rk);
  }
}
