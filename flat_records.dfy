/** Flattening one decoded JSON object into one flat record, as pandas' `json_normalize`
    does for each element it is given (its `_normalise_json_ordered` step): the top-level
    values that are not objects come first, under their own keys; then every nested object
    is expanded recursively, a value reached through keys k1, k2, ..., kn becoming the
    column "k1.k2. ... .kn". An empty nested object contributes no column. Lists are leaf
    values: they are kept as they are, not expanded. */
module FlatRecords {
  import opened Wrappers
  import opened JsonValues

  /** One flattened row as the Python dict pandas builds: column name to leaf value,
      in insertion order. */
  type Record = seq<(string, Json)>

  /** `json_normalize`'s default `sep`. */
  const Separator: string := "."

  /** The key of `key` nested under `prefix`; at the top level the key stands alone. */
  function Extend(prefix: string, key: string): string
  {
    if prefix == "" then key else prefix + Separator + key
  }

  /** The column name that a path of keys is flattened to. */
  function PathName(prefix: string, path: seq<string>): string
    decreases path
  {
    if path == [] then prefix else PathName(Extend(prefix, path[0]), path[1..])
  }

  /** The value reached by following `path` through nested objects, provided it is not itself an object. */
  function LeafAt(v: Json, path: seq<string>): Option<Json>
    decreases path
  {
    if path == [] then (if v.JObj? then None else Some(v))
    else if !v.JObj? then None
    else match Get(v.fields, path[0])
      case None => None
      case Some(w) => LeafAt(w, path[1..])
  }

  /** The leaf pairs of `o.fields[i..]` under `prefix`, objects expanded in place, in field order. */
  function Leaves(prefix: string, o: Json, i: nat): (r: seq<(string, Json)>)
    requires o.JObj? && i <= |o.fields|
    ensures forall q :: q in r ==> !q.1.JObj?
    decreases o, |o.fields| - i
  {
    if i == |o.fields| then []
    else
      var (k, v) := o.fields[i];
      (if v.JObj? then Leaves(Extend(prefix, k), v, 0) else [(Extend(prefix, k), v)])
      + Leaves(prefix, o, i + 1)
  }

  /** The pairs of an object whose values are not objects, in order. */
  function ScalarFields(kvs: seq<(string, Json)>): (r: seq<(string, Json)>)
    ensures forall q :: q in r <==> q in kvs && !q.1.JObj?
    ensures DistinctKeys(kvs) ==> DistinctKeys(r)
    ensures (forall i :: 0 <= i < |kvs| ==> !kvs[i].1.JObj?) ==> r == kvs
  {
    if kvs == [] then []
    else if kvs[0].1.JObj? then ScalarFields(kvs[1..])
    else [kvs[0]] + ScalarFields(kvs[1..])
  }

  /** The pairs of an object whose values are objects, in order. */
  function ObjectFields(kvs: seq<(string, Json)>): (r: seq<(string, Json)>)
    ensures forall q :: q in r <==> q in kvs && q.1.JObj?
    ensures (forall q :: q in kvs ==> !q.1.JObj?) ==> r == []
  {
    if kvs == [] then []
    else if kvs[0].1.JObj? then [kvs[0]] + ObjectFields(kvs[1..])
    else ObjectFields(kvs[1..])
  }

  /** Everything the flattening of an object assigns, in assignment order: top-level
      non-object values, then the leaves of the nested objects. */
  function LeafList(fields: seq<(string, Json)>): seq<(string, Json)>
  {
    ScalarFields(fields) + NestedLeaves(fields)
  }

  function NestedLeaves(fields: seq<(string, Json)>): seq<(string, Json)>
  {
    Leaves("", JObj(ObjectFields(fields)), 0)
  }

  /** The value of the LAST pair whose key is k: what a sequence of dict assignments leaves behind. */
  function Latest(ps: seq<(string, Json)>, k: string): (r: Option<Json>)
    ensures r.Some? ==> (k, r.value) in ps
    ensures r.None? ==> forall q :: q in ps ==> q.0 != k
  {
    if ps == [] then None
    else match Latest(ps[1..], k)
      case Some(w) => Some(w)
      case None => if ps[0].0 == k then Some(ps[0].1) else None
  }

  /** The dict assignment `d[k] = v`: an existing key keeps its place, a new key goes last. */
  function Put(d: Record, k: string, v: Json): Record
  {
    if d == [] then [(k, v)]
    else if d[0].0 == k then [(k, v)] + d[1..]
    else [d[0]] + Put(d[1..], k, v)
  }

  lemma {:induction false} PutGet(d: Record, k: string, v: Json, k': string)
    ensures Get(Put(d, k, v), k') == if k' == k then Some(v) else Get(d, k')
  {
    if d != [] && d[0].0 != k {
      PutGet(d[1..], k, v, k');
    }
  }

  lemma ConsDistinct(p: (string, Json), d: Record)
    requires DistinctKeys(d) && p.0 !in Keys(d)
    ensures DistinctKeys([p] + d)
  {
    forall i, j | 0 <= i < j < |[p] + d| ensures ([p] + d)[i].0 != ([p] + d)[j].0 {
      if i == 0 {
        assert ([p] + d)[j] == d[j - 1] && Keys(d)[j - 1] == d[j - 1].0;
      } else {
        assert ([p] + d)[i] == d[i - 1] && ([p] + d)[j] == d[j - 1];
      }
    }
  }

  lemma {:induction false} PutDistinct(d: Record, k: string, v: Json)
    requires DistinctKeys(d)
    ensures DistinctKeys(Put(d, k, v))
  {
    if d != [] && d[0].0 != k {
      var rest := Put(d[1..], k, v);
      PutDistinct(d[1..], k, v);
      PutGet(d[1..], k, v, d[0].0);
      assert d[0].0 !in Keys(d[1..]) by {
        forall j | 0 <= j < |d[1..]| ensures Keys(d[1..])[j] != d[0].0 {
          assert d[1..][j] == d[j + 1];
        }
      }
      assert d[0].0 !in Keys(rest);
      ConsDistinct(d[0], rest);
      assert Put(d, k, v) == [d[0]] + rest;
    }
  }

  /** Assigning a key the dict does not hold appends it. */
  lemma {:induction false} PutFresh(d: Record, k: string, v: Json)
    requires forall q :: q in d ==> q.0 != k
    ensures Put(d, k, v) == d + [(k, v)]
  {
    if d != [] {
      PutFresh(d[1..], k, v);
    }
  }

  /** Assigning the pairs of `ps` into `d` one after another (a `dict.update`, or a dict
      comprehension when `d` is empty). */
  function PutAll(d: Record, ps: seq<(string, Json)>): Record
    decreases ps
  {
    if ps == [] then d else PutAll(Put(d, ps[0].0, ps[0].1), ps[1..])
  }

  /** After the assignments a key holds its last assigned value, or what it held before. */
  lemma {:induction false} PutAllGet(d: Record, ps: seq<(string, Json)>, k: string)
    ensures Get(PutAll(d, ps), k) == if Latest(ps, k).Some? then Latest(ps, k) else Get(d, k)
    decreases ps
  {
    if ps != [] {
      PutAllGet(Put(d, ps[0].0, ps[0].1), ps[1..], k);
      PutGet(d, ps[0].0, ps[0].1, k);
    }
  }

  lemma {:induction false} PutAllDistinct(d: Record, ps: seq<(string, Json)>)
    requires DistinctKeys(d)
    ensures DistinctKeys(PutAll(d, ps))
    decreases ps
  {
    if ps != [] {
      PutDistinct(d, ps[0].0, ps[0].1);
      PutAllDistinct(Put(d, ps[0].0, ps[0].1), ps[1..]);
    }
  }

  /** Assigning pairs with keys that are all new and distinct just appends them. */
  lemma {:induction false} PutAllFresh(d: Record, ps: seq<(string, Json)>)
    requires DistinctKeys(d + ps)
    ensures PutAll(d, ps) == d + ps
    decreases ps
  {
    if ps != [] {
      assert forall q :: q in d ==> q.0 != ps[0].0 by {
        forall q | q in d ensures q.0 != ps[0].0 {
          var i :| 0 <= i < |d| && d[i] == q;
          assert (d + ps)[i] == q && (d + ps)[|d|] == ps[0];
        }
      }
      PutFresh(d, ps[0].0, ps[0].1);
      assert d + [ps[0]] + ps[1..] == d + ps;
      PutAllFresh(d + [ps[0]], ps[1..]);
    }
  }

  /** The flat record of one object. Assigning the top-level values and then the nested
      leaves into one dict is the dict pandas gets by merging the two. */
  function FlattenObject(fields: seq<(string, Json)>): (rec: Record)
    ensures DistinctKeys(rec)
  {
    PutAllDistinct([], LeafList(fields));
    PutAll([], LeafList(fields))
  }

  /** The flat record of an object is a dict that holds, for each column, the value
      last assigned to it; every column it holds is a leaf of the object. */
  lemma FlattenObjectSound(fields: seq<(string, Json)>)
    ensures DistinctKeys(FlattenObject(fields))
    ensures forall k :: Get(FlattenObject(fields), k) == Latest(LeafList(fields), k)
    ensures forall q :: q in FlattenObject(fields) ==> q in LeafList(fields) && !q.1.JObj?
  {
    var r := FlattenObject(fields);
    PutAllDistinct([], LeafList(fields));
    forall k ensures Get(r, k) == Latest(LeafList(fields), k) {
      PutAllGet([], LeafList(fields), k);
    }
    forall q | q in r ensures q in LeafList(fields) && !q.1.JObj? {
      GetDistinct(r, q.0, q.1);
      assert (q.0, Latest(LeafList(fields), q.0).value) in LeafList(fields);
    }
  }

  /** An object whose values are all scalars or lists flattens to exactly its own pairs. */
  lemma FlattenScalarObject(fields: seq<(string, Json)>)
    requires DistinctKeys(fields)
    requires forall i :: 0 <= i < |fields| ==> !fields[i].1.JObj?
    ensures FlattenObject(fields) == fields
  {
    assert ObjectFields(fields) == [];
    assert NestedLeaves(fields) == [];
    assert LeafList(fields) == fields;
    PutAllFresh([], fields);
    assert [] + fields == fields;
  }

  /** The last pair for k in `a + b` comes from b when b assigns k at all. */
  lemma {:induction false} LatestAppend(a: seq<(string, Json)>, b: seq<(string, Json)>, k: string)
    ensures Latest(a + b, k) == if Latest(b, k).Some? then Latest(b, k) else Latest(a, k)
  {
    if a == [] {
      assert a + b == b;
    } else {
      assert (a + b)[1..] == a[1..] + b;
      LatestAppend(a[1..], b, k);
    }
  }

  lemma LatestDistinct(ps: seq<(string, Json)>, k: string, v: Json)
    requires DistinctKeys(ps) && (k, v) in ps
    ensures Latest(ps, k) == Some(v)
  {
    var w := Latest(ps, k).value;
    var i :| 0 <= i < |ps| && ps[i] == (k, v);
    var j :| 0 <= j < |ps| && ps[j] == (k, w);
    assert i == j;
  }

  /** A top-level field whose value is not an object keeps its key and its value, unless
      some nested leaf is flattened to that very name. */
  lemma TopLevelColumn(fields: seq<(string, Json)>, k: string, v: Json)
    requires DistinctKeys(fields) && (k, v) in fields && !v.JObj?
    requires forall q :: q in NestedLeaves(fields) ==> q.0 != k
    ensures Get(FlattenObject(fields), k) == Some(v)
  {
    FlattenObjectSound(fields);
    LatestAppend(ScalarFields(fields), NestedLeaves(fields), k);
    LatestDistinct(ScalarFields(fields), k, v);
  }

  /** The part of `Leaves(prefix, o, i)` that the field at j >= i expands to is in it. */
  lemma {:induction false} PieceInLeaves(prefix: string, o: Json, i: nat, j: nat, q: (string, Json))
    requires o.JObj? && i <= j < |o.fields|
    requires if o.fields[j].1.JObj?
             then q in Leaves(Extend(prefix, o.fields[j].0), o.fields[j].1, 0)
             else q == (Extend(prefix, o.fields[j].0), o.fields[j].1)
    ensures q in Leaves(prefix, o, i)
    decreases j - i
  {
    var (k, v) := o.fields[i];
    var piece := if v.JObj? then Leaves(Extend(prefix, k), v, 0) else [(Extend(prefix, k), v)];
    var rest := Leaves(prefix, o, i + 1);
    assert Leaves(prefix, o, i) == piece + rest;
    if i < j {
      PieceInLeaves(prefix, o, i + 1, j, q);
    }
    InConcat(q, piece, rest);
  }

  lemma InConcat(q: (string, Json), a: seq<(string, Json)>, b: seq<(string, Json)>)
    requires q in a || q in b
    ensures q in a + b
  {
  }

  /** A leaf reached through a path of keys is among the leaves, under the path's name. */
  lemma {:induction false} LeafInLeaves(prefix: string, o: Json, path: seq<string>, v: Json)
    requires o.JObj? && |path| >= 1 && LeafAt(o, path) == Some(v)
    ensures (PathName(prefix, path), v) in Leaves(prefix, o, 0)
    decreases path
  {
    var k := path[0];
    var i := GetIndex(o.fields, k);
    var w := o.fields[i].1;
    assert LeafAt(w, path[1..]) == Some(v);
    assert PathName(prefix, path) == PathName(Extend(prefix, k), path[1..]);
    if |path| == 1 {
      assert path[1..] == [];
      PieceInLeaves(prefix, o, 0, i, (PathName(prefix, path), v));
    } else {
      LeafInLeaves(Extend(prefix, k), w, path[1..], v);
      PieceInLeaves(prefix, o, 0, i, (PathName(prefix, path), v));
    }
  }

  /** Looking up a key whose first value is an object finds the same value among the object fields. */
  lemma {:induction false} GetObjectFields(fields: seq<(string, Json)>, k: string)
    requires Get(fields, k).Some? && Get(fields, k).value.JObj?
    ensures Get(ObjectFields(fields), k) == Get(fields, k)
  {
    if fields[0].0 != k {
      GetObjectFields(fields[1..], k);
    }
  }

  /** A nested value reached through keys k1, ..., kn (n >= 1) is the value of column
      "k1. ... .kn" of the flat record, provided no other leaf is flattened to that name
      with a different value. */
  lemma PathColumn(fields: seq<(string, Json)>, path: seq<string>, v: Json)
    requires |path| >= 1 && LeafAt(JObj(fields), path) == Some(v)
    requires forall q :: q in LeafList(fields) && q.0 == PathName("", path) ==> q.1 == v
    ensures Get(FlattenObject(fields), PathName("", path)) == Some(v)
  {
    var name := PathName("", path);
    PathLeafListed(fields, path, v);
    PutAllGet([], LeafList(fields), name);
    var l := Latest(LeafList(fields), name);
    assert l.Some? by {
      assert (name, v) in LeafList(fields);
    }
    assert (name, l.value) in LeafList(fields);
  }

  /** A top-level key is its own column name. */
  lemma TopLevelName(k: string)
    ensures PathName("", [k]) == k
  {
    assert [k][1..] == [];
    assert Extend("", k) == k;
  }

  lemma PathLeafListed(fields: seq<(string, Json)>, path: seq<string>, v: Json)
    requires |path| >= 1 && LeafAt(JObj(fields), path) == Some(v)
    ensures (PathName("", path), v) in LeafList(fields)
  {
    var name := PathName("", path);
    var w := Get(fields, path[0]).value;
    if |path| == 1 {
      assert path == [path[0]];
      TopLevelName(path[0]);
      assert name == path[0];
      assert LeafAt(w, []) == Some(v);
      assert (name, v) in fields;
      assert (name, v) in ScalarFields(fields);
    } else {
      assert w.JObj?;
      GetObjectFields(fields, path[0]);
      LeafInLeaves("", JObj(ObjectFields(fields)), path, v);
      assert (name, v) in NestedLeaves(fields);
    }
  }
}
