/** The JSON values `json.loads` produces. An object is the Python dict it decodes to,
    kept as its ordered key/value pairs. */
module JsonValues {
  import opened Wrappers

  /** Numbers are modelled as integers. */
  datatype Json =
    | JNull
    | JBool(b: bool)
    | JNum(n: int)
    | JStr(s: string)
    | JArr(elems: seq<Json>)
    | JObj(fields: seq<(string, Json)>)

  /** The Python exceptions the scripts can raise on decoded data. */
  datatype PyError =
    | TypeError                 // subscripting something that is not a dict with a string key
    | KeyError(key: string)     // a missing dict key or DataFrame column
    | NotImplementedError       // json_normalize given a scalar
    | JsonDecodeError(text: string)  // json.loads given text that is not JSON
    | AttributeError            // DataFrame reading dict rows meets a list, which has no keys()

  function Keys<V>(kvs: seq<(string, V)>): (ks: seq<string>)
    ensures |ks| == |kvs|
    ensures forall i :: 0 <= i < |kvs| ==> ks[i] == kvs[i].0
  {
    seq(|kvs|, i requires 0 <= i < |kvs| => kvs[i].0)
  }

  /** No key occurs twice, as in every Python dict. */
  predicate DistinctKeys<V>(kvs: seq<(string, V)>)
  {
    forall i, j :: 0 <= i < j < |kvs| ==> kvs[i].0 != kvs[j].0
  }

  /** `d[k]` / `d.get(k)`: the value of the first pair whose key is k. */
  function Get<V>(kvs: seq<(string, V)>, k: string): (r: Option<V>)
    ensures r.Some? <==> k in Keys(kvs)
    ensures r.Some? ==> (k, r.value) in kvs
  {
    if kvs == [] then None
    else if kvs[0].0 == k then Some(kvs[0].1)
    else
      assert Keys(kvs) == [kvs[0].0] + Keys(kvs[1..]);
      Get(kvs[1..], k)
  }

  /** The position Get reads from. */
  lemma {:induction false} GetIndex<V>(kvs: seq<(string, V)>, k: string) returns (i: nat)
    requires Get(kvs, k).Some?
    ensures i < |kvs| && kvs[i] == (k, Get(kvs, k).value)
    ensures forall j :: 0 <= j < i ==> kvs[j].0 != k
  {
    if kvs[0].0 == k {
      i := 0;
    } else {
      var i' := GetIndex(kvs[1..], k);
      i := i' + 1;
    }
  }

  /** In a dict every pair is what a lookup of its key returns. */
  lemma {:induction false} GetDistinct<V>(kvs: seq<(string, V)>, k: string, v: V)
    requires DistinctKeys(kvs) && (k, v) in kvs
    ensures Get(kvs, k) == Some(v)
  {
    var i := GetIndex(kvs, k);
    var j :| 0 <= j < |kvs| && kvs[j] == (k, v);
    assert i == j;
  }

  /** `data[key]` on a decoded JSON value. */
  function Subscript(data: Json, key: string): (r: Result<Json, PyError>)
    ensures r.Ok? <==> data.JObj? && key in Keys(data.fields)
    ensures r.Ok? ==> (key, r.value) in data.fields
    ensures !data.JObj? ==> r == Err(TypeError)
    ensures data.JObj? && key !in Keys(data.fields) ==> r == Err(KeyError(key))
  {
    if !data.JObj? then Err(TypeError)
    else match Get(data.fields, key)
      case Some(v) => Ok(v)
      case None => Err(KeyError(key))
  }
}
