/** Sequence helpers shared by the explode step and the join: each input element
    expands into a block of output elements, blocks concatenated in input order. */
module Seqs {

  function FlatMap<A, B>(xs: seq<A>, f: A -> seq<B>): seq<B>
  {
    if xs == [] then [] else f(xs[0]) + FlatMap(xs[1..], f)
  }

  /** Total length of the blocks. */
  function SumLengths<A, B>(xs: seq<A>, f: A -> seq<B>): nat
  {
    if xs == [] then 0 else |f(xs[0])| + SumLengths(xs[1..], f)
  }

  lemma {:induction false} FlatMapLength<A, B>(xs: seq<A>, f: A -> seq<B>)
    ensures |FlatMap(xs, f)| == SumLengths(xs, f)
  {
    if xs != [] {
      FlatMapLength(xs[1..], f);
    }
  }

  lemma {:induction false} FlatMapAppend<A, B>(xs: seq<A>, ys: seq<A>, f: A -> seq<B>)
    ensures FlatMap(xs + ys, f) == FlatMap(xs, f) + FlatMap(ys, f)
  {
    if xs == [] {
      assert xs + ys == ys;
    } else {
      assert (xs + ys)[1..] == xs[1..] + ys;
      FlatMapAppend(xs[1..], ys, f);
    }
  }

  /** When every element yields at least one output, there are at least as many outputs as inputs. */
  lemma {:induction false} FlatMapAtLeast<A, B>(xs: seq<A>, f: A -> seq<B>)
    requires forall i :: 0 <= i < |xs| ==> |f(xs[i])| >= 1
    ensures |FlatMap(xs, f)| >= |xs|
  {
    if xs != [] {
      assert |f(xs[0])| >= 1;
      FlatMapAtLeast(xs[1..], f);
    }
  }

  /** When every element yields exactly one output, there are exactly as many outputs as inputs. */
  lemma {:induction false} FlatMapExactlyOne<A, B>(xs: seq<A>, f: A -> seq<B>)
    requires forall i :: 0 <= i < |xs| ==> |f(xs[i])| == 1
    ensures |FlatMap(xs, f)| == |xs|
  {
    if xs != [] {
      assert |f(xs[0])| == 1;
      FlatMapExactlyOne(xs[1..], f);
    }
  }

  /** Where the block of the k-th element starts. */
  function BlockStart<A, B>(xs: seq<A>, f: A -> seq<B>, k: nat): nat
    requires k <= |xs|
  {
    |FlatMap(xs[..k], f)|
  }

  /** The k-th element's block sits, contiguous and unchanged, at BlockStart(xs, f, k). */
  lemma FlatMapBlock<A, B>(xs: seq<A>, f: A -> seq<B>, k: nat)
    requires k < |xs|
    ensures BlockStart(xs, f, k) + |f(xs[k])| <= |FlatMap(xs, f)|
    ensures FlatMap(xs, f)[BlockStart(xs, f, k)..BlockStart(xs, f, k) + |f(xs[k])|] == f(xs[k])
  {
    assert xs == xs[..k] + ([xs[k]] + xs[k + 1..]);
    FlatMapAppend(xs[..k], [xs[k]] + xs[k + 1..], f);
    FlatMapAppend([xs[k]], xs[k + 1..], f);
    assert FlatMap([xs[k]], f) == f(xs[k]) by {
      assert [xs[k]][1..] == [];
    }
  }

  /** Output j of the k-th element's block is at BlockStart(xs, f, k) + j. */
  lemma FlatMapAt<A, B>(xs: seq<A>, f: A -> seq<B>, k: nat, j: nat)
    requires k < |xs| && j < |f(xs[k])|
    ensures BlockStart(xs, f, k) + j < |FlatMap(xs, f)|
    ensures FlatMap(xs, f)[BlockStart(xs, f, k) + j] == f(xs[k])[j]
  {
    FlatMapBlock(xs, f, k);
    var start := BlockStart(xs, f, k);
    assert FlatMap(xs, f)[start..start + |f(xs[k])|][j] == FlatMap(xs, f)[start + j];
  }

  /** An output is in the result exactly when it is in the block of some input element. */
  lemma {:induction false} FlatMapMember<A, B>(xs: seq<A>, f: A -> seq<B>, b: B)
    ensures b in FlatMap(xs, f) <==> exists i :: 0 <= i < |xs| && b in f(xs[i])
  {
    if xs != [] {
      FlatMapMember(xs[1..], f, b);
      if b in FlatMap(xs[1..], f) {
        var i :| 0 <= i < |xs[1..]| && b in f(xs[1..][i]);
        assert b in f(xs[i + 1]);
      }
      if exists i :: 0 <= i < |xs| && b in f(xs[i]) {
        var i :| 0 <= i < |xs| && b in f(xs[i]);
        if i > 0 {
          assert xs[1..][i - 1] == xs[i];
        }
      }
    }
  }
}
