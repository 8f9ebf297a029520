/**
 * Sequences of arrays joined into one array and cut apart again:
 * concatenation along axis -3 and its inverse for rank-3 arrays, and
 * stacking along a new leading axis and its inverse.
 */
module Axes {
  import opened Arrays
  import opened Pytrees

  /** Extent of axis -3 of a shape of rank at least 3. */
  function FeatureExtent(s: Shape): nat
    requires |s| >= 3
  {
    s[|s| - 3]
  }

  /** The axes in front of axis -3. */
  function Lead(s: Shape): Shape
    requires |s| >= 3
  {
    s[..|s| - 3]
  }

  /** The two axes behind axis -3. */
  function Tail(s: Shape): Shape
    requires |s| >= 3
  {
    s[|s| - 2..]
  }

  /** Two shapes of one rank >= 3 that agree on every axis except axis -3. */
  predicate SameOffAxis(s: Shape, t: Shape) {
    |s| == |t| >= 3 && Lead(s) == Lead(t) && Tail(s) == Tail(t)
  }

  lemma ProdAroundAxis(s: Shape)
    requires |s| >= 3
    ensures Prod(s) == Prod(Lead(s)) * (FeatureExtent(s) * Prod(Tail(s)))
  {
    var n := |s|;
    assert s == s[..n - 3] + ([s[n - 3]] + s[n - 2..]);
    ProdAppend(s[..n - 3], [s[n - 3]] + s[n - 2..]);
  }

  /** Shapes that agree off axis -3 have elements in proportion to their axis -3 extents. */
  lemma ProdOffAxis(s: Shape, s0: Shape)
    requires SameOffAxis(s, s0)
    ensures Prod(s) == Prod(Lead(s0)) * (FeatureExtent(s) * Prod(Tail(s0)))
  {
    ProdAroundAxis(s);
  }

  /** A shape with its axis -3 extent replaced by `c`. */
  lemma ReplaceFeature(s0: Shape, c: nat)
    requires |s0| >= 3
    ensures var s := Lead(s0) + [c] + Tail(s0); SameOffAxis(s, s0) && FeatureExtent(s) == c
  {
    var s := Lead(s0) + [c] + Tail(s0);
    assert s[..|s| - 3] == Lead(s0);
    assert s[|s| - 2..] == Tail(s0);
  }

  /** The element sequences of some arrays. */
  function LeafData(ls: seq<Array>): (r: seq<seq<Scalar>>)
    ensures |r| == |ls| && forall i :: 0 <= i < |ls| ==> r[i] == ls[i].data
  {
    seq(|ls|, i requires 0 <= i < |ls| => ls[i].data)
  }

  // ----- concatenation along axis -3 -----

  /**
   * Arrays that `jnp.concatenate(ls, axis=-3)` accepts: at least one, and
   * all agreeing with the first off axis -3 (so, `SameOffAxis` being an
   * equivalence, with each other).
   */
  predicate Concatenable(ls: seq<Array>) {
    |ls| > 0 && forall i :: 0 <= i < |ls| ==> SameOffAxis(ls[i].shape, ls[0].shape)
  }

  predicate RanksAtLeast3(ls: seq<Array>) {
    forall i :: 0 <= i < |ls| ==> |ls[i].shape| >= 3
  }

  /** The axis -3 extents of the arrays. */
  function FeatureExtents(ls: seq<Array>): (r: seq<nat>)
    requires RanksAtLeast3(ls)
    ensures |r| == |ls| && forall i :: 0 <= i < |ls| ==> r[i] == FeatureExtent(ls[i].shape)
  {
    seq(|ls|, i requires 0 <= i < |ls| => FeatureExtent(ls[i].shape))
  }

  /** Every extent scaled by the size of one slice. */
  function Blocks(extents: seq<nat>, slice: nat): (r: seq<nat>)
    ensures |r| == |extents| && forall i :: 0 <= i < |extents| ==> r[i] == extents[i] * slice
    ensures Sum(r) == Sum(extents) * slice
  {
    var r := seq(|extents|, i requires 0 <= i < |extents| => extents[i] * slice);
    SumScale(extents, slice, r);
    r
  }

  /**
   * Concatenation along one axis in row-major order: each of the `L`
   * blocks of the result holds the corresponding block of every input,
   * input `i` contributing `bs[i]` elements per block.
   */
  function Interleave(ds: seq<seq<Scalar>>, bs: seq<nat>, L: nat): (r: seq<Scalar>)
    requires |ds| == |bs|
    requires forall i :: 0 <= i < |ds| ==> |ds[i]| == L * bs[i]
    ensures |r| == L * Sum(bs)
    decreases L
  {
    if L == 0 then []
    else
      assert forall i :: 0 <= i < |ds| ==> bs[i] <= |ds[i]| && |ds[i]| - bs[i] == (L - 1) * bs[i] by {
        forall i | 0 <= i < |ds|
          ensures bs[i] <= |ds[i]| && |ds[i]| - bs[i] == (L - 1) * bs[i]
        {
          MulPred(L, bs[i]);
        }
      }
      MulPred(L, Sum(bs));
      assert Lengths(Heads(ds, bs)) == bs;
      Flatten(Heads(ds, bs)) + Interleave(Rests(ds, bs), bs, L - 1)
  }

  /** The first `bs[i]` elements of each `ds[i]`. */
  function Heads(ds: seq<seq<Scalar>>, bs: seq<nat>): (r: seq<seq<Scalar>>)
    requires |ds| == |bs| && forall i :: 0 <= i < |ds| ==> bs[i] <= |ds[i]|
    ensures |r| == |ds| && forall i :: 0 <= i < |ds| ==> r[i] == ds[i][..bs[i]]
  {
    seq(|ds|, i requires 0 <= i < |ds| => ds[i][..bs[i]])
  }

  /** Each `ds[i]` without its first `bs[i]` elements. */
  function Rests(ds: seq<seq<Scalar>>, bs: seq<nat>): (r: seq<seq<Scalar>>)
    requires |ds| == |bs| && forall i :: 0 <= i < |ds| ==> bs[i] <= |ds[i]|
    ensures |r| == |ds| && forall i :: 0 <= i < |ds| ==> r[i] == ds[i][bs[i]..]
  {
    seq(|ds|, i requires 0 <= i < |ds| => ds[i][bs[i]..])
  }

  lemma MulPred(L: nat, b: nat)
    requires L >= 1
    ensures b <= L * b && L * b - b == (L - 1) * b
  {
  }

  /** With a single block, concatenation along the axis is plain concatenation. */
  lemma InterleaveOneBlock(ds: seq<seq<Scalar>>, bs: seq<nat>)
    requires |ds| == |bs| && forall i :: 0 <= i < |ds| ==> |ds[i]| == bs[i]
    ensures Interleave(ds, bs, 1) == Flatten(ds)
  {
    var hs := Heads(ds, bs);
    forall i | 0 <= i < |ds|
      ensures hs[i] == ds[i]
    {
      assert ds[i][..bs[i]] == ds[i];
    }
    assert hs == ds;
  }

  /** The shape of the concatenation: the first shape with the summed axis -3 extent. */
  function ConcatShape(ls: seq<Array>): (s: Shape)
    requires Concatenable(ls)
    ensures RanksAtLeast3(ls)
    ensures SameOffAxis(s, ls[0].shape)
    ensures FeatureExtent(s) == Sum(FeatureExtents(ls))
  {
    var s0 := ls[0].shape;
    ReplaceFeature(s0, Sum(FeatureExtents(ls)));
    Lead(s0) + [Sum(FeatureExtents(ls))] + Tail(s0)
  }

  /** Element counts of concatenable arrays, block by block. */
  lemma ConcatSizes(ls: seq<Array>)
    requires Concatenable(ls)
    ensures var s0 := ls[0].shape;
      var bs := Blocks(FeatureExtents(ls), Prod(Tail(s0)));
      && (forall i :: 0 <= i < |ls| ==> |LeafData(ls)[i]| == Prod(Lead(s0)) * bs[i])
      && Prod(ConcatShape(ls)) == Prod(Lead(s0)) * Sum(bs)
  {
    var s0 := ls[0].shape;
    forall i | 0 <= i < |ls|
      ensures |ls[i].data| == Prod(Lead(s0)) * (FeatureExtent(ls[i].shape) * Prod(Tail(s0)))
    {
      ProdOffAxis(ls[i].shape, s0);
    }
    ProdOffAxis(ConcatShape(ls), s0);
  }

  /** `jnp.concatenate(ls, axis=-3)`. */
  function Concat(ls: seq<Array>): (r: Array)
    requires Concatenable(ls)
    ensures r.shape == ConcatShape(ls)
  {
    var s0 := ls[0].shape;
    ConcatSizes(ls);
    NdArray(ConcatShape(ls), Interleave(LeafData(ls), Blocks(FeatureExtents(ls), Prod(Tail(s0))), Prod(Lead(s0))))
  }

  /** Rank-3 arrays that share their two trailing extents `hw`. */
  predicate OnGrid(ls: seq<Array>, hw: Shape) {
    forall i :: 0 <= i < |ls| ==> |ls[i].shape| == 3 && ls[i].shape[1..] == hw
  }

  /** For rank-3 arrays, concatenation along axis -3 joins the element sequences. */
  lemma ConcatOnGrid(ls: seq<Array>, hw: Shape)
    requires |ls| > 0 && OnGrid(ls, hw)
    ensures Concatenable(ls)
    ensures Concat(ls).shape == [Sum(FeatureExtents(ls))] + hw
    ensures Concat(ls).data == Flatten(LeafData(ls))
  {
    forall i | 0 <= i < |ls|
      ensures SameOffAxis(ls[i].shape, ls[0].shape)
    {
      assert ls[i].shape[1..] == Tail(ls[i].shape);
      assert ls[0].shape[1..] == Tail(ls[0].shape);
    }
    var s0 := ls[0].shape;
    assert Lead(s0) == [];
    assert Tail(s0) == hw;
    ConcatSizes(ls);
    InterleaveOneBlock(LeafData(ls), Blocks(FeatureExtents(ls), Prod(Tail(s0))));
  }

  // ----- cutting a rank-3 array along its leading axis -----

  lemma Prod3(c: nat, h: nat, w: nat)
    ensures Prod([c, h, w]) == c * (h * w)
  {
    assert [w][1..] == [];
    assert Prod([w]) == w;
    assert [h, w][1..] == [w];
    assert Prod([h, w]) == h * w;
    assert [c, h, w][1..] == [h, w];
  }

  /** Elements of one slice along the leading axis of a rank-3 array. */
  function Plane(a: Array): (p: nat)
    requires |a.shape| == 3
    ensures |a.data| == a.shape[0] * p
  {
    assert a.shape == [a.shape[0], a.shape[1], a.shape[2]];
    Prod3(a.shape[0], a.shape[1], a.shape[2]);
    a.shape[1] * a.shape[2]
  }

  /** One piece cut from a rank-3 array: `c` slices of its leading axis. */
  function Piece(a: Array, c: nat, chunk: seq<Scalar>): (p: Array)
    requires |a.shape| == 3 && |chunk| == c * Plane(a)
    ensures p.shape == [c] + a.shape[1..] && p.data == chunk
  {
    Prod3(c, a.shape[1], a.shape[2]);
    assert [c] + a.shape[1..] == [c, a.shape[1], a.shape[2]];
    NdArray([c] + a.shape[1..], chunk)
  }

  /**
   * A rank-3 array cut along its leading axis into consecutive pieces of
   * the given extents.
   */
  function Pieces(a: Array, sizes: seq<nat>): (r: seq<Array>)
    requires |a.shape| == 3 && Sum(sizes) == a.shape[0]
    ensures |r| == |sizes|
    ensures forall i :: 0 <= i < |sizes| ==> r[i].shape == [sizes[i]] + a.shape[1..]
    ensures forall i :: 0 <= i < |sizes| ==> r[i].data == Split(a.data, Blocks(sizes, Plane(a)))[i]
  {
    var chunks := Split(a.data, Blocks(sizes, Plane(a)));
    seq(|sizes|, i requires 0 <= i < |sizes| => Piece(a, sizes[i], chunks[i]))
  }

  /** A rank-3 array on the grid holds its leading extent times the grid's plane. */
  lemma GridSize(a: Array, hw: Shape, p: nat)
    requires |a.shape| == 3 && a.shape[1..] == hw && p == hw[0] * hw[1]
    ensures |a.data| == a.shape[0] * p
  {
    var s := a.shape;
    assert s == [s[0], s[1], s[2]];
    Prod3(s[0], s[1], s[2]);
  }

  /** The pieces of a concatenation on a grid have the lengths of the concatenated arrays. */
  lemma BlocksOnGrid(ls: seq<Array>, hw: Shape, p: nat)
    requires |ls| > 0 && OnGrid(ls, hw) && |hw| == 2 && p == hw[0] * hw[1]
    ensures Blocks(FeatureExtents(ls), p) == Lengths(LeafData(ls))
  {
    forall i | 0 <= i < |ls|
      ensures FeatureExtents(ls)[i] * p == |ls[i].data|
    {
      GridSize(ls[i], hw, p);
    }
  }

  /** Cutting a concatenation of rank-3 arrays at their extents gives the arrays back. */
  lemma PiecesConcat(ls: seq<Array>, hw: Shape)
    requires |ls| > 0 && OnGrid(ls, hw)
    ensures Concatenable(ls) && |Concat(ls).shape| == 3
    ensures Sum(FeatureExtents(ls)) == Concat(ls).shape[0]
    ensures Pieces(Concat(ls), FeatureExtents(ls)) == ls
  {
    ConcatOnGrid(ls, hw);
    var c := Concat(ls);
    assert c.shape[1..] == hw;
    assert |hw| == 2;
    BlocksOnGrid(ls, hw, Plane(c));
    SplitFlatten(LeafData(ls));
    var ps := Pieces(c, FeatureExtents(ls));
    forall i | 0 <= i < |ls|
      ensures ps[i] == ls[i]
    {
      assert ls[i].shape == [ls[i].shape[0]] + hw;
    }
  }

  // ----- stacking along a new leading axis -----

  /** Arrays that all have the shape `s`. */
  predicate AllShaped(ls: seq<Array>, s: Shape) {
    forall i :: 0 <= i < |ls| ==> ls[i].shape == s
  }

  /** `jnp.stack(ls, axis=0)` for arrays of one shape `s`. */
  function StackAll(ls: seq<Array>, s: Shape): (r: Array)
    requires AllShaped(ls, s)
    ensures r.shape == [|ls|] + s
    ensures r.data == Flatten(LeafData(ls))
  {
    SumConst(|ls|, Prod(s), Lengths(LeafData(ls)));
    NdArray([|ls|] + s, Flatten(LeafData(ls)))
  }

  /** `n` copies of `c`. */
  function Repeat(n: nat, c: nat): (r: seq<nat>)
    ensures |r| == n && forall i :: 0 <= i < n ==> r[i] == c
    ensures Sum(r) == n * c
  {
    var r := seq(n, i requires 0 <= i < n => c);
    SumConst(n, c, r);
    r
  }

  /** One slice along the leading axis. */
  function Slice(a: Array, chunk: seq<Scalar>): (p: Array)
    requires |a.shape| > 0 && |chunk| == Prod(a.shape[1..])
    ensures p.shape == a.shape[1..] && p.data == chunk
  {
    NdArray(a.shape[1..], chunk)
  }

  /** The slices of an array along its leading axis. */
  function Slices(a: Array): (r: seq<Array>)
    requires |a.shape| > 0
    ensures |r| == a.shape[0]
    ensures forall i :: 0 <= i < |r| ==> r[i].shape == a.shape[1..]
    ensures forall i :: 0 <= i < |r| ==> r[i].data == Split(a.data, Repeat(a.shape[0], Prod(a.shape[1..])))[i]
  {
    assert a.shape == [a.shape[0]] + a.shape[1..];
    var chunks := Split(a.data, Repeat(a.shape[0], Prod(a.shape[1..])));
    seq(a.shape[0], i requires 0 <= i < a.shape[0] => Slice(a, chunks[i]))
  }

  /** Slicing a stack along its leading axis gives the stacked arrays back. */
  lemma SlicesStack(ls: seq<Array>, s: Shape)
    requires AllShaped(ls, s)
    ensures Slices(StackAll(ls, s)) == ls
  {
    var st := StackAll(ls, s);
    assert st.shape[1..] == s;
    assert Repeat(|ls|, Prod(s)) == Lengths(LeafData(ls));
    SplitFlatten(LeafData(ls));
  }
}
