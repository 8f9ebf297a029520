/**
 * Packing a tree into one array for a tower and unpacking a tower's output
 * into a tree: the leaves in key order concatenated along axis -3 (the
 * channel discipline) or stacked along a new axis 0 (the variable
 * discipline), and the inverse cuts.
 */
module Packing {
  import opened Results
  import opened Arrays
  import opened Pytrees
  import opened Axes

  predicate AllRanksAtLeast(shapes: ShapeTree, n: nat) {
    forall k :: k in shapes ==> |shapes[k]| >= n
  }

  /** The axis -3 extents of the leaves of a contract, in leaf order. */
  function Extents(shapes: ShapeTree): (r: seq<nat>)
    requires AllRanksAtLeast(shapes, 3)
    ensures |r| == |shapes|
    ensures forall i :: 0 <= i < |r| ==> r[i] == FeatureExtent(shapes[KeyOrder(shapes)[i]])
  {
    var ks := KeyOrder(shapes);
    seq(|ks|, i requires 0 <= i < |ks| => FeatureExtent(shapes[ks[i]]))
  }

  /** Sum of the axis -3 extents of a contract's leaves: the channel count of the packed array. */
  function ChannelCount(shapes: ShapeTree): nat
    requires AllRanksAtLeast(shapes, 3)
  {
    Sum(Extents(shapes))
  }

  /** A tree and its shapes have one leaf order. */
  lemma ShapeOfKeyOrder(t: Tree)
    ensures KeyOrder(ShapeOf(t)) == KeyOrder(t)
  {
    assert ShapeOf(t).Keys == t.Keys;
  }

  /** The extents of a tree's shapes are the extents of its leaves. */
  lemma ExtentsOfLeaves(t: Tree)
    requires AllRanksAtLeast(ShapeOf(t), 3)
    ensures RanksAtLeast3(Leaves(t))
    ensures Extents(ShapeOf(t)) == FeatureExtents(Leaves(t))
  {
    ShapeOfKeyOrder(t);
  }

  lemma LeavesRanks(t: Tree)
    requires RanksAtLeast3(Leaves(t))
    ensures AllRanksAtLeast(ShapeOf(t), 3)
  {
    forall k | k in t
      ensures |t[k].shape| >= 3
    {
      var i := KeyPosition(t, k);
    }
  }

  /**
   * `pack_pytree(t, axis=-3)`: the leaves, in key order, concatenated
   * along axis -3.
   */
  function Pack(t: Tree): (r: Result<Array>)
    ensures r.Success? <==> Concatenable(Leaves(t))
    ensures r.Success? ==> AllRanksAtLeast(ShapeOf(t), 3)
    ensures r.Success? ==> SameOffAxis(r.value.shape, Leaves(t)[0].shape)
    ensures r.Success? ==> FeatureExtent(r.value.shape) == ChannelCount(ShapeOf(t))
  {
    var ls := Leaves(t);
    if |ls| == 0 then Failure(ConcatError)
    else if !RanksAtLeast3(ls) then Failure(AxisError)
    else if !Concatenable(ls) then Failure(ConcatError)
    else
      LeavesRanks(t);
      ExtentsOfLeaves(t);
      Success(Concat(ls))
  }

  /** A leaf of rank below 3 makes packing fail with an axis error. */
  lemma PackRankError(t: Tree, k: string)
    requires k in t && |t[k].shape| < 3
    ensures Pack(t) == Failure(AxisError)
  {
    var i := KeyPosition(t, k);
  }

  /** The leaves of a tree are rank-3 arrays with trailing extents `hw`. */
  predicate OnTreeGrid(t: Tree, hw: Shape) {
    forall k :: k in t ==> |t[k].shape| == 3 && t[k].shape[1..] == hw
  }

  lemma LeavesOnGrid(t: Tree, hw: Shape)
    requires OnTreeGrid(t, hw)
    ensures OnGrid(Leaves(t), hw)
  {
  }

  /** Packing rank-3 leaves on one grid stacks their channels and joins their elements. */
  lemma PackOnGrid(t: Tree, hw: Shape)
    requires |t| > 0 && OnTreeGrid(t, hw)
    ensures Pack(t).Success?
    ensures Pack(t).value.shape == [ChannelCount(ShapeOf(t))] + hw
    ensures Pack(t).value.data == Flatten(LeafData(Leaves(t)))
  {
    LeavesOnGrid(t, hw);
    ConcatOnGrid(Leaves(t), hw);
    LeavesRanks(t);
    ExtentsOfLeaves(t);
  }

  /** Contracts a rank-3 array can be unpacked into along its leading axis. */
  predicate Unpackable(a: Array, shapes: ShapeTree)
    requires |a.shape| == 3
  {
    AllRanksAtLeast(shapes, 3) && ChannelCount(shapes) == a.shape[0]
  }

  /**
   * `unpack_to_pytree(a, shapes, axis=-3)` for a rank-3 array: `a` cut
   * along its leading axis into one piece per leaf of `shapes`, in key
   * order, piece `k` having the axis -3 extent of `shapes[k]`.
   */
  function Unpack(a: Array, shapes: ShapeTree): (r: Result<Tree>)
    requires |a.shape| == 3
    ensures r.Success? <==> Unpackable(a, shapes)
    ensures r.Success? ==> r.value.Keys == shapes.Keys
    ensures r.Success? ==> forall i :: 0 <= i < |shapes| ==>
      r.value[KeyOrder(shapes)[i]] == Pieces(a, Extents(shapes))[i]
  {
    if !AllRanksAtLeast(shapes, 3) then Failure(AxisError)
    else if ChannelCount(shapes) != a.shape[0] then Failure(SplitError)
    else
      var pieces := Pieces(a, Extents(shapes));
      FromKeyOrderKeys(shapes, pieces);
      assert forall i :: 0 <= i < |shapes| ==> FromLeaves(KeyOrder(shapes), pieces)[KeyOrder(shapes)[i]] == pieces[i] by {
        forall i | 0 <= i < |shapes| {
          FromKeyOrderAt(shapes, pieces, i);
        }
      }
      Success(FromLeaves(KeyOrder(shapes), pieces))
  }

  /** Each unpacked leaf has its contract's axis -3 extent and the array's trailing extents. */
  lemma UnpackShape(a: Array, shapes: ShapeTree, k: string)
    requires |a.shape| == 3 && Unpackable(a, shapes) && k in shapes
    ensures Unpack(a, shapes).value[k].shape == [FeatureExtent(shapes[k])] + a.shape[1..]
  {
    var i := KeyPosition(shapes, k);
  }

  /** Unpacking a packed tree against its own shapes gives the tree back. */
  lemma UnpackPack(t: Tree, hw: Shape)
    requires |t| > 0 && OnTreeGrid(t, hw)
    ensures Pack(t).Success? && |Pack(t).value.shape| == 3
    ensures Unpack(Pack(t).value, ShapeOf(t)) == Success(t)
  {
    PackOnGrid(t, hw);
    LeavesOnGrid(t, hw);
    PiecesConcat(Leaves(t), hw);
    ExtentsOfLeaves(t);
    ShapeOfKeyOrder(t);
    SameLeaves(t, Unpack(Pack(t).value, ShapeOf(t)).value);
  }

  // ----- stacking along a new axis 0 -----

  /** All leaves of the tree have the shape `s`. */
  predicate Uniform(t: Tree, s: Shape) {
    forall k :: k in t ==> t[k].shape == s
  }

  /** `stack_pytree(t, axis=0)`: the leaves, in key order, stacked along a new leading axis. */
  function Stack(t: Tree): (r: Result<Array>)
    ensures r.Success? <==> |t| > 0 && AllShaped(Leaves(t), Leaves(t)[0].shape)
    ensures r.Success? ==> r.value.shape == [|t|] + Leaves(t)[0].shape
    ensures r.Success? ==> r.value.data == Flatten(LeafData(Leaves(t)))
  {
    var ls := Leaves(t);
    if |ls| == 0 || !AllShaped(ls, ls[0].shape) then Failure(ConcatError)
    else Success(StackAll(ls, ls[0].shape))
  }

  /** Stacking leaves of one shape `s` adds a leading axis with one entry per leaf. */
  lemma StackUniform(t: Tree, s: Shape)
    requires |t| > 0 && Uniform(t, s)
    ensures Stack(t).Success? && Stack(t).value.shape == [|t|] + s
  {
  }

  /**
   * `unstack_to_pytree(a, shapes, axis=0)`: the slices of `a` along its
   * leading axis, one per leaf of `shapes`, in key order.
   */
  function Unstack(a: Array, shapes: ShapeTree): (r: Result<Tree>)
    ensures r.Success? <==> |a.shape| > 0 && a.shape[0] == |shapes|
    ensures r.Success? ==> r.value.Keys == shapes.Keys
    ensures r.Success? ==> forall i :: 0 <= i < |shapes| ==> r.value[KeyOrder(shapes)[i]] == Slices(a)[i]
  {
    if |a.shape| == 0 then Failure(AxisError)
    else if a.shape[0] != |shapes| then Failure(SplitError)
    else
      var slices := Slices(a);
      FromKeyOrderKeys(shapes, slices);
      assert forall i :: 0 <= i < |shapes| ==> FromLeaves(KeyOrder(shapes), slices)[KeyOrder(shapes)[i]] == slices[i] by {
        forall i | 0 <= i < |shapes| {
          FromKeyOrderAt(shapes, slices, i);
        }
      }
      Success(FromLeaves(KeyOrder(shapes), slices))
  }

  /** Each unstacked leaf has the array's shape without its leading axis. */
  lemma UnstackShape(a: Array, shapes: ShapeTree, k: string)
    requires |a.shape| > 0 && a.shape[0] == |shapes| && k in shapes
    ensures Unstack(a, shapes).value[k].shape == a.shape[1..]
  {
    var i := KeyPosition(shapes, k);
  }

  /** Unstacking a stacked tree against its own shapes gives the tree back. */
  lemma UnstackStack(t: Tree, s: Shape)
    requires |t| > 0 && Uniform(t, s)
    ensures Stack(t).Success?
    ensures Unstack(Stack(t).value, ShapeOf(t)) == Success(t)
  {
    SlicesStack(Leaves(t), s);
    ShapeOfKeyOrder(t);
    SameLeaves(t, Unstack(Stack(t).value, ShapeOf(t)).value);
  }
}
