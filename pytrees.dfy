/**
 * Trees of named fields and their shape contracts, with the helpers the
 * mappings use to move between a tree and its leaves: a fixed leaf order,
 * flattening and splitting of element sequences, expansion of leaves to
 * rank 3 and squeezing back, and leafwise maps.
 */
module Pytrees {
  import opened Results
  import opened Arrays
  import StringOrder

  /** A tree of fields: a dictionary from field name to array. */
  type Tree = map<string, Array>

  /** A shape contract: a dictionary from field name to the field's shape. */
  type ShapeTree = map<string, Shape>

  function ShapeOf(t: Tree): (s: ShapeTree)
    ensures s.Keys == t.Keys
    ensures forall k :: k in t ==> s[k] == t[k].shape
  {
    map k | k in t :: t[k].shape
  }

  predicate Distinct(ks: seq<string>) {
    forall i, j :: 0 <= i < j < |ks| ==> ks[i] != ks[j]
  }

  /** The order in which the leaves of a dictionary are flattened: sorted keys. */
  function KeyOrder<V>(m: map<string, V>): (ks: seq<string>)
    ensures |ks| == |m|
    ensures forall i :: 0 <= i < |ks| ==> ks[i] in m
  {
    StringOrder.SortedKeys(m.Keys)
  }

  lemma KeyOrderDistinct<V>(m: map<string, V>)
    ensures Distinct(KeyOrder(m))
  {
    forall i, j | 0 <= i < j < |KeyOrder(m)|
      ensures KeyOrder(m)[i] != KeyOrder(m)[j]
    {
      StringOrder.SortedKeysDistinct(m.Keys, i, j);
    }
  }

  /** The position of a key in the leaf order. */
  lemma KeyPosition<V>(m: map<string, V>, k: string) returns (i: nat)
    requires k in m
    ensures i < |KeyOrder(m)| && KeyOrder(m)[i] == k
  {
    i := StringOrder.SortedKeysComplete(m.Keys, k);
  }

  /** `jax.tree.leaves` of a dictionary of arrays. */
  function Leaves(t: Tree): (r: seq<Array>)
    ensures |r| == |t|
    ensures forall i :: 0 <= i < |r| ==> r[i] == t[KeyOrder(t)[i]]
  {
    var ks := KeyOrder(t);
    seq(|ks|, i requires 0 <= i < |ks| => t[ks[i]])
  }

  /** `jax.tree.unflatten` for a dictionary: the tree with `leaves` under `keys`. */
  function FromLeaves(keys: seq<string>, leaves: seq<Array>): (t: Tree)
    requires |keys| == |leaves|
    ensures t.Keys == set k | k in keys
    decreases |keys|
  {
    if keys == [] then map[]
    else FromLeaves(keys[1..], leaves[1..])[keys[0] := leaves[0]]
  }

  lemma {:induction false} FromLeavesAt(keys: seq<string>, leaves: seq<Array>, i: nat)
    requires |keys| == |leaves| && i < |keys|
    requires Distinct(keys)
    ensures FromLeaves(keys, leaves)[keys[i]] == leaves[i]
    decreases |keys|
  {
    if i > 0 {
      assert keys[i] != keys[0];
      assert keys[1..][i - 1] == keys[i];
      FromLeavesAt(keys[1..], leaves[1..], i - 1);
    }
  }

  /** A tree built from one leaf per key of `m`, in key order, has the keys of `m`. */
  lemma FromKeyOrderKeys<V>(m: map<string, V>, leaves: seq<Array>)
    requires |leaves| == |m|
    ensures FromLeaves(KeyOrder(m), leaves).Keys == m.Keys
  {
    var t := FromLeaves(KeyOrder(m), leaves);
    forall k | k in m
      ensures k in t
    {
      var i := KeyPosition(m, k);
    }
  }

  /** The leaf such a tree holds under each key is the leaf at the key's position. */
  lemma FromKeyOrderAt<V>(m: map<string, V>, leaves: seq<Array>, i: nat)
    requires |leaves| == |m| && i < |leaves|
    ensures FromLeaves(KeyOrder(m), leaves)[KeyOrder(m)[i]] == leaves[i]
  {
    KeyOrderDistinct(m);
    FromLeavesAt(KeyOrder(m), leaves, i);
  }

  /** Two trees with the same keys that agree at every position of the key order are equal. */
  lemma SameLeaves(t: Tree, u: Tree)
    requires u.Keys == t.Keys
    requires forall i :: 0 <= i < |t| ==> u[KeyOrder(t)[i]] == Leaves(t)[i]
    ensures u == t
  {
    forall k | k in t
      ensures u[k] == t[k]
    {
      var i := KeyPosition(t, k);
    }
  }

  // ----- element sequences: concatenation and splitting -----

  function Sum(xs: seq<nat>): nat
    decreases |xs|
  {
    if xs == [] then 0 else xs[0] + Sum(xs[1..])
  }

  function Lengths(ds: seq<seq<Scalar>>): (r: seq<nat>)
    ensures |r| == |ds| && forall i :: 0 <= i < |ds| ==> r[i] == |ds[i]|
  {
    seq(|ds|, i requires 0 <= i < |ds| => |ds[i]|)
  }

  /** The element sequences one after another. */
  function Flatten(ds: seq<seq<Scalar>>): (r: seq<Scalar>)
    ensures |r| == Sum(Lengths(ds))
    decreases |ds|
  {
    if ds == [] then []
    else
      assert Lengths(ds)[1..] == Lengths(ds[1..]);
      ds[0] + Flatten(ds[1..])
  }

  /** `data` cut into consecutive pieces of the given lengths. */
  function Split(data: seq<Scalar>, lens: seq<nat>): (r: seq<seq<Scalar>>)
    requires |data| == Sum(lens)
    ensures |r| == |lens|
    ensures forall i :: 0 <= i < |r| ==> |r[i]| == lens[i]
    ensures Flatten(r) == data
    decreases |lens|
  {
    if lens == [] then []
    else
      var rest := Split(data[lens[0]..], lens[1..]);
      var r := [data[..lens[0]]] + rest;
      assert r[1..] == rest;
      r
  }

  /** Splitting a concatenation at its pieces' lengths recovers the pieces. */
  lemma {:induction false} SplitFlatten(ds: seq<seq<Scalar>>)
    ensures Split(Flatten(ds), Lengths(ds)) == ds
    decreases |ds|
  {
    if ds != [] {
      var f := Flatten(ds);
      assert Lengths(ds)[1..] == Lengths(ds[1..]);
      assert f[|ds[0]|..] == Flatten(ds[1..]);
      assert f[..|ds[0]|] == ds[0];
      SplitFlatten(ds[1..]);
    }
  }

  lemma {:induction false} SumScale(xs: seq<nat>, c: nat, ys: seq<nat>)
    requires |ys| == |xs| && forall i :: 0 <= i < |xs| ==> ys[i] == xs[i] * c
    ensures Sum(ys) == Sum(xs) * c
    decreases |xs|
  {
    if xs != [] {
      SumScale(xs[1..], c, ys[1..]);
      assert Sum(ys) == xs[0] * c + Sum(xs[1..]) * c;
    }
  }

  lemma SumConst(n: nat, c: nat, ys: seq<nat>)
    requires |ys| == n && forall i :: 0 <= i < n ==> ys[i] == c
    ensures Sum(ys) == n * c
  {
    var ones := seq(n, i requires 0 <= i < n => 1);
    SumOnes(ones);
    SumScale(ones, c, ys);
  }

  lemma {:induction false} SumOnes(ones: seq<nat>)
    requires forall i :: 0 <= i < |ones| ==> ones[i] == 1
    ensures Sum(ones) == |ones|
    decreases |ones|
  {
    if ones != [] {
      SumOnes(ones[1..]);
    }
  }

  // ----- expansion to rank 3 at axis -3 and squeezing back -----

  /** `expand_to_ndim(ndim=3, axis=-3)` on one shape: a rank-2 shape gains a leading axis of extent 1. */
  function ExpandShape(s: Shape): Shape {
    if |s| == 2 then [1] + s else s
  }

  function ExpandLeaf(a: Array): (r: Array)
    ensures r.shape == ExpandShape(a.shape) && r.data == a.data
  {
    if |a.shape| == 2 then NdArray([1] + a.shape, a.data) else a
  }

  function ExpandTree(t: Tree): (r: Tree)
    ensures r.Keys == t.Keys
    ensures forall k :: k in t ==> r[k] == ExpandLeaf(t[k])
    ensures forall k :: k in t ==> r[k].data == t[k].data
    ensures forall k :: k in t && |t[k].shape| == 2 ==> r[k].shape == [1] + t[k].shape
    ensures forall k :: k in t && |t[k].shape| != 2 ==> r[k] == t[k]
  {
    map k | k in t :: ExpandLeaf(t[k])
  }

  function ExpandShapes(s: ShapeTree): (r: ShapeTree)
    ensures r.Keys == s.Keys
    ensures forall k :: k in s ==> r[k] == ExpandShape(s[k])
    ensures forall k :: k in s && |s[k]| == 2 ==> r[k] == [1] + s[k]
    ensures forall k :: k in s && |s[k]| != 2 ==> r[k] == s[k]
  {
    map k | k in s :: ExpandShape(s[k])
  }

  /** Expanding a tree and taking its shapes commute. */
  lemma ExpandCommutesWithShapes(t: Tree)
    ensures ShapeOf(ExpandTree(t)) == ExpandShapes(ShapeOf(t))
  {
  }

  /**
   * `squeeze_to_shapes` on one leaf (axis -3): a rank-3 leaf whose target
   * has rank 2 loses its leading axis of extent 1; other leaves are kept.
   */
  function SqueezeLeaf(a: Array, target: Shape): (r: Array)
    ensures r.data == a.data
  {
    if |target| == 2 && |a.shape| == 3 && a.shape[0] == 1 then NdArray(a.shape[1..], a.data) else a
  }

  function SqueezeToShapes(t: Tree, shapes: ShapeTree): (r: Tree)
    requires t.Keys == shapes.Keys
    ensures r.Keys == t.Keys
    ensures forall k :: k in t ==> r[k] == SqueezeLeaf(t[k], shapes[k])
    ensures forall k :: k in t ==> r[k].data == t[k].data
    ensures forall k :: k in t && |shapes[k]| == 2 && t[k].shape == [1] + shapes[k] ==> r[k].shape == shapes[k]
    ensures forall k :: k in t && !(|shapes[k]| == 2 && |t[k].shape| == 3 && t[k].shape[0] == 1) ==> r[k] == t[k]
  {
    map k | k in t :: SqueezeLeaf(t[k], shapes[k])
  }

  /** Squeezing to the original shapes undoes the expansion. */
  lemma SqueezeUndoesExpand(t: Tree)
    ensures SqueezeToShapes(ExpandTree(t), ShapeOf(t)) == t
  {
    var e := ExpandTree(t);
    forall k | k in t
      ensures SqueezeLeaf(e[k], t[k].shape) == t[k]
    {
      if |t[k].shape| == 2 {
        assert e[k].shape[1..] == t[k].shape;
      }
    }
  }

  // ----- leafwise maps -----

  /** `jax.tree.map(f, a, b)` for an elementwise, broadcasting `f`. */
  function TreeMap2(f: (Scalar, Scalar) -> Scalar, a: Tree, b: Tree): (r: Result<Tree>)
    ensures r.Success? <==> a.Keys == b.Keys && forall k :: k in a ==> Broadcast(f, a[k], b[k]).Success?
    ensures r.Success? ==> r.value.Keys == a.Keys
    ensures r.Success? ==> forall k :: k in a ==> r.value[k] == Broadcast(f, a[k], b[k]).value
  {
    if a.Keys != b.Keys then Failure(StructureMismatch)
    else if forall k :: k in a ==> Broadcast(f, a[k], b[k]).Success? then
      Success(map k | k in a :: Broadcast(f, a[k], b[k]).value)
    else Failure(BroadcastError)
  }

  /** `jax.tree.map(lambda y: w * y, t)`: every leaf multiplied by the broadcast weight `w`. */
  function TreeScale(w: Array, t: Tree): (r: Result<Tree>)
    ensures r.Success? <==> forall k :: k in t ==> Broadcast(Mul, w, t[k]).Success?
    ensures r.Success? ==> r.value.Keys == t.Keys
    ensures r.Success? ==> forall k :: k in t ==> r.value[k] == Broadcast(Mul, w, t[k]).value
  {
    if forall k :: k in t ==> Broadcast(Mul, w, t[k]).Success? then
      Success(map k | k in t :: Broadcast(Mul, w, t[k]).value)
    else Failure(BroadcastError)
  }
}
