/**
 * `LandSeaIceEmbedding`: three masked embeddings (land, sea, sea ice)
 * blended with weights derived from a land-sea mask and a sea-ice
 * fraction. Cells where the sea-ice fraction is NaN are land.
 */
module LandSeaIce {
  import opened Results
  import opened Arrays
  import opened Pytrees
  import opened Protocols
  import opened Embeddings

  // ----- the weights at one cell -----

  /** The blending weights at one cell. */
  datatype Weights = Weights(land: Scalar, sea: Scalar, seaIce: Scalar)

  /** `1 - x`. */
  function OneMinus(x: Scalar): Scalar {
    Sub(Num(1.0), x)
  }

  /**
   * The weights at a cell with land-sea mask value `landSeaMask` and sea-ice
   * fraction `seaIce`: the land fraction is the larger of the mask and
   * `isnan(seaIce)`, the rest is split between open sea and ice-covered sea.
   */
  function CellWeights(landSeaMask: Scalar, seaIce: Scalar): (w: Weights)
    ensures landSeaMask.Num? && 0.0 <= landSeaMask.v && seaIce.Num? ==> w.land == landSeaMask
    ensures landSeaMask.Num? && seaIce == NaN ==> w.land.Num? && w.land.v >= 1.0
    ensures landSeaMask == NaN ==> w == Weights(NaN, NaN, NaN)
  {
    var landFraction := Maximum(landSeaMask, IsNaN(seaIce));
    var seaFraction := OneMinus(landFraction);
    Weights(landFraction, Mul(OneMinus(seaIce), seaFraction), Mul(seaIce, seaFraction))
  }

  /** `a + b + c` of the scaled outputs at one cell. */
  function Blend(w: Weights, land: Scalar, sea: Scalar, seaIce: Scalar): (r: Scalar)
    ensures r.Num? <==> w.land.Num? && w.sea.Num? && w.seaIce.Num? && land.Num? && sea.Num? && seaIce.Num?
    ensures r.Num? ==> r.v == w.land.v * land.v + w.sea.v * sea.v + w.seaIce.v * seaIce.v
  {
    Add(Add(Mul(w.land, land), Mul(w.sea, sea)), Mul(w.seaIce, seaIce))
  }

  /** Where the mask and the sea-ice fraction are numbers, the three weights sum to 1. */
  lemma WeightsPartition(landSeaMask: Scalar, seaIce: Scalar)
    requires landSeaMask.Num? && seaIce.Num?
    ensures var w := CellWeights(landSeaMask, seaIce);
      w.land.Num? && w.sea.Num? && w.seaIce.Num? && w.land.v + w.sea.v + w.seaIce.v == 1.0
  {
    var w := CellWeights(landSeaMask, seaIce);
    var f := w.land.v;
    var b := seaIce.v;
    assert w.sea.v == (1.0 - b) * (1.0 - f);
    assert w.seaIce.v == b * (1.0 - f);
    assert (1.0 - b) * (1.0 - f) + b * (1.0 - f) == 1.0 - f;
  }

  /** With a mask and a sea-ice fraction in [0, 1], each weight is in [0, 1]. */
  lemma WeightsInUnitInterval(landSeaMask: Scalar, seaIce: Scalar)
    requires landSeaMask.Num? && 0.0 <= landSeaMask.v <= 1.0
    requires seaIce.Num? && 0.0 <= seaIce.v <= 1.0
    ensures var w := CellWeights(landSeaMask, seaIce);
      0.0 <= w.land.v <= 1.0 && 0.0 <= w.sea.v <= 1.0 && 0.0 <= w.seaIce.v <= 1.0
  {
    var w := CellWeights(landSeaMask, seaIce);
    var f := w.land.v;
    var b := seaIce.v;
    assert f == landSeaMask.v;
    assert 0.0 <= (1.0 - b) * (1.0 - f) <= 1.0 by {
      assert 0.0 <= 1.0 - b <= 1.0 && 0.0 <= 1.0 - f <= 1.0;
      assert (1.0 - b) * (1.0 - f) <= (1.0 - b) * 1.0;
    }
    assert 0.0 <= b * (1.0 - f) <= 1.0 by {
      assert b * (1.0 - f) <= b * 1.0;
    }
  }

  /** The land fraction is never below the NaN-derived land mask. */
  lemma LandFractionCoversMask(landSeaMask: Scalar, seaIce: Scalar)
    requires landSeaMask.Num?
    ensures CellWeights(landSeaMask, seaIce).land.Num?
    ensures CellWeights(landSeaMask, seaIce).land.v >= IsNaN(seaIce).v
    ensures CellWeights(landSeaMask, seaIce).land.v >= landSeaMask.v
  {
  }

  /**
   * At a land cell (NaN sea-ice fraction) the sea and sea-ice weights are
   * NaN, so the blend is NaN whatever the three outputs are.
   */
  lemma LandCellIsNaN(landSeaMask: Scalar, seaIce: Scalar, land: Scalar, sea: Scalar, ice: Scalar)
    requires seaIce == NaN
    ensures CellWeights(landSeaMask, seaIce).sea == NaN && CellWeights(landSeaMask, seaIce).seaIce == NaN
    ensures Blend(CellWeights(landSeaMask, seaIce), land, sea, ice) == NaN
  {
  }

  /** Where the land fraction is 1 and the sea-ice fraction is a number, the blend is the land output. */
  lemma FullLandCell(landSeaMask: Scalar, seaIce: Scalar, land: Scalar, sea: Scalar, ice: Scalar)
    requires CellWeights(landSeaMask, seaIce).land == Num(1.0) && seaIce.Num?
    requires sea.Num? && ice.Num?
    ensures Blend(CellWeights(landSeaMask, seaIce), land, sea, ice) == land
  {
    var w := CellWeights(landSeaMask, seaIce);
    assert w.sea == Num(0.0) && w.seaIce == Num(0.0);
    if land.Num? {
      assert Mul(w.land, land) == land;
    }
  }

  /** Where the weights are defined, three equal outputs (numbers or NaN) blend to that output. */
  lemma BlendOfEqualOutputs(landSeaMask: Scalar, seaIce: Scalar, v: Scalar)
    requires landSeaMask.Num? && seaIce.Num?
    ensures Blend(CellWeights(landSeaMask, seaIce), v, v, v) == v
  {
    var w := CellWeights(landSeaMask, seaIce);
    WeightsPartition(landSeaMask, seaIce);
    if v.Num? {
      calc {
        w.land.v * v.v + w.sea.v * v.v + w.seaIce.v * v.v;
        (w.land.v + w.sea.v + w.seaIce.v) * v.v;
        v.v;
      }
    }
  }

  // ----- the weights and the blend on arrays and trees -----

  /** The weight arrays of one call. */
  datatype WeightArrays = WeightArrays(land: Array, sea: Array, seaIce: Array)

  /** `land_fraction = jnp.maximum(land_sea_mask, land_mask)`. */
  function LandFraction(landSeaMask: Array, landMask: Array): (r: Result<Array>)
    ensures landSeaMask.shape == landMask.shape ==> r.Success? && r.value.shape == landMask.shape
    ensures landSeaMask.shape == landMask.shape ==>
      forall j :: 0 <= j < |landMask.data| ==> r.value.data[j] == Maximum(landSeaMask.data[j], landMask.data[j])
  {
    assert landSeaMask.shape == landMask.shape ==>
      (IsSuffix(landSeaMask.shape, landMask.shape) &&
       forall j :: 0 <= j < |landMask.data| ==> Aligned(landSeaMask, landMask, j) == landSeaMask.data[j]) by {
      if landSeaMask.shape == landMask.shape {
        assert landMask.shape[|landMask.shape| - |landSeaMask.shape|..] == landSeaMask.shape;
        forall j | 0 <= j < |landMask.data|
          ensures Aligned(landSeaMask, landMask, j) == landSeaMask.data[j]
        {
          AlignedSameShape(landSeaMask, landMask, j);
        }
      }
    }
    Broadcast(Maximum, landSeaMask, landMask)
  }

  /** The sea and sea-ice weights from the sea-ice fraction and the land fraction, in the order the source computes them. */
  function Weigh(seaIceFraction: Array, landFraction: Array): (r: Result<WeightArrays>)
    ensures r.Success? ==> r.value.land == landFraction
  {
    var seaFraction := MapArray(OneMinus, landFraction);
    var seaIceWeight :- Broadcast(Mul, seaIceFraction, seaFraction);
    var seaWeight :- Broadcast(Mul, MapArray(OneMinus, seaIceFraction), seaFraction);
    Success(WeightArrays(landFraction, seaWeight, seaIceWeight))
  }

  /**
   * On a mask and a sea-ice fraction of one shape, the weight arrays exist,
   * have that shape, and hold the cell weights element by element.
   */
  lemma WeightArraysAt(landSeaMask: Array, seaIceFraction: Array, j: nat)
    requires landSeaMask.shape == seaIceFraction.shape && j < |seaIceFraction.data|
    ensures LandFraction(landSeaMask, MapArray(IsNaN, seaIceFraction)).Success?
    ensures var lf := LandFraction(landSeaMask, MapArray(IsNaN, seaIceFraction)).value;
      lf.shape == seaIceFraction.shape && Weigh(seaIceFraction, lf).Success? &&
      var w := Weigh(seaIceFraction, lf).value;
      w.sea.shape == seaIceFraction.shape && w.seaIce.shape == seaIceFraction.shape &&
      Weights(w.land.data[j], w.sea.data[j], w.seaIce.data[j]) == CellWeights(landSeaMask.data[j], seaIceFraction.data[j])
  {
    var mask := MapArray(IsNaN, seaIceFraction);
    AlignedSameShape(landSeaMask, mask, j);
    var lf := LandFraction(landSeaMask, mask).value;
    var sf := MapArray(OneMinus, lf);
    AlignedSameShape(seaIceFraction, sf, j);
    AlignedSameShape(MapArray(OneMinus, seaIceFraction), sf, j);
  }

  /** The weights broadcasting aligns with element `j` of a leaf are the cell weights of the aligned mask and sea-ice values. */
  lemma WeightsAligned(landSeaMask: Array, seaIceFraction: Array, leaf: Array, j: nat)
    requires landSeaMask.shape == seaIceFraction.shape && IsSuffix(seaIceFraction.shape, leaf.shape) && j < |leaf.data|
    ensures LandFraction(landSeaMask, MapArray(IsNaN, seaIceFraction)).Success?
    ensures var lf := LandFraction(landSeaMask, MapArray(IsNaN, seaIceFraction)).value;
      lf.shape == seaIceFraction.shape && Weigh(seaIceFraction, lf).Success? &&
      var w := Weigh(seaIceFraction, lf).value;
      w.sea.shape == seaIceFraction.shape && w.seaIce.shape == seaIceFraction.shape &&
      Weights(Aligned(w.land, leaf, j), Aligned(w.sea, leaf, j), Aligned(w.seaIce, leaf, j)) ==
        CellWeights(Aligned(landSeaMask, leaf, j), Aligned(seaIceFraction, leaf, j))
  {
    SuffixProd(seaIceFraction.shape, leaf.shape);
    WeightArraysAt(landSeaMask, seaIceFraction, j % |seaIceFraction.data|);
  }

  /** On a mask and a sea-ice fraction of one shape, the land fraction and the weights exist and have that shape. */
  lemma WeighShapes(landSeaMask: Array, seaIceFraction: Array)
    requires landSeaMask.shape == seaIceFraction.shape
    ensures LandFraction(landSeaMask, MapArray(IsNaN, seaIceFraction)).Success?
    ensures var lf := LandFraction(landSeaMask, MapArray(IsNaN, seaIceFraction)).value;
      lf.shape == seaIceFraction.shape && Weigh(seaIceFraction, lf).Success? &&
      var w := Weigh(seaIceFraction, lf).value;
      w.land.shape == seaIceFraction.shape && w.sea.shape == seaIceFraction.shape && w.seaIce.shape == seaIceFraction.shape
  {
    assert seaIceFraction.shape[0..] == seaIceFraction.shape;
  }

  /** `jax.tree.map(lambda a, b, c: a + b + c, ...)` of the three scaled output trees. */
  function BlendTrees(w: WeightArrays, land: Tree, sea: Tree, seaIce: Tree): (r: Result<Tree>)
    ensures r.Success? ==> r.value.Keys == land.Keys
  {
    var a :- TreeScale(w.land, land);
    var b :- TreeScale(w.sea, sea);
    var c :- TreeScale(w.seaIce, seaIce);
    SumOfThree(a, b, c)
  }

  /** `a + b + c` leaf by leaf, for three trees of one structure. */
  function SumOfThree(a: Tree, b: Tree, c: Tree): (r: Result<Tree>)
    ensures r.Success? ==> r.value.Keys == a.Keys
  {
    if a.Keys != b.Keys || a.Keys != c.Keys then Failure(StructureMismatch)
    else
      var ab :- TreeMap2(Add, a, b);
      TreeMap2(Add, ab, c)
  }

  /** Three output trees with the same leaf shapes, each ending in the weights' shape `s`. */
  predicate Blendable(s: Shape, land: Tree, sea: Tree, seaIce: Tree) {
    land.Keys == sea.Keys == seaIce.Keys &&
    forall k :: k in land ==>
      sea[k].shape == land[k].shape && seaIce[k].shape == land[k].shape && IsSuffix(s, land[k].shape)
  }

  /** Scaling a leaf by a weight whose shape ends its own multiplies each element by the aligned weight. */
  lemma ScaleAt(w: Array, leaf: Array, j: nat)
    requires IsSuffix(w.shape, leaf.shape) && j < |leaf.data|
    ensures Broadcast(Mul, w, leaf).Success? && Broadcast(Mul, w, leaf).value.shape == leaf.shape
    ensures Broadcast(Mul, w, leaf).value.data[j] == Mul(Aligned(w, leaf, j), leaf.data[j])
  {
  }

  /** Blending succeeds on blendable trees and keeps the land outputs' leaf shapes. */
  lemma BlendShapes(w: WeightArrays, land: Tree, sea: Tree, seaIce: Tree)
    requires w.sea.shape == w.land.shape && w.seaIce.shape == w.land.shape
    requires Blendable(w.land.shape, land, sea, seaIce)
    ensures BlendTrees(w, land, sea, seaIce).Success?
    ensures ShapeOf(BlendTrees(w, land, sea, seaIce).value) == ShapeOf(land)
  {
    ScaleTree(w.land, land);
    ScaleTree(w.sea, sea);
    ScaleTree(w.seaIce, seaIce);
    var a := TreeScale(w.land, land).value;
    var b := TreeScale(w.sea, sea).value;
    var c := TreeScale(w.seaIce, seaIce).value;
    SumOfThreeShapes(a, b, c);
    assert BlendTrees(w, land, sea, seaIce) == SumOfThree(a, b, c);
    SameShapes(SumOfThree(a, b, c).value, land);
  }

  /** Three trees of one contract sum without broadcasting, keeping that contract. */
  lemma SumOfThreeShapes(a: Tree, b: Tree, c: Tree)
    requires a.Keys == b.Keys == c.Keys
    requires forall k :: k in a ==> b[k].shape == a[k].shape && c[k].shape == a[k].shape
    ensures SumOfThree(a, b, c).Success?
    ensures forall k :: k in a ==> SumOfThree(a, b, c).value[k].shape == a[k].shape
  {
    AddSameTrees(a, b);
    var ab := TreeMap2(Add, a, b).value;
    AddSameTrees(ab, c);
    assert SumOfThree(a, b, c) == TreeMap2(Add, ab, c);
  }

  /** Trees of one structure whose leaves have the same shapes meet the same contract. */
  lemma SameShapes(t: Tree, u: Tree)
    requires t.Keys == u.Keys && forall k :: k in t ==> t[k].shape == u[k].shape
    ensures ShapeOf(t) == ShapeOf(u)
  {
  }

  /** Scaling by a weight whose shape ends every leaf's succeeds and keeps the leaf shapes. */
  lemma ScaleTree(w: Array, t: Tree)
    requires forall k :: k in t ==> IsSuffix(w.shape, t[k].shape)
    ensures TreeScale(w, t).Success?
    ensures forall k :: k in t ==> TreeScale(w, t).value[k].shape == t[k].shape
  {
  }

  /** Two trees of one contract add leaf by leaf without broadcasting. */
  lemma AddSameTrees(a: Tree, b: Tree)
    requires a.Keys == b.Keys && forall k :: k in a ==> a[k].shape == b[k].shape
    ensures TreeMap2(Add, a, b).Success?
    ensures forall k :: k in a ==> TreeMap2(Add, a, b).value[k].shape == a[k].shape
  {
    forall k | k in a
      ensures IsSuffix(a[k].shape, b[k].shape)
    {
      assert b[k].shape[|b[k].shape| - |a[k].shape|..] == b[k].shape;
    }
  }

  /** Each element of the blend is the cell blend of the aligned weights and the three outputs. */
  lemma BlendAt(w: WeightArrays, land: Tree, sea: Tree, seaIce: Tree, k: string, j: nat)
    requires w.sea.shape == w.land.shape && w.seaIce.shape == w.land.shape
    requires Blendable(w.land.shape, land, sea, seaIce) && k in land && j < |land[k].data|
    ensures BlendTrees(w, land, sea, seaIce).Success?
    ensures k in BlendTrees(w, land, sea, seaIce).value && j < |BlendTrees(w, land, sea, seaIce).value[k].data|
    ensures IsSuffix(w.land.shape, land[k].shape) && IsSuffix(w.sea.shape, sea[k].shape) && IsSuffix(w.seaIce.shape, seaIce[k].shape)
    ensures BlendTrees(w, land, sea, seaIce).value[k].data[j] ==
      Blend(Weights(Aligned(w.land, land[k], j), Aligned(w.sea, sea[k], j), Aligned(w.seaIce, seaIce[k], j)),
        land[k].data[j], sea[k].data[j], seaIce[k].data[j])
  {
    BlendShapes(w, land, sea, seaIce);
    var a := TreeScale(w.land, land).value;
    var b := TreeScale(w.sea, sea).value;
    var c := TreeScale(w.seaIce, seaIce).value;
    ScaleAt(w.land, land[k], j);
    ScaleAt(w.sea, sea[k], j);
    ScaleAt(w.seaIce, seaIce[k], j);
    assert BlendTrees(w, land, sea, seaIce) == SumOfThree(a, b, c);
    SumOfThreeAt(a, b, c, k, j);
  }

  /** Each element of a sum of three trees of one contract is the sum of the three elements. */
  lemma SumOfThreeAt(a: Tree, b: Tree, c: Tree, k: string, j: nat)
    requires a.Keys == b.Keys == c.Keys
    requires forall k :: k in a ==> b[k].shape == a[k].shape && c[k].shape == a[k].shape
    requires k in a && j < |a[k].data|
    ensures SumOfThree(a, b, c).Success? && k in SumOfThree(a, b, c).value
    ensures SumOfThree(a, b, c).value[k].shape == a[k].shape
    ensures SumOfThree(a, b, c).value[k].data[j] == Add(Add(a[k].data[j], b[k].data[j]), c[k].data[j])
  {
    AddSameTrees(a, b);
    var ab := TreeMap2(Add, a, b).value;
    AddSameTrees(ab, c);
    assert SumOfThree(a, b, c) == TreeMap2(Add, ab, c);
    AddAt(a[k], b[k], j);
    AddAt(ab[k], c[k], j);
  }

  /** Arrays of one shape add element by element. */
  lemma AddAt(x: Array, y: Array, j: nat)
    requires x.shape == y.shape && j < |x.data|
    ensures Broadcast(Add, x, y).Success? && Broadcast(Add, x, y).value.shape == x.shape
    ensures Broadcast(Add, x, y).value.data[j] == Add(x.data[j], y.data[j])
  {
    AlignedSameShape(x, y, j);
  }

  // ----- the module -----

  /** The module's fields, fixed at construction. */
  datatype LandSeaIceEmbedding = LandSeaIceEmbedding(
    landEmbedding: Embedding, seaEmbedding: Embedding, seaIceEmbedding: Embedding,
    landSeaMaskFeatures: Transform, seaIceFeatures: Transform, transform: Transform,
    outputShapes: ShapeTree)
  {
    /** The sea-ice fraction of the inputs: the `sea_ice_cover` feature. */
    function SeaIceFraction(inputs: Tree): (r: Result<Array>)
      ensures r.Success? <==> seaIceFeatures.apply(inputs).Success? && "sea_ice_cover" in seaIceFeatures.apply(inputs).value
      ensures r.Success? ==> r.value == seaIceFeatures.apply(inputs).value["sea_ice_cover"]
      ensures seaIceFeatures.apply(inputs).Failure? ==> r == Failure(seaIceFeatures.apply(inputs).error)
      ensures seaIceFeatures.apply(inputs).Success? && "sea_ice_cover" !in seaIceFeatures.apply(inputs).value ==>
        r == Failure(KeyError("sea_ice_cover"))
    {
      var features :- seaIceFeatures.apply(inputs);
      if "sea_ice_cover" !in features then Failure(KeyError("sea_ice_cover"))
      else Success(features["sea_ice_cover"])
    }

    /** The land-sea mask of the inputs: the `land_sea_mask` feature. */
    function LandSeaMask(inputs: Tree): (r: Result<Array>)
      ensures r.Success? <==> landSeaMaskFeatures.apply(inputs).Success? && "land_sea_mask" in landSeaMaskFeatures.apply(inputs).value
      ensures r.Success? ==> r.value == landSeaMaskFeatures.apply(inputs).value["land_sea_mask"]
      ensures landSeaMaskFeatures.apply(inputs).Failure? ==> r == Failure(landSeaMaskFeatures.apply(inputs).error)
      ensures landSeaMaskFeatures.apply(inputs).Success? && "land_sea_mask" !in landSeaMaskFeatures.apply(inputs).value ==>
        r == Failure(KeyError("land_sea_mask"))
    {
      var features :- landSeaMaskFeatures.apply(inputs);
      if "land_sea_mask" !in features then Failure(KeyError("land_sea_mask"))
      else Success(features["land_sea_mask"])
    }

    /**
     * `__call__`: the land mask from the sea-ice fraction, the land
     * fraction, the three sub-embeddings masked with the land mask, the
     * weights, the blend, the post-transform.
     */
    function Apply(inputs: Tree): (r: Result<Tree>)
      ensures SeaIceFraction(inputs).Failure? ==> r == Failure(SeaIceFraction(inputs).error)
      ensures SeaIceFraction(inputs).Success? && LandSeaMask(inputs).Failure? ==> r == Failure(LandSeaMask(inputs).error)
      ensures SeaIceFraction(inputs).Success? && LandSeaMask(inputs).Success? ==>
        var landFraction := LandFraction(LandSeaMask(inputs).value, MapArray(IsNaN, SeaIceFraction(inputs).value));
        landFraction.Failure? ==> r == Failure(landFraction.error)
    {
      var seaIceFraction :- SeaIceFraction(inputs);
      var landMask := MapArray(IsNaN, seaIceFraction);
      var landSeaMask :- LandSeaMask(inputs);
      var landFraction :- LandFraction(landSeaMask, landMask);
      var landOutputs :- landEmbedding.ApplyMasked(inputs, Some(landMask));
      var seaOutputs :- seaEmbedding.ApplyMasked(inputs, Some(landMask));
      var seaIceOutputs :- seaIceEmbedding.ApplyMasked(inputs, Some(landMask));
      var weights :- Weigh(seaIceFraction, landFraction);
      var blended :- BlendTrees(weights, landOutputs, seaOutputs, seaIceOutputs);
      transform.apply(blended)
    }

    /**
     * `output_shapes`: the sub-embeddings' contracts are compared with the
     * first one by one; any difference is an error, otherwise the result is
     * the post-transform's contract for the common one.
     */
    method OutputShapes() returns (r: Result<ShapeTree>)
      ensures r.Success? <==>
        landEmbedding.OutputShapes() == seaEmbedding.OutputShapes() == seaIceEmbedding.OutputShapes()
      ensures r.Success? ==> r.value == transform.outputShapes(landEmbedding.OutputShapes())
      ensures r.Failure? ==> r.error == InconsistentShapes
    {
      var shapes := [landEmbedding.OutputShapes(), seaEmbedding.OutputShapes(), seaIceEmbedding.OutputShapes()];
      var sampleShape := shapes[0];
      var i := 0;
      while i < |shapes|
        invariant 0 <= i <= |shapes|
        invariant forall j :: 0 <= j < i ==> shapes[j] == sampleShape
      {
        if shapes[i] != sampleShape {
          assert i == 1 || i == 2;
          return Failure(InconsistentShapes);
        }
        i := i + 1;
      }
      assert shapes[1] == sampleShape && shapes[2] == sampleShape;
      return Success(transform.outputShapes(sampleShape));
    }
  }

  /** A factory of sub-embeddings, called with the output contract. */
  type EmbeddingFactory = ShapeTree -> Result<Embedding>

  /** `LandSeaIceEmbedding.__init__`: the land, sea and sea-ice embeddings are built in that order, for one output contract. */
  function NewLandSeaIceEmbedding(
    outputShapes: ShapeTree, seaFactory: EmbeddingFactory, landFactory: EmbeddingFactory,
    seaIceFactory: EmbeddingFactory, landSeaMaskFeatures: Transform, seaIceFeatures: Transform,
    transform: Transform): (r: Result<LandSeaIceEmbedding>)
    ensures r.Success? <==> landFactory(outputShapes).Success? && seaFactory(outputShapes).Success? && seaIceFactory(outputShapes).Success?
    ensures r.Success? ==>
      r.value.landEmbedding == landFactory(outputShapes).value &&
      r.value.seaEmbedding == seaFactory(outputShapes).value &&
      r.value.seaIceEmbedding == seaIceFactory(outputShapes).value &&
      r.value.transform == transform && r.value.outputShapes == outputShapes
    ensures r.Success? ==>
      r.value.landSeaMaskFeatures == landSeaMaskFeatures && r.value.seaIceFeatures == seaIceFeatures
    ensures landFactory(outputShapes).Failure? ==> r == Failure(landFactory(outputShapes).error)
    ensures landFactory(outputShapes).Success? && seaFactory(outputShapes).Failure? ==>
      r == Failure(seaFactory(outputShapes).error)
    ensures landFactory(outputShapes).Success? && seaFactory(outputShapes).Success? && seaIceFactory(outputShapes).Failure? ==>
      r == Failure(seaIceFactory(outputShapes).error)
  {
    var land :- landFactory(outputShapes);
    var sea :- seaFactory(outputShapes);
    var seaIce :- seaIceFactory(outputShapes);
    Success(LandSeaIceEmbedding(land, sea, seaIce, landSeaMaskFeatures, seaIceFeatures, transform, outputShapes))
  }

  /** The facts about one input under which the blend theorem holds. */
  predicate Regular(e: LandSeaIceEmbedding, x: Tree) {
    e.SeaIceFraction(x).Success? && e.LandSeaMask(x).Success? &&
    e.LandSeaMask(x).value.shape == e.SeaIceFraction(x).value.shape &&
    var landMask := MapArray(IsNaN, e.SeaIceFraction(x).value);
    e.landEmbedding.ApplyMasked(x, Some(landMask)).Success? &&
    e.seaEmbedding.ApplyMasked(x, Some(landMask)).Success? &&
    e.seaIceEmbedding.ApplyMasked(x, Some(landMask)).Success? &&
    Blendable(e.SeaIceFraction(x).value.shape,
      e.landEmbedding.ApplyMasked(x, Some(landMask)).value,
      e.seaEmbedding.ApplyMasked(x, Some(landMask)).value,
      e.seaIceEmbedding.ApplyMasked(x, Some(landMask)).value)
  }

  /** The three sub-embedding outputs of a call, each masked with the land mask. */
  function Outputs(e: LandSeaIceEmbedding, x: Tree): (r: (Tree, Tree, Tree))
    requires Regular(e, x)
  {
    var landMask := MapArray(IsNaN, e.SeaIceFraction(x).value);
    (e.landEmbedding.ApplyMasked(x, Some(landMask)).value,
     e.seaEmbedding.ApplyMasked(x, Some(landMask)).value,
     e.seaIceEmbedding.ApplyMasked(x, Some(landMask)).value)
  }

  /**
   * The blend theorem: on a regular input, with an identity post-transform,
   * the call succeeds, keeps the land output's leaf shapes, and each output
   * element is the cell blend of the three sub-embedding outputs (each run
   * with the land mask) under the cell weights of the mask and sea-ice
   * values that broadcasting aligns with it.
   */
  lemma ApplyBlends(e: LandSeaIceEmbedding, x: Tree, k: string, j: nat)
    requires e.transform == Identity() && Regular(e, x)
    requires k in Outputs(e, x).0 && j < |Outputs(e, x).0[k].data|
    ensures e.Apply(x).Success? && ShapeOf(e.Apply(x).value) == ShapeOf(Outputs(e, x).0)
    ensures var (land, sea, ice) := Outputs(e, x);
      var sic := e.SeaIceFraction(x).value;
      var lsm := e.LandSeaMask(x).value;
      IsSuffix(sic.shape, land[k].shape) && IsSuffix(lsm.shape, land[k].shape) &&
      e.Apply(x).value[k].data[j] ==
        Blend(CellWeights(Aligned(lsm, land[k], j), Aligned(sic, land[k], j)), land[k].data[j], sea[k].data[j], ice[k].data[j])
  {
    var sic := e.SeaIceFraction(x).value;
    var lsm := e.LandSeaMask(x).value;
    var (land, sea, ice) := Outputs(e, x);
    WeighShapes(lsm, sic);
    var w := Weigh(sic, LandFraction(lsm, MapArray(IsNaN, sic)).value).value;
    ApplyIsBlend(e, x);
    BlendShapes(w, land, sea, ice);
    BlendAt(w, land, sea, ice, k, j);
    WeightsAligned(lsm, sic, land[k], j);
  }

  /** With an identity post-transform, a regular call is the blend of the three masked outputs under the weights. */
  lemma ApplyIsBlend(e: LandSeaIceEmbedding, x: Tree)
    requires e.transform == Identity() && Regular(e, x)
    ensures var sic := e.SeaIceFraction(x).value;
      var lsm := e.LandSeaMask(x).value;
      LandFraction(lsm, MapArray(IsNaN, sic)).Success? &&
      Weigh(sic, LandFraction(lsm, MapArray(IsNaN, sic)).value).Success? &&
      var (land, sea, ice) := Outputs(e, x);
      e.Apply(x) == BlendTrees(Weigh(sic, LandFraction(lsm, MapArray(IsNaN, sic)).value).value, land, sea, ice)
  {
    WeighShapes(e.LandSeaMask(x).value, e.SeaIceFraction(x).value);
  }
}
