/**
 * `ChannelMapping`: the leaves of a tree, expanded to rank 3, are
 * concatenated along their channel axis (-3) into one array; a tower maps
 * it to an array with the output channel count; the result is cut back into
 * the declared output contract and squeezed to its ranks.
 */
module ChannelMappings {
  import opened Results
  import opened Arrays
  import opened Pytrees
  import opened Axes
  import opened Packing
  import opened Protocols

  /** The mapping's fields, fixed at construction. */
  datatype ChannelMapping = ChannelMapping(tower: Tower, outputShapes: ShapeTree)
  {
    /**
     * The forward pass: expand, pack, check rank 3, run the tower, and
     * hand its output on.
     */
    function Apply(inputs: Tree): (r: Result<Tree>)
      ensures r.Success? ==> r.value.Keys == outputShapes.Keys
      ensures Pack(ExpandTree(inputs)).Failure? ==> r == Failure(Pack(ExpandTree(inputs)).error)
      ensures var packed := Pack(ExpandTree(inputs));
        packed.Success? && |packed.value.shape| != 3 ==> r == Failure(RankError(3, packed.value.shape))
      ensures var packed := Pack(ExpandTree(inputs));
        packed.Success? && |packed.value.shape| == 3 ==> r == FromTower(tower(packed.value))
    {
      var packed :- Pack(ExpandTree(inputs));
      if |packed.shape| != 3 then Failure(RankError(3, packed.shape))
      else FromTower(tower(packed))
    }

    /** The rest of the forward pass: check rank 3, unpack against the expanded output contract, squeeze. */
    function FromTower(outputs: Array): (r: Result<Tree>)
      ensures r.Success? ==> r.value.Keys == outputShapes.Keys
      ensures |outputs.shape| != 3 ==> r == Failure(RankError(3, outputs.shape))
      ensures r.Success? <==> |outputs.shape| == 3 && Unpackable(outputs, ExpandShapes(outputShapes))
    {
      if |outputs.shape| != 3 then Failure(RankError(3, outputs.shape))
      else
        var expanded :- Unpack(outputs, ExpandShapes(outputShapes));
        Success(SqueezeToShapes(expanded, outputShapes))
    }

    /**
     * The mapping under the `PytreeMapping` protocol. Each mapping datatype
     * declares its own `AsMapping` of this form, since the protocol is a
     * structural one the Python classes satisfy separately.
     */
    function AsMapping(): (m: Mapping)
      ensures m.outputShapes == outputShapes
      ensures forall x :: m.apply(x) == Apply(x)
    {
      Mapping(x => Apply(x), outputShapes)
    }
  }

  /**
   * `ChannelMapping.__init__`: the tower is built for the channel counts of
   * the input and output contracts expanded to rank 3; a leaf of rank below
   * 2 has no axis -3 after expansion, which the source reports as an index
   * error.
   */
  function NewChannelMapping(inputShapes: ShapeTree, outputShapes: ShapeTree, towerFactory: TowerFactory): (r: Result<ChannelMapping>)
    ensures r.Success? <==> AllRanksAtLeast(inputShapes, 2) && AllRanksAtLeast(outputShapes, 2)
    ensures r.Success? ==> r.value.outputShapes == outputShapes
    ensures r.Success? ==> r.value.tower == towerFactory(ChannelCount(ExpandShapes(inputShapes)), ChannelCount(ExpandShapes(outputShapes)))
  {
    var inS := ExpandShapes(inputShapes);
    var outS := ExpandShapes(outputShapes);
    ExpandedRanks(inputShapes);
    ExpandedRanks(outputShapes);
    if !AllRanksAtLeast(inS, 3) || !AllRanksAtLeast(outS, 3) then Failure(AxisError)
    else Success(ChannelMapping(towerFactory(ChannelCount(inS), ChannelCount(outS)), outputShapes))
  }

  /** Expansion gives every leaf an axis -3 exactly when no leaf has rank below 2. */
  lemma ExpandedRanks(s: ShapeTree)
    ensures AllRanksAtLeast(ExpandShapes(s), 3) <==> AllRanksAtLeast(s, 2)
  {
    if !AllRanksAtLeast(s, 2) {
      var k :| k in s && |s[k]| < 2;
      assert |ExpandShapes(s)[k]| < 3;
    }
  }

  /** The factory of channel mappings, as a `PytreeMappingFactory`. */
  function ChannelMappingFactory(towerFactory: TowerFactory): (f: MappingFactory)
    ensures forall inS, outS :: f(inS, outS).Success? <==> NewChannelMapping(inS, outS, towerFactory).Success?
  {
    (inS, outS) =>
      var m :- NewChannelMapping(inS, outS, towerFactory);
      Success(m.AsMapping())
  }

  /** Contracts whose leaves are rank-3 shapes with trailing extents `hw`. */
  predicate ShapesOnGrid(s: ShapeTree, hw: Shape) {
    |hw| == 2 && forall k :: k in s ==> |s[k]| == 3 && s[k][1..] == hw
  }

  /** An input with no leaves cannot be packed. */
  lemma ApplyEmpty(m: ChannelMapping)
    ensures m.Apply(map[]) == Failure(ConcatError)
  {
    assert ExpandTree(map[]) == map[];
    assert Leaves(map[]) == [];
  }

  /**
   * Leaves that concatenate along axis -3 but have a rank other than 3
   * (after the rank-2 expansion) pack into an array that fails the rank-3
   * check, and the call reports that array's shape.
   */
  lemma ApplyRankError(m: ChannelMapping, x: Tree, k: string)
    requires k in x && |x[k].shape| > 3 && Concatenable(Leaves(ExpandTree(x)))
    ensures Pack(ExpandTree(x)).Success? && |Pack(ExpandTree(x)).value.shape| == |x[k].shape|
    ensures m.Apply(x) == Failure(RankError(3, Pack(ExpandTree(x)).value.shape))
  {
    var t := ExpandTree(x);
    var i := KeyPosition(t, k);
    assert Leaves(t)[i] == x[k];
  }

  /** The expanded leaves of an input whose expanded contract is on the grid are on the grid. */
  lemma ExpandedOnGrid(x: Tree, hw: Shape)
    requires ShapesOnGrid(ExpandShapes(ShapeOf(x)), hw)
    ensures OnTreeGrid(ExpandTree(x), hw)
  {
    var e := ExpandTree(x);
    ExpandCommutesWithShapes(x);
    forall k | k in e
      ensures |e[k].shape| == 3 && e[k].shape[1..] == hw
    {
      assert ShapeOf(e)[k] == e[k].shape;
    }
  }

  /** Packing an input whose expanded leaves share the grid `hw` gives a rank-3 array of all input channels. */
  lemma PackExpanded(x: Tree, hw: Shape)
    requires ShapesOnGrid(ExpandShapes(ShapeOf(x)), hw) && |x| > 0
    ensures Pack(ExpandTree(x)).Success?
    ensures Pack(ExpandTree(x)).value.shape == [ChannelCount(ExpandShapes(ShapeOf(x)))] + hw
  {
    var e := ExpandTree(x);
    ExpandedOnGrid(x, hw);
    assert |e| > 0 by {
      var k :| k in x;
      assert k in e;
    }
    PackOnGrid(e, hw);
    ExpandCommutesWithShapes(x);
  }

  /** An unpacked leaf of an expanded contract on the grid, squeezed, has the leaf's declared shape. */
  lemma SqueezedLeaf(leaf: Array, target: Shape, hw: Shape)
    requires |ExpandShape(target)| == 3 && ExpandShape(target)[1..] == hw
    requires leaf.shape == [FeatureExtent(ExpandShape(target))] + hw
    ensures SqueezeLeaf(leaf, target).shape == target
  {
    var e := ExpandShape(target);
    assert e == [e[0]] + e[1..];
    if |target| == 2 {
      assert e[1..] == target;
    }
  }

  /** Each unpacked output leaf, squeezed, has its declared shape. */
  lemma SqueezedShapes(out: Array, outS: ShapeTree, hw: Shape)
    requires ShapesOnGrid(ExpandShapes(outS), hw)
    requires out.shape == [ChannelCount(ExpandShapes(outS))] + hw
    ensures Unpack(out, ExpandShapes(outS)).Success?
    ensures ShapeOf(SqueezeToShapes(Unpack(out, ExpandShapes(outS)).value, outS)) == outS
  {
    var eS := ExpandShapes(outS);
    var u := Unpack(out, eS).value;
    var r := SqueezeToShapes(u, outS);
    forall k | k in outS
      ensures r[k].shape == outS[k]
    {
      UnpackShape(out, eS, k);
      SqueezedLeaf(u[k], outS[k], hw);
    }
  }

  /**
   * On an input whose expanded leaves share the grid `hw`, with an output
   * contract on the same grid and a tower that keeps the grid, the call
   * succeeds and returns exactly the declared output contract.
   */
  lemma ApplyOnGrid(m: ChannelMapping, x: Tree, hw: Shape)
    requires ShapesOnGrid(ExpandShapes(ShapeOf(x)), hw) && ShapesOnGrid(ExpandShapes(m.outputShapes), hw)
    requires |x| > 0
    requires KeepsOffAxes(m.tower, ChannelCount(ExpandShapes(ShapeOf(x))), ChannelCount(ExpandShapes(m.outputShapes)))
    ensures m.Apply(x).Success? && ShapeOf(m.Apply(x).value) == m.outputShapes
  {
    PackExpanded(x, hw);
    var packed := Pack(ExpandTree(x)).value;
    assert m.Apply(x) == m.FromTower(m.tower(packed));
    var outputs := m.tower(packed);
    assert outputs.shape == [ChannelCount(ExpandShapes(m.outputShapes))] + hw;
    SqueezedShapes(outputs, m.outputShapes, hw);
  }

  /**
   * Soundness of the constructor: a channel mapping built from input and
   * output contracts on one grid, with towers that keep the grid, maps
   * every input meeting its input contract to its output contract.
   */
  lemma ChannelMappingMeetsContract(inS: ShapeTree, outS: ShapeTree, towerFactory: TowerFactory, hw: Shape)
    requires |inS| > 0 && ShapesOnGrid(ExpandShapes(inS), hw) && ShapesOnGrid(ExpandShapes(outS), hw)
    requires FactoryKeepsOffAxes(towerFactory)
    ensures Delivers(ChannelMappingFactory(towerFactory), inS, outS)
  {
    ExpandedRanks(inS);
    ExpandedRanks(outS);
    var m := NewChannelMapping(inS, outS, towerFactory).value;
    forall x: Tree | ShapeOf(x) == inS
      ensures m.Apply(x).Success? && ShapeOf(m.Apply(x).value) == m.outputShapes
    {
      assert |x| == |ShapeOf(x)|;
      ApplyOnGrid(m, x, hw);
    }
  }

  /**
   * With a tower that returns its input and the input's own contract as
   * output contract, the mapping gives the input back: packing and
   * unpacking, expanding and squeezing are inverse.
   */
  lemma IdentityTowerRoundTrip(m: ChannelMapping, x: Tree, hw: Shape)
    requires forall a :: m.tower(a) == a
    requires m.outputShapes == ShapeOf(x)
    requires |x| > 0 && ShapesOnGrid(ExpandShapes(ShapeOf(x)), hw)
    ensures m.Apply(x) == Success(x)
  {
    var e := ExpandTree(x);
    PackExpanded(x, hw);
    var packed := Pack(e).value;
    assert m.Apply(x) == m.FromTower(packed);
    ExpandedOnGrid(x, hw);
    UnpackPack(e, hw);
    ExpandCommutesWithShapes(x);
    assert m.FromTower(packed) == Success(SqueezeToShapes(e, ShapeOf(x)));
    SqueezeUndoesExpand(x);
  }
}
