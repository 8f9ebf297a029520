/**
 * `VariableMapping`: leaves of one common shape (level, lon, lat) are
 * stacked along a new leading axis into a rank-4 array; a tower maps it to
 * one slice per output leaf; the slices become the output leaves.
 */
module VariableMappings {
  import opened Results
  import opened Arrays
  import opened Pytrees
  import opened Axes
  import opened Packing
  import opened Protocols

  /** The mapping's fields, fixed at construction. */
  datatype VariableMapping = VariableMapping(tower: Tower, outputShapes: ShapeTree)
  {
    /** The forward pass: stack, check rank 4, run the tower, and hand its output on. */
    function Apply(inputs: Tree): (r: Result<Tree>)
      ensures r.Success? ==> r.value.Keys == outputShapes.Keys
      ensures Stack(inputs).Failure? ==> r == Failure(Stack(inputs).error)
      ensures Stack(inputs).Success? && |Stack(inputs).value.shape| != 4 ==> r == Failure(RankError(4, Stack(inputs).value.shape))
      ensures Stack(inputs).Success? && |Stack(inputs).value.shape| == 4 ==> r == FromTower(tower(Stack(inputs).value))
    {
      var stacked :- Stack(inputs);
      if |stacked.shape| != 4 then Failure(RankError(4, stacked.shape))
      else FromTower(tower(stacked))
    }

    /** The rest of the forward pass: check rank 4 and unstack into the output contract. */
    function FromTower(outputs: Array): (r: Result<Tree>)
      ensures r.Success? ==> r.value.Keys == outputShapes.Keys
      ensures |outputs.shape| != 4 ==> r == Failure(RankError(4, outputs.shape))
      ensures r.Success? <==> |outputs.shape| == 4 && outputs.shape[0] == |outputShapes|
    {
      if |outputs.shape| != 4 then Failure(RankError(4, outputs.shape))
      else Unstack(outputs, outputShapes)
    }

    /** The mapping under the `PytreeMapping` protocol. */
    function AsMapping(): (m: Mapping)
      ensures m.outputShapes == outputShapes
      ensures forall x :: m.apply(x) == Apply(x)
    {
      Mapping(x => Apply(x), outputShapes)
    }
  }

  /** `VariableMapping.__init__`: the tower is sized by the numbers of input and output leaves. */
  function NewVariableMapping(inputShapes: ShapeTree, outputShapes: ShapeTree, towerFactory: TowerFactory): (r: VariableMapping)
    ensures r.outputShapes == outputShapes
    ensures r.tower == towerFactory(|KeyOrder(inputShapes)|, |KeyOrder(outputShapes)|)
  {
    VariableMapping(towerFactory(|inputShapes|, |outputShapes|), outputShapes)
  }

  /** The factory of variable mappings, as a `PytreeMappingFactory`. */
  function VariableMappingFactory(towerFactory: TowerFactory): (f: MappingFactory)
    ensures forall inS, outS :: f(inS, outS).Success?
  {
    (inS, outS) => Success(NewVariableMapping(inS, outS, towerFactory).AsMapping())
  }

  /** Every leaf of the contract has the shape `s`. */
  predicate UniformShapes(shapes: ShapeTree, s: Shape) {
    forall k :: k in shapes ==> shapes[k] == s
  }

  /** Leaves of one rank-3 shape stack into a rank-4 array of the input leaf count. */
  lemma StackRank(x: Tree, s: Shape)
    requires |x| > 0 && UniformShapes(ShapeOf(x), s)
    ensures Stack(x).Success? && Stack(x).value.shape == [|x|] + s
  {
    assert Uniform(x, s) by {
      forall k | k in x
        ensures x[k].shape == s
      {
        assert ShapeOf(x)[k] == x[k].shape;
      }
    }
    StackUniform(x, s);
  }

  /** Leaves of one shape whose rank is not 3 stack into an array that fails the rank-4 check. */
  lemma ApplyRankError(m: VariableMapping, x: Tree, s: Shape)
    requires |x| > 0 && UniformShapes(ShapeOf(x), s) && |s| != 3
    ensures m.Apply(x) == Failure(RankError(4, [|x|] + s))
  {
    StackRank(x, s);
  }

  /** Leaves of different shapes cannot be stacked. */
  lemma ApplyMixedShapes(m: VariableMapping, x: Tree, k: string, k': string)
    requires k in x && k' in x && x[k].shape != x[k'].shape
    ensures m.Apply(x) == Failure(ConcatError)
  {
    var i := KeyPosition(x, k);
    var i' := KeyPosition(x, k');
  }

  /**
   * On leaves of one rank-3 shape `s`, with an output contract whose leaves
   * all have the shape `s` and a tower that keeps every axis but the
   * leading one, the call succeeds and returns exactly the output contract.
   */
  lemma ApplyUniform(m: VariableMapping, x: Tree, s: Shape)
    requires |x| > 0 && |s| == 3 && UniformShapes(ShapeOf(x), s) && UniformShapes(m.outputShapes, s)
    requires KeepsOffAxes(m.tower, |x|, |m.outputShapes|)
    ensures m.Apply(x).Success? && ShapeOf(m.Apply(x).value) == m.outputShapes
  {
    StackRank(x, s);
    var stacked := Stack(x).value;
    assert m.Apply(x) == m.FromTower(m.tower(stacked));
    var outputs := m.tower(stacked);
    assert outputs.shape == [|m.outputShapes|] + s;
    UnstackedShapes(outputs, m.outputShapes, s);
  }

  /** Unstacking an array of one slice per output leaf, each of shape `s`, meets a contract of leaves of shape `s`. */
  lemma UnstackedShapes(outputs: Array, outS: ShapeTree, s: Shape)
    requires outputs.shape == [|outS|] + s && UniformShapes(outS, s)
    ensures Unstack(outputs, outS).Success? && ShapeOf(Unstack(outputs, outS).value) == outS
  {
    assert outputs.shape[1..] == s;
    var r := Unstack(outputs, outS).value;
    forall k | k in outS
      ensures r[k].shape == outS[k]
    {
      UnstackShape(outputs, outS, k);
    }
  }

  /**
   * Soundness of the constructor: a variable mapping built for an input
   * contract of one rank-3 shape and an output contract of the same shape,
   * with towers that keep the non-leading axes, maps every input meeting
   * the input contract to the output contract.
   */
  lemma VariableMappingMeetsContract(inS: ShapeTree, outS: ShapeTree, towerFactory: TowerFactory, s: Shape)
    requires |inS| > 0 && |s| == 3 && UniformShapes(inS, s) && UniformShapes(outS, s)
    requires FactoryKeepsOffAxes(towerFactory)
    ensures Delivers(VariableMappingFactory(towerFactory), inS, outS)
  {
    var m := NewVariableMapping(inS, outS, towerFactory);
    forall x: Tree | ShapeOf(x) == inS
      ensures m.Apply(x).Success? && ShapeOf(m.Apply(x).value) == m.outputShapes
    {
      assert |x| == |ShapeOf(x)|;
      ApplyUniform(m, x, s);
    }
  }

  /**
   * With a tower that returns its input and the input's own contract as
   * output contract, the mapping gives back any tree of uniformly shaped
   * rank-3 leaves: unstacking undoes stacking.
   */
  lemma IdentityTowerRoundTrip(m: VariableMapping, x: Tree, s: Shape)
    requires forall a :: m.tower(a) == a
    requires m.outputShapes == ShapeOf(x)
    requires |x| > 0 && |s| == 3 && UniformShapes(ShapeOf(x), s)
    ensures m.Apply(x) == Success(x)
  {
    StackRank(x, s);
    assert Uniform(x, s) by {
      forall k | k in x
        ensures x[k].shape == s
      {
        assert ShapeOf(x)[k] == x[k].shape;
      }
    }
    UnstackStack(x, s);
  }
}
