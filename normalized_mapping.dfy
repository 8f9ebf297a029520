/**
 * `MappingWithNormalizedInputs`: inputs expanded to rank 3 are normalized,
 * clipped and then mapped by an inner mapping that was built against the
 * normalization's declared output contract.
 */
module NormalizedMappings {
  import opened Results
  import opened Pytrees
  import opened Protocols

  /** The module's fields, fixed at construction. */
  datatype MappingWithNormalizedInputs = MappingWithNormalizedInputs(
    normalization: Transform, clip: Transform, mapping: Mapping, outputShapes: ShapeTree)
  {
    /** The normalization alone, on inputs as given. */
    function Normalize(inputs: Tree): (r: Result<Tree>)
      ensures TransformMeets(normalization, ShapeOf(inputs)) ==>
        r.Success? && ShapeOf(r.value) == normalization.outputShapes(ShapeOf(inputs))
    {
      normalization.apply(inputs)
    }

    /** The forward pass: expand to rank 3, normalize, clip, map. */
    function Apply(inputs: Tree): (r: Result<Tree>)
      ensures Normalize(ExpandTree(inputs)).Failure? ==> r == Normalize(ExpandTree(inputs)).PropagateFailure()
    {
      var normalized :- Normalize(ExpandTree(inputs));
      var clipped :- clip.apply(normalized);
      mapping.apply(clipped)
    }

    /** The module under the `PytreeMapping` protocol. */
    function AsMapping(): (m: Mapping)
      ensures m.outputShapes == outputShapes
      ensures forall x :: m.apply(x) == Apply(x)
    {
      Mapping(x => Apply(x), outputShapes)
    }
  }

  /**
   * `MappingWithNormalizedInputs.__init__`: the normalization is built for
   * the input contract expanded to rank 3, and the inner mapping for the
   * contract the normalization declares for it; a failure of the mapping
   * factory is the constructor's failure.
   */
  function NewMappingWithNormalizedInputs(
    inputShapes: ShapeTree, outputShapes: ShapeTree, mappingFactory: MappingFactory,
    normalizationFactory: TransformFactory, clip: Transform): (r: Result<MappingWithNormalizedInputs>)
    ensures var n := normalizationFactory(ExpandShapes(inputShapes));
      r.Success? <==> mappingFactory(n.outputShapes(ExpandShapes(inputShapes)), outputShapes).Success?
    ensures r.Success? ==> r.value.outputShapes == outputShapes && r.value.clip == clip
    ensures r.Success? ==> r.value.normalization == normalizationFactory(ExpandShapes(inputShapes))
    ensures var n := normalizationFactory(ExpandShapes(inputShapes));
      r.Success? ==> r.value.mapping == mappingFactory(n.outputShapes(ExpandShapes(inputShapes)), outputShapes).value
    ensures var n := normalizationFactory(ExpandShapes(inputShapes));
      r.Failure? ==> r.error == mappingFactory(n.outputShapes(ExpandShapes(inputShapes)), outputShapes).error
  {
    var inS := ExpandShapes(inputShapes);
    var normalization := normalizationFactory(inS);
    var mapping :- mappingFactory(normalization.outputShapes(inS), outputShapes);
    Success(MappingWithNormalizedInputs(normalization, clip, mapping, outputShapes))
  }

  /** The default clip is the identity: the forward pass maps the normalized, expanded inputs. */
  lemma ApplyWithoutClip(m: MappingWithNormalizedInputs, x: Tree)
    requires m.clip == Identity()
    requires m.Normalize(ExpandTree(x)).Success?
    ensures m.Apply(x) == m.mapping.apply(m.Normalize(ExpandTree(x)).value)
  {
  }

  /**
   * When the normalization meets its declared contract on the expanded
   * inputs and the clip keeps that contract, the inner mapping sees inputs
   * of the contract it was built for.
   */
  lemma ApplyMeetsContract(m: MappingWithNormalizedInputs, x: Tree, nS: ShapeTree)
    requires nS == m.normalization.outputShapes(ExpandShapes(ShapeOf(x)))
    requires TransformMeets(m.normalization, ExpandShapes(ShapeOf(x)))
    requires TransformMeets(m.clip, nS) && m.clip.outputShapes(nS) == nS
    requires MeetsContract(m.mapping, nS)
    ensures m.Apply(x).Success? && ShapeOf(m.Apply(x).value) == m.mapping.outputShapes
  {
    ExpandCommutesWithShapes(x);
    var normalized := m.Normalize(ExpandTree(x)).value;
    var clipped := m.clip.apply(normalized).value;
    assert m.Apply(x) == m.mapping.apply(clipped);
  }

  /**
   * Soundness of the constructor: when the normalization meets its declared
   * contract on the expanded inputs, the clip keeps that contract, and the
   * factory delivers a mapping for it, the module maps every input meeting
   * its input contract to its output contract.
   */
  lemma NormalizedMeetsContract(
    inS: ShapeTree, outS: ShapeTree, mappingFactory: MappingFactory,
    normalizationFactory: TransformFactory, clip: Transform)
    requires var n := normalizationFactory(ExpandShapes(inS));
      TransformMeets(n, ExpandShapes(inS)) &&
      TransformMeets(clip, n.outputShapes(ExpandShapes(inS))) &&
      clip.outputShapes(n.outputShapes(ExpandShapes(inS))) == n.outputShapes(ExpandShapes(inS)) &&
      Delivers(mappingFactory, n.outputShapes(ExpandShapes(inS)), outS)
    ensures NewMappingWithNormalizedInputs(inS, outS, mappingFactory, normalizationFactory, clip).Success?
    ensures MeetsContract(NewMappingWithNormalizedInputs(inS, outS, mappingFactory, normalizationFactory, clip).value.AsMapping(), inS)
  {
    var m := NewMappingWithNormalizedInputs(inS, outS, mappingFactory, normalizationFactory, clip).value;
    var nS := m.normalization.outputShapes(ExpandShapes(inS));
    forall x: Tree | ShapeOf(x) == inS
      ensures m.Apply(x).Success? && ShapeOf(m.Apply(x).value) == outS
    {
      ApplyMeetsContract(m, x, nS);
    }
  }
}
