/**
 * `Embedding` and `MaskedEmbedding`: features are computed from the
 * inputs, mapped by a pytree mapping built against the features' declared
 * contract, and post-transformed, with the mesh's sharding hooks at four
 * fixed points. The masked variant replaces NaN by 0 in feature leaves of
 * the mask's shape wherever the mask is 1.
 */
module Embeddings {
  import opened Results
  import opened Arrays
  import opened Pytrees
  import opened Protocols

  /**
   * `minimal_state_struct()`: a state holding only the time 1970-01-01T00,
   * written as a rank-0 leaf counting seconds since that epoch.
   */
  function MinimalStateStruct(): (r: Tree)
    ensures r.Keys == {"time"}
    ensures r["time"].shape == [] && r["time"].data == [Num(0.0)]
  {
    var epoch: Array := NdArray([], [Num(0.0)]);
    map["time" := epoch]
  }

  /** `apply_mask` on one feature leaf: where the mask is 1, NaN becomes 0, if the leaf has the mask's shape. */
  function MaskLeaf(leaf: Array, mask: Array): (r: Array)
    ensures r.shape == leaf.shape
    ensures leaf.shape != mask.shape ==> r == leaf
    ensures leaf.shape == mask.shape ==> forall j :: 0 <= j < |r.data| ==>
      (mask.data[j] == Num(1.0) ==> r.data[j].Num?) &&
      (r.data[j] != leaf.data[j] ==> mask.data[j] == Num(1.0) && leaf.data[j] == NaN && r.data[j] == Num(0.0))
  {
    if leaf.shape == mask.shape then
      NdArray(leaf.shape, seq(|leaf.data|, j requires 0 <= j < |leaf.data| =>
        if mask.data[j] == Num(1.0) then NanToZero(leaf.data[j]) else leaf.data[j]))
    else leaf
  }

  /** `jax.tree.map(apply_mask, features)`. */
  function MaskTree(t: Tree, mask: Array): (r: Tree)
    ensures ShapeOf(r) == ShapeOf(t)
    ensures forall k :: k in t ==> r[k] == MaskLeaf(t[k], mask)
  {
    map k | k in t :: MaskLeaf(t[k], mask)
  }

  /** The module's fields, fixed at construction. */
  datatype Embedding = Embedding(featureModule: Transform, mapping: Mapping, transform: Transform, mesh: Mesh)
  {
    /** `_get_sharded_features`: shard the inputs, compute the features, reshard them. */
    function Features(inputs: Tree): (r: Result<Tree>)
      ensures r.Success? <==> featureModule.apply(mesh.dycore(inputs)).Success?
      ensures NoOp(mesh) ==> r == featureModule.apply(inputs)
    {
      var features :- featureModule.apply(mesh.dycore(inputs));
      Success(mesh.dycoreToPhysics(features))
    }

    /** `_process_sharded_features`: map, reshard, post-transform, shard. */
    function Process(features: Tree): (r: Result<Tree>)
      ensures mapping.apply(features).Failure? ==> r == Failure(mapping.apply(features).error)
      ensures NoOp(mesh) && mapping.apply(features).Success? ==> r == transform.apply(mapping.apply(features).value)
    {
      var outputs :- mapping.apply(features);
      var transformed :- transform.apply(mesh.physicsToDycore(outputs));
      Success(mesh.dycore(transformed))
    }

    /** `Embedding.__call__`. */
    function Apply(inputs: Tree): (r: Result<Tree>)
      ensures Features(inputs).Failure? ==> r == Failure(Features(inputs).error)
      ensures Features(inputs).Success? ==> r == Process(Features(inputs).value)
    {
      var features :- Features(inputs);
      Process(features)
    }

    /** `MaskedEmbedding.__call__`: the features are masked before they are processed. */
    function ApplyMasked(inputs: Tree, mask: Option<Array>): (r: Result<Tree>)
      ensures mask.None? ==> r == Apply(inputs)
      ensures Features(inputs).Failure? ==> r == Failure(Features(inputs).error)
      ensures mask.Some? && Features(inputs).Success? ==> r == Process(MaskTree(Features(inputs).value, mask.value))
    {
      var features :- Features(inputs);
      Process(if mask.Some? then MaskTree(features, mask.value) else features)
    }

    /** `output_shapes`: the post-transform's contract for the mapping's contract. */
    function OutputShapes(): (s: ShapeTree)
      ensures (forall t :: transform.outputShapes(t) == t) ==> s == mapping.outputShapes
    {
      transform.outputShapes(mapping.outputShapes)
    }

    /** The embedding under the `PytreeMapping` protocol. */
    function AsMapping(): (m: Mapping)
      ensures m.outputShapes == OutputShapes()
      ensures forall x :: m.apply(x) == Apply(x)
    {
      Mapping(x => Apply(x), OutputShapes())
    }
  }

  /** The contract the features are declared to have: for the given state contract, or the minimal state by default. */
  function StateShapes(inputStateShapes: Option<ShapeTree>): (s: ShapeTree)
    ensures inputStateShapes.None? ==> s == map["time" := []]
    ensures inputStateShapes.Some? ==> s == inputStateShapes.value
  {
    if inputStateShapes.None? then ShapeOf(MinimalStateStruct()) else inputStateShapes.value
  }

  /**
   * `Embedding.__init__`: the mapping is built from the feature module's
   * declared contract for the input state contract (the minimal state when
   * none is given) to the requested output contract.
   */
  function NewEmbedding(
    outputShapes: ShapeTree, featureModule: Transform, mappingFactory: MappingFactory,
    transform: Transform, inputStateShapes: Option<ShapeTree>, mesh: Mesh): (r: Result<Embedding>)
    ensures var fS := featureModule.outputShapes(StateShapes(inputStateShapes));
      r.Success? <==> mappingFactory(fS, outputShapes).Success?
    ensures r.Success? ==> r.value.featureModule == featureModule && r.value.transform == transform && r.value.mesh == mesh
    ensures r.Success? ==> r.value.mapping == mappingFactory(featureModule.outputShapes(StateShapes(inputStateShapes)), outputShapes).value
  {
    var mapping :- mappingFactory(featureModule.outputShapes(StateShapes(inputStateShapes)), outputShapes);
    Success(Embedding(featureModule, mapping, transform, mesh))
  }

  /** Without sharding effects the forward pass is post-transform after mapping after features. */
  lemma ApplyWithoutSharding(e: Embedding, x: Tree)
    requires NoOp(e.mesh)
    ensures e.Apply(x) ==
      (match e.featureModule.apply(x)
        case Failure(err) => Failure(err)
        case Success(f) =>
          match e.mapping.apply(f)
            case Failure(err) => Failure(err)
            case Success(o) => e.transform.apply(o))
  {
    assert e.mesh.dycore(x) == x;
    if e.featureModule.apply(x).Success? {
      var f := e.featureModule.apply(x).value;
      assert e.mesh.dycoreToPhysics(f) == f;
      if e.mapping.apply(f).Success? {
        var o := e.mapping.apply(f).value;
        assert e.mesh.physicsToDycore(o) == o;
        if e.transform.apply(o).Success? {
          assert e.mesh.dycore(e.transform.apply(o).value) == e.transform.apply(o).value;
        }
      }
    }
  }

  /** Without a mask the masked embedding is the embedding. */
  lemma MaskedWithoutMask(e: Embedding, x: Tree)
    ensures e.ApplyMasked(x, None) == e.Apply(x)
  {
  }

  /** A leaf without NaN is left as it is by the mask. */
  lemma MaskLeafWithoutNaN(leaf: Array, mask: Array)
    requires forall j :: 0 <= j < |leaf.data| ==> leaf.data[j].Num?
    ensures MaskLeaf(leaf, mask) == leaf
  {
    var r := MaskLeaf(leaf, mask);
    if leaf.shape == mask.shape {
      assert forall j :: 0 <= j < |r.data| ==> r.data[j] == leaf.data[j];
    }
  }

  /** Masking twice with one mask is masking once. */
  lemma MaskLeafIdempotent(leaf: Array, mask: Array)
    ensures MaskLeaf(MaskLeaf(leaf, mask), mask) == MaskLeaf(leaf, mask)
  {
    var once := MaskLeaf(leaf, mask);
    var twice := MaskLeaf(once, mask);
    if leaf.shape == mask.shape {
      forall j | 0 <= j < |twice.data|
        ensures twice.data[j] == once.data[j]
      {
        if mask.data[j] == Num(1.0) {
          assert once.data[j].Num?;
        }
      }
      assert twice.data == once.data;
    }
  }

  /** Features without NaN are not changed by any mask, so the masked call is the plain call. */
  lemma MaskedWithoutNaN(e: Embedding, x: Tree, mask: Array)
    requires e.Features(x).Success?
    requires forall k, j :: k in e.Features(x).value && 0 <= j < |e.Features(x).value[k].data| ==>
      e.Features(x).value[k].data[j].Num?
    ensures e.ApplyMasked(x, Some(mask)) == e.Apply(x)
  {
    var f := e.Features(x).value;
    forall k | k in f
      ensures MaskTree(f, mask)[k] == f[k]
    {
      MaskLeafWithoutNaN(f[k], mask);
    }
    assert MaskTree(f, mask) == f;
  }

  /** The collaborators of an embedding meet their contracts for the state contract `stateS`. */
  ghost predicate CollaboratorsMeet(e: Embedding, stateS: ShapeTree) {
    PreservesShapes(e.mesh) &&
    TransformMeets(e.featureModule, stateS) &&
    MeetsContract(e.mapping, e.featureModule.outputShapes(stateS)) &&
    TransformMeets(e.transform, e.mapping.outputShapes)
  }

  /** Features of an input of contract `stateS` meet the feature module's declared contract. */
  lemma FeaturesMeet(e: Embedding, x: Tree, stateS: ShapeTree)
    requires CollaboratorsMeet(e, stateS) && ShapeOf(x) == stateS
    ensures e.Features(x).Success? && ShapeOf(e.Features(x).value) == e.featureModule.outputShapes(stateS)
  {
    assert ShapeOf(e.mesh.dycore(x)) == stateS;
    var f := e.featureModule.apply(e.mesh.dycore(x)).value;
    assert ShapeOf(e.mesh.dycoreToPhysics(f)) == ShapeOf(f);
  }

  /** Processing features of the mapping's input contract gives the embedding's output contract. */
  lemma ProcessMeets(e: Embedding, f: Tree, stateS: ShapeTree)
    requires CollaboratorsMeet(e, stateS) && ShapeOf(f) == e.featureModule.outputShapes(stateS)
    ensures e.Process(f).Success? && ShapeOf(e.Process(f).value) == e.OutputShapes()
  {
    var o := e.mapping.apply(f).value;
    assert ShapeOf(e.mesh.physicsToDycore(o)) == e.mapping.outputShapes;
    var t := e.transform.apply(e.mesh.physicsToDycore(o)).value;
    assert ShapeOf(e.mesh.dycore(t)) == ShapeOf(t);
  }

  /**
   * Shape soundness of the masked and unmasked forward passes: on an input
   * of the state contract, with or without a mask, the call succeeds and
   * meets `OutputShapes()`.
   */
  lemma ApplyMeetsContract(e: Embedding, x: Tree, stateS: ShapeTree, mask: Option<Array>)
    requires CollaboratorsMeet(e, stateS) && ShapeOf(x) == stateS
    ensures e.Apply(x).Success? && ShapeOf(e.Apply(x).value) == e.OutputShapes()
    ensures e.ApplyMasked(x, mask).Success? && ShapeOf(e.ApplyMasked(x, mask).value) == e.OutputShapes()
  {
    FeaturesMeet(e, x, stateS);
    var f := e.Features(x).value;
    ProcessMeets(e, f, stateS);
    if mask.Some? {
      ProcessMeets(e, MaskTree(f, mask.value), stateS);
    }
  }

  /**
   * Soundness of the constructor: when the feature module meets its
   * declared contract, the factory delivers a mapping for the features'
   * contract, the post-transform meets its contract and the mesh keeps
   * shapes, the embedding maps every input of the state contract to
   * `transform.output_shapes(output_shapes)`.
   */
  lemma EmbeddingMeetsContract(
    outS: ShapeTree, featureModule: Transform, mappingFactory: MappingFactory,
    transform: Transform, inputStateShapes: Option<ShapeTree>, mesh: Mesh)
    requires var stateS := StateShapes(inputStateShapes);
      PreservesShapes(mesh) && TransformMeets(featureModule, stateS) &&
      Delivers(mappingFactory, featureModule.outputShapes(stateS), outS) && TransformMeets(transform, outS)
    ensures NewEmbedding(outS, featureModule, mappingFactory, transform, inputStateShapes, mesh).Success?
    ensures var e := NewEmbedding(outS, featureModule, mappingFactory, transform, inputStateShapes, mesh).value;
      e.OutputShapes() == transform.outputShapes(outS) && MeetsContract(e.AsMapping(), StateShapes(inputStateShapes))
  {
    var stateS := StateShapes(inputStateShapes);
    var e := NewEmbedding(outS, featureModule, mappingFactory, transform, inputStateShapes, mesh).value;
    assert CollaboratorsMeet(e, stateS);
    forall x: Tree | ShapeOf(x) == stateS
      ensures e.Apply(x).Success? && ShapeOf(e.Apply(x).value) == e.OutputShapes()
    {
      ApplyMeetsContract(e, x, stateS, None);
    }
  }
}
