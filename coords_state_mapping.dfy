/**
 * `CoordsStateMapping`: a state predicted by an embedding whose output
 * contract is derived from coordinates: volume fields take the full
 * coordinate shape and surface fields the horizontal one.
 */
module CoordsStateMappings {
  import opened Results
  import opened Arrays
  import opened Pytrees
  import opened Protocols

  /** The shapes of `coordinates.DinosaurCoordinates` the mapping reads: `shape` and `horizontal.shape`. */
  datatype Coords = Coords(shape: Shape, horizontalShape: Shape)

  /**
   * The declared contract of the state: every named field is present, and a
   * field named as a surface field has the horizontal shape, whether or not
   * it is also named as a volume field; the other fields have the full shape.
   */
  function StateShapes(coords: Coords, surfaceFieldNames: seq<string>, volumeFieldNames: seq<string>): ShapeTree {
    map name | name in surfaceFieldNames + volumeFieldNames ::
      if name in surfaceFieldNames then coords.horizontalShape else coords.shape
  }

  /** The fields of the declared contract and their shapes, from the names alone. */
  lemma StateShapesFields(coords: Coords, surfaceFieldNames: seq<string>, volumeFieldNames: seq<string>, name: string)
    ensures name in StateShapes(coords, surfaceFieldNames, volumeFieldNames) <==>
      name in surfaceFieldNames || name in volumeFieldNames
    ensures name in surfaceFieldNames ==> StateShapes(coords, surfaceFieldNames, volumeFieldNames)[name] == coords.horizontalShape
    ensures name in volumeFieldNames && name !in surfaceFieldNames ==>
      StateShapes(coords, surfaceFieldNames, volumeFieldNames)[name] == coords.shape
  {
  }

  /**
   * The constructor's two loops: volume fields first, then surface fields,
   * each assignment overwriting an earlier one under the same name.
   */
  method BuildStateShapes(coords: Coords, surfaceFieldNames: seq<string>, volumeFieldNames: seq<string>)
    returns (outputShapes: ShapeTree)
    ensures outputShapes == StateShapes(coords, surfaceFieldNames, volumeFieldNames)
  {
    outputShapes := map[];
    for i := 0 to |volumeFieldNames|
      invariant outputShapes == map name | name in volumeFieldNames[..i] :: coords.shape
    {
      outputShapes := outputShapes[volumeFieldNames[i] := coords.shape];
      assert volumeFieldNames[..i + 1] == volumeFieldNames[..i] + [volumeFieldNames[i]];
    }
    assert volumeFieldNames[..|volumeFieldNames|] == volumeFieldNames;
    for i := 0 to |surfaceFieldNames|
      invariant outputShapes == map name | name in surfaceFieldNames[..i] + volumeFieldNames ::
        if name in surfaceFieldNames[..i] then coords.horizontalShape else coords.shape
    {
      outputShapes := outputShapes[surfaceFieldNames[i] := coords.horizontalShape];
      assert surfaceFieldNames[..i + 1] == surfaceFieldNames[..i] + [surfaceFieldNames[i]];
    }
    assert surfaceFieldNames[..|surfaceFieldNames|] == surfaceFieldNames;
  }

  /** `embedding_factory(output_shapes)`: a mapping factory called with the output contract only. */
  type StateMappingFactory = ShapeTree -> Result<Mapping>

  /** The module's fields, fixed at construction. */
  datatype CoordsStateMapping = CoordsStateMapping(coords: Coords, embedding: Mapping, transform: Transform, mesh: Mesh)
  {
    /** The forward pass: embedding, then transform, then dycore sharding. */
    function Apply(inputs: Tree): (r: Result<Tree>)
      ensures embedding.apply(inputs).Failure? ==> r == embedding.apply(inputs).PropagateFailure()
    {
      var output :- embedding.apply(inputs);
      var transformed :- transform.apply(output);
      Success(mesh.dycore(transformed))
    }

    /** `output_shapes`: the transform's contract for the embedding's. */
    function OutputShapes(): (s: ShapeTree)
      ensures (forall t :: transform.outputShapes(t) == t) ==> s == embedding.outputShapes
    {
      transform.outputShapes(embedding.outputShapes)
    }

    /** The module under the `PytreeMapping` protocol. */
    function AsMapping(): (m: Mapping)
      ensures m.outputShapes == OutputShapes()
      ensures forall x :: m.apply(x) == Apply(x)
    {
      Mapping(x => Apply(x), OutputShapes())
    }
  }

  /**
   * `CoordsStateMapping.__init__`: the output contract is built from the
   * coordinates and the field names, and the embedding is requested for it;
   * a failure of the factory is the constructor's failure.
   */
  method NewCoordsStateMapping(
    coords: Coords, surfaceFieldNames: seq<string>, volumeFieldNames: seq<string>,
    embeddingFactory: StateMappingFactory, transform: Transform, mesh: Mesh)
    returns (r: Result<CoordsStateMapping>)
    ensures var requested := StateShapes(coords, surfaceFieldNames, volumeFieldNames);
      (r.Success? <==> embeddingFactory(requested).Success?) &&
      (r.Success? ==> r.value == CoordsStateMapping(coords, embeddingFactory(requested).value, transform, mesh)) &&
      (r.Failure? ==> r.error == embeddingFactory(requested).error)
  {
    var outputShapes := BuildStateShapes(coords, surfaceFieldNames, volumeFieldNames);
    var embedding :- embeddingFactory(outputShapes);
    return Success(CoordsStateMapping(coords, embedding, transform, mesh));
  }

  /**
   * With an identity transform and an embedding that declares the contract
   * it was requested for, the mapping declares the coordinate contract:
   * the surface fields horizontal, the other fields full.
   */
  lemma DeclaresCoordinateShapes(
    c: CoordsStateMapping, surfaceFieldNames: seq<string>, volumeFieldNames: seq<string>, name: string)
    requires c.transform == Identity()
    requires c.embedding.outputShapes == StateShapes(c.coords, surfaceFieldNames, volumeFieldNames)
    ensures name in c.OutputShapes() <==> name in surfaceFieldNames || name in volumeFieldNames
    ensures name in surfaceFieldNames ==> c.OutputShapes()[name] == c.coords.horizontalShape
    ensures name in volumeFieldNames && name !in surfaceFieldNames ==> c.OutputShapes()[name] == c.coords.shape
  {
    StateShapesFields(c.coords, surfaceFieldNames, volumeFieldNames, name);
  }

  /** With the sharding hooks off, the forward pass is the embedding followed by the transform. */
  lemma ApplyWithoutSharding(c: CoordsStateMapping, x: Tree)
    requires NoOp(c.mesh)
    ensures c.embedding.apply(x).Success? ==> c.Apply(x) == c.transform.apply(c.embedding.apply(x).value)
  {
  }

  /**
   * When the embedding meets its contract, the transform meets the one it
   * declares for the embedding's, and sharding keeps shapes, the module
   * meets its declared contract.
   */
  lemma CoordsMeetsContract(c: CoordsStateMapping, inS: ShapeTree)
    requires MeetsContract(c.embedding, inS)
    requires TransformMeets(c.transform, c.embedding.outputShapes)
    requires PreservesShapes(c.mesh)
    ensures MeetsContract(c.AsMapping(), inS)
  {
    forall x: Tree | ShapeOf(x) == inS
      ensures c.Apply(x).Success? && ShapeOf(c.Apply(x).value) == c.OutputShapes()
    {
      var output := c.embedding.apply(x).value;
      var transformed := c.transform.apply(output).value;
      assert c.Apply(x) == Success(c.mesh.dycore(transformed));
    }
  }
}
