/**
 * The collaborators of the mappings, seen only through their interfaces:
 * towers and tower factories, pytree mappings and their factories,
 * transforms (feature modules, normalizations, clips, post-transforms) and
 * the sharding hooks of a mesh. Each interface is a record of functions;
 * what a collaborator promises is a predicate that the theorems about the
 * mappings take as a hypothesis.
 */
module Protocols {
  import opened Results
  import opened Arrays
  import opened Pytrees

  /** A tower: an opaque network from arrays to arrays. */
  type Tower = Array -> Array

  /** `tower_factory(input_size, output_size)`; parameter initialisation is not modelled. */
  type TowerFactory = (nat, nat) -> Tower

  /**
   * A tower from `i` to `o` channels replaces the extent `i` of the leading
   * axis by `o` and keeps every other axis (in particular the trailing two
   * spatial ones).
   */
  ghost predicate KeepsOffAxes(tower: Tower, i: nat, o: nat) {
    forall a: Array :: |a.shape| > 0 && a.shape[0] == i ==> tower(a).shape == [o] + a.shape[1..]
  }

  /** Every tower the factory builds keeps the axes it does not map. */
  ghost predicate FactoryKeepsOffAxes(f: TowerFactory) {
    forall i: nat, o: nat :: KeepsOffAxes(f(i, o), i, o)
  }

  /** The `PytreeMapping` protocol: a call on a tree and a declared output contract. */
  datatype Mapping = Mapping(apply: Tree -> Result<Tree>, outputShapes: ShapeTree)

  /** A `PytreeMappingFactory` called with `input_shapes` and `output_shapes`. */
  type MappingFactory = (ShapeTree, ShapeTree) -> Result<Mapping>

  /** On every input meeting the contract `inS`, the mapping succeeds and meets its declared output contract. */
  ghost predicate MeetsContract(m: Mapping, inS: ShapeTree) {
    forall x: Tree {:trigger m.apply(x)} :: ShapeOf(x) == inS ==> m.apply(x).Success? && ShapeOf(m.apply(x).value) == m.outputShapes
  }

  /** The factory builds, for these contracts, a mapping that declares `outS` and meets it on inputs of contract `inS`. */
  ghost predicate Delivers(f: MappingFactory, inS: ShapeTree, outS: ShapeTree) {
    f(inS, outS).Success? && f(inS, outS).value.outputShapes == outS && MeetsContract(f(inS, outS).value, inS)
  }

  /**
   * A `pytree_transforms.Transform` (also the shape of a feature module):
   * a call on a tree and the output contract it declares for an input contract.
   */
  datatype Transform = Transform(apply: Tree -> Result<Tree>, outputShapes: ShapeTree -> ShapeTree)

  /** A transform factory called with the input contract. */
  type TransformFactory = ShapeTree -> Transform

  /** On every input meeting `inS`, the transform succeeds and meets the contract it declares for `inS`. */
  ghost predicate TransformMeets(t: Transform, inS: ShapeTree) {
    forall x: Tree {:trigger t.apply(x)} :: ShapeOf(x) == inS ==> t.apply(x).Success? && ShapeOf(t.apply(x).value) == t.outputShapes(inS)
  }

  /** `pytree_transforms.Identity()`, the default post-transform and clip. */
  function Identity(): (t: Transform)
    ensures forall x :: t.apply(x) == Success(x)
    ensures forall s :: t.outputShapes(s) == s
  {
    Transform(x => Success(x), s => s)
  }

  /** The identity meets every contract. */
  lemma IdentityMeets(inS: ShapeTree)
    ensures TransformMeets(Identity(), inS)
  {
  }

  /**
   * The sharding hooks of a `parallelism.Mesh`: `with_dycore_sharding`,
   * `with_dycore_to_physics_sharding` and `with_physics_to_dycore_sharding`.
   */
  datatype Mesh = Mesh(dycore: Tree -> Tree, dycoreToPhysics: Tree -> Tree, physicsToDycore: Tree -> Tree)

  /** The hooks only annotate placement: each keeps the structure and shapes of its tree. */
  ghost predicate PreservesShapes(mesh: Mesh) {
    (forall x {:trigger mesh.dycore(x)} :: ShapeOf(mesh.dycore(x)) == ShapeOf(x)) &&
    (forall x {:trigger mesh.dycoreToPhysics(x)} :: ShapeOf(mesh.dycoreToPhysics(x)) == ShapeOf(x)) &&
    (forall x {:trigger mesh.physicsToDycore(x)} :: ShapeOf(mesh.physicsToDycore(x)) == ShapeOf(x))
  }

  /** The hooks change no value: the mesh of a single device. */
  ghost predicate NoOp(mesh: Mesh) {
    (forall x :: mesh.dycore(x) == x) &&
    (forall x :: mesh.dycoreToPhysics(x) == x) &&
    (forall x :: mesh.physicsToDycore(x) == x)
  }
}
