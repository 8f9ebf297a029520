/**
 * The core value types: the randomness state and its pytree flattening,
 * the decomposed model state with its defaults, and the ordered key of a
 * field with a cosine-latitude factor.
 */
module Typing {
  import opened Results
  import opened Arrays
  import opened Pytrees
  import opened StringOrder

  /**
   * A Python value as the dataclasses below hold it: their fields carry
   * type annotations only, so any value can stand in any field.
   */
  datatype Value = ArrayValue(a: Array) | IntValue(i: int) | TreeValue(t: Tree) | NoneValue

  // ----- Randomness -----

  /** The state of the random process. */
  datatype Randomness = Randomness(prngKey: Value, prngStep: Value, core: Value)

  /**
   * `Randomness(*args)`: the key is required, the step defaults to 0 and
   * the core to None; any other number of positional arguments is a TypeError.
   */
  function NewRandomness(args: seq<Value>): (r: Result<Randomness>)
    ensures r.Success? <==> 1 <= |args| <= 3
    ensures r.Failure? ==> r.error == ArityError(|args|)
    ensures r.Success? ==> r.value.prngKey == args[0]
    ensures r.Success? && |args| >= 2 ==> r.value.prngStep == args[1]
    ensures r.Success? && |args| == 3 ==> r.value.core == args[2]
    ensures r.Success? && |args| < 2 ==> r.value.prngStep == IntValue(0)
    ensures r.Success? && |args| < 3 ==> r.value.core == NoneValue
  {
    if |args| == 0 || |args| > 3 then Failure(ArityError(|args|))
    else
      var step := if |args| >= 2 then args[1] else IntValue(0);
      var core := if |args| == 3 then args[2] else NoneValue;
      Success(Randomness(args[0], step, core))
  }

  /** The flattened form: the leaves and the auxiliary data. */
  datatype Flattened = Flattened(leaves: seq<Value>, auxData: seq<Value>)

  /** `tree_flatten`: the three fields in declaration order, no auxiliary data. */
  function Flatten(r: Randomness): (f: Flattened)
    ensures f.leaves == [r.prngKey, r.prngStep, r.core] && f.auxData == []
  {
    Flattened([r.prngKey, r.prngStep, r.core], [])
  }

  /** `tree_unflatten`: the constructor called on the leaves followed by the auxiliary data. */
  function Unflatten(auxData: seq<Value>, leaves: seq<Value>): (r: Result<Randomness>)
    ensures r.Success? <==> 1 <= |leaves| + |auxData| <= 3
    ensures |leaves| == 3 && auxData == [] ==> r == Success(Randomness(leaves[0], leaves[1], leaves[2]))
  {
    NewRandomness(leaves + auxData)
  }

  /** Unflattening a flattened state rebuilds it. */
  lemma UnflattenFlatten(r: Randomness)
    ensures Unflatten(Flatten(r).auxData, Flatten(r).leaves) == Success(r)
  {
    assert Flatten(r).leaves + [] == [r.prngKey, r.prngStep, r.core];
  }

  /** Flattening an unflattened state gives back three leaves and the empty auxiliary data it was built from. */
  lemma FlattenUnflatten(leaves: seq<Value>)
    requires |leaves| == 3
    ensures Unflatten([], leaves).Success? && Flatten(Unflatten([], leaves).value) == Flattened(leaves, [])
  {
    assert leaves + [] == leaves;
  }

  /** Flattening is injective: states with the same leaves are the same state. */
  lemma FlattenInjective(r: Randomness, s: Randomness)
    requires Flatten(r) == Flatten(s)
    ensures r == s
  {
    assert Flatten(r).leaves[0] == Flatten(s).leaves[0];
    assert Flatten(r).leaves[1] == Flatten(s).leaves[1];
    assert Flatten(r).leaves[2] == Flatten(s).leaves[2];
  }

  // ----- ModelState -----

  /** The simulation state: prognostics, and diagnostics and randomness that default to empty dicts. */
  datatype ModelState<S> = ModelState(prognostics: S, diagnostics: Value, randomness: Value)

  /** `ModelState(prognostics, diagnostics=..., randomness=...)` with the omitted fields defaulted. */
  function NewModelState<S>(prognostics: S, diagnostics: Option<Value>, randomness: Option<Value>): (m: ModelState<S>)
    ensures m.prognostics == prognostics
    ensures m.diagnostics == (if diagnostics.Some? then diagnostics.value else TreeValue(map[]))
    ensures m.randomness == (if randomness.Some? then randomness.value else TreeValue(map[]))
  {
    ModelState(
      prognostics,
      if diagnostics.Some? then diagnostics.value else TreeValue(map[]),
      if randomness.Some? then randomness.value else TreeValue(map[]))
  }

  /** A state built from prognostics alone has empty diagnostics and randomness. */
  lemma ModelStateDefaults<S>(prognostics: S)
    ensures NewModelState(prognostics, None, None).diagnostics == TreeValue(map[])
    ensures NewModelState(prognostics, None, None).randomness == TreeValue(map[])
  {
  }

  // ----- KeyWithCosLatFactor -----

  /** A key given by a name and an integer factor order; a value, so immutable and hashable. */
  datatype KeyWithCosLatFactor = KeyWithCosLatFactor(name: string, factorOrder: int)

  /** `<` of the dataclass: the tuples `(name, factor_order)` compared lexicographically. */
  predicate Lt(a: KeyWithCosLatFactor, b: KeyWithCosLatFactor)
    ensures a.name != b.name ==> (Lt(a, b) <==> Less(a.name, b.name))
    ensures a.name == b.name ==> (Lt(a, b) <==> a.factorOrder < b.factorOrder)
  {
    LessIrreflexive(a.name);
    Less(a.name, b.name) || (a.name == b.name && a.factorOrder < b.factorOrder)
  }

  /** `<=` of the dataclass, on the same tuples. */
  predicate Le(a: KeyWithCosLatFactor, b: KeyWithCosLatFactor)
    ensures a.name != b.name ==> (Le(a, b) <==> Less(a.name, b.name))
    ensures a.name == b.name ==> (Le(a, b) <==> a.factorOrder <= b.factorOrder)
  {
    LessIrreflexive(a.name);
    Less(a.name, b.name) || (a.name == b.name && a.factorOrder <= b.factorOrder)
  }

  /** `<=` is `<` or equality, and equality is that of both fields. */
  lemma LeIsLtOrEq(a: KeyWithCosLatFactor, b: KeyWithCosLatFactor)
    ensures Le(a, b) <==> Lt(a, b) || a == b
    ensures a == b <==> a.name == b.name && a.factorOrder == b.factorOrder
  {
  }

  /** No key is below itself. */
  lemma LtIrreflexive(a: KeyWithCosLatFactor)
    ensures !Lt(a, a)
  {
    LessIrreflexive(a.name);
  }

  /** `<` is transitive. */
  lemma LtTransitive(a: KeyWithCosLatFactor, b: KeyWithCosLatFactor, c: KeyWithCosLatFactor)
    requires Lt(a, b) && Lt(b, c)
    ensures Lt(a, c)
  {
    if Less(a.name, b.name) && Less(b.name, c.name) {
      LessTransitive(a.name, b.name, c.name);
    }
  }

  /** Any two keys are equal or ordered one way, and never both ways. */
  lemma LtTotal(a: KeyWithCosLatFactor, b: KeyWithCosLatFactor)
    ensures a == b || Lt(a, b) || Lt(b, a)
    ensures !(Lt(a, b) && Lt(b, a))
  {
    LessTrichotomous(a.name, b.name);
    if Less(a.name, b.name) {
      LessAsymmetric(a.name, b.name);
      LessIrreflexive(a.name);
    } else if Less(b.name, a.name) {
      LessAsymmetric(b.name, a.name);
      LessIrreflexive(a.name);
    }
  }

  /** `<=` is a total order: reflexive, antisymmetric, transitive and total. */
  lemma LeTotalOrder(a: KeyWithCosLatFactor, b: KeyWithCosLatFactor, c: KeyWithCosLatFactor)
    ensures Le(a, a)
    ensures Le(a, b) && Le(b, a) ==> a == b
    ensures Le(a, b) && Le(b, c) ==> Le(a, c)
    ensures Le(a, b) || Le(b, a)
  {
    LeIsLtOrEq(a, b);
    LeIsLtOrEq(b, a);
    LeIsLtOrEq(b, c);
    LeIsLtOrEq(a, c);
    LtTotal(a, b);
    if Lt(a, b) && Lt(b, c) {
      LtTransitive(a, b, c);
    }
  }
}
