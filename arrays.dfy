/**
 * Dense arrays as the mappings see them: a shape and the elements in
 * row-major order. An element is a real number or NaN; arithmetic follows
 * IEEE in propagating NaN (so NaN * 0 is NaN).
 */
module Arrays {
  import opened Results

  datatype Scalar = NaN | Num(v: real)

  function Add(a: Scalar, b: Scalar): Scalar {
    if a.Num? && b.Num? then Num(a.v + b.v) else NaN
  }

  function Sub(a: Scalar, b: Scalar): Scalar {
    if a.Num? && b.Num? then Num(a.v - b.v) else NaN
  }

  function Mul(a: Scalar, b: Scalar): Scalar {
    if a.Num? && b.Num? then Num(a.v * b.v) else NaN
  }

  /** `jnp.maximum`: NaN if either operand is NaN. */
  function Maximum(a: Scalar, b: Scalar): Scalar {
    if a.Num? && b.Num? then Num(if a.v >= b.v then a.v else b.v) else NaN
  }

  /** `jnp.isnan` as a 0/1 value (a boolean array promoted to float). */
  function IsNaN(a: Scalar): Scalar {
    if a.NaN? then Num(1.0) else Num(0.0)
  }

  /** `jnp.nan_to_num(x, nan=0.0)` on a value that is not infinite. */
  function NanToZero(a: Scalar): Scalar {
    if a.NaN? then Num(0.0) else a
  }

  type Shape = seq<nat>

  /** Number of elements of an array of the given shape. */
  function Prod(s: Shape): nat
    decreases |s|
  {
    if s == [] then 1 else s[0] * Prod(s[1..])
  }

  lemma {:induction false} ProdAppend(a: Shape, b: Shape)
    ensures Prod(a + b) == Prod(a) * Prod(b)
    decreases |a|
  {
    if a != [] {
      assert (a + b)[1..] == a[1..] + b;
      ProdAppend(a[1..], b);
      assert (a + b)[0] == a[0];
      calc {
        Prod(a + b);
        (a + b)[0] * Prod((a + b)[1..]);
        a[0] * Prod(a[1..] + b);
        a[0] * (Prod(a[1..]) * Prod(b));
        (a[0] * Prod(a[1..])) * Prod(b);
        Prod(a) * Prod(b);
      }
    } else {
      assert a + b == b;
    }
  }

  datatype NdArray = NdArray(shape: Shape, data: seq<Scalar>)

  /** A well-formed array: one element per index of its shape. */
  type Array = a: NdArray | |a.data| == Prod(a.shape) witness NdArray([], [NaN])

  /** `s` is a trailing part of `t` (numpy aligns shapes from the right). */
  predicate IsSuffix(s: Shape, t: Shape) {
    |s| <= |t| && t[|t| - |s|..] == s
  }

  lemma SuffixProd(s: Shape, t: Shape)
    requires IsSuffix(s, t)
    ensures Prod(t) == Prod(t[..|t| - |s|]) * Prod(s)
  {
    assert t == t[..|t| - |s|] + s;
    ProdAppend(t[..|t| - |s|], s);
  }

  /** An array with one element per element of `a`, each mapped by `f`. */
  function MapArray(f: Scalar -> Scalar, a: Array): (r: Array)
    ensures r.shape == a.shape && |r.data| == |a.data|
  {
    NdArray(a.shape, seq(|a.data|, i requires 0 <= i < |a.data| => f(a.data[i])))
  }

  /** The element of `small` that numpy broadcasting lines up with element `j` of `big`. */
  function Aligned(small: Array, big: Array, j: nat): Scalar
    requires IsSuffix(small.shape, big.shape) && j < |big.data|
  {
    SuffixProd(small.shape, big.shape);
    small.data[j % |small.data|]
  }

  /**
   * A binary elementwise operation with numpy broadcasting, for the case
   * where one shape is a trailing part of the other; any other pair of
   * shapes is reported as a broadcasting error.
   */
  function Broadcast(f: (Scalar, Scalar) -> Scalar, a: Array, b: Array): (r: Result<Array>)
    ensures r.Success? <==> IsSuffix(a.shape, b.shape) || IsSuffix(b.shape, a.shape)
    ensures r.Success? && IsSuffix(a.shape, b.shape) ==>
      r.value.shape == b.shape &&
      forall j :: 0 <= j < |b.data| ==> r.value.data[j] == f(Aligned(a, b, j), b.data[j])
    ensures r.Success? && !IsSuffix(a.shape, b.shape) ==>
      r.value.shape == a.shape &&
      forall j :: 0 <= j < |a.data| ==> r.value.data[j] == f(a.data[j], Aligned(b, a, j))
  {
    if IsSuffix(a.shape, b.shape) then
      var d := seq(|b.data|, j requires 0 <= j < |b.data| => f(Aligned(a, b, j), b.data[j]));
      assert |d| == Prod(b.shape);
      var r: Array := NdArray(b.shape, d);
      Success(r)
    else if IsSuffix(b.shape, a.shape) then
      var d := seq(|a.data|, j requires 0 <= j < |a.data| => f(a.data[j], Aligned(b, a, j)));
      assert |d| == Prod(a.shape);
      var r: Array := NdArray(a.shape, d);
      Success(r)
    else
      Failure(BroadcastError)
  }

  /** Arrays of one shape line up element for element. */
  lemma AlignedSameShape(a: Array, b: Array, j: nat)
    requires a.shape == b.shape && j < |b.data|
    ensures IsSuffix(a.shape, b.shape) && Aligned(a, b, j) == a.data[j]
  {
    assert b.shape[|b.shape| - |a.shape|..] == a.shape;
    ModSmall(j, |a.data|);
  }

  lemma ModSmall(j: nat, n: nat)
    requires j < n
    ensures j % n == j
  {
  }
}
