/**
 * `ParallelMapping`: every member mapping is called on the same input and
 * the results are added leaf by leaf.
 */
module ParallelMappings {
  import opened Results
  import opened Arrays
  import opened Pytrees
  import opened Protocols

  /** The members' results in member order; the first failing member's error is the call's error. */
  function ApplyAll(ms: seq<Mapping>, x: Tree): (r: Result<seq<Tree>>)
    ensures r.Success? <==> forall i :: 0 <= i < |ms| ==> ms[i].apply(x).Success?
    ensures r.Success? ==> |r.value| == |ms| && forall i :: 0 <= i < |ms| ==> r.value[i] == ms[i].apply(x).value
    decreases |ms|
  {
    if ms == [] then Success([])
    else
      var first :- ms[0].apply(x);
      var rest :- ApplyAll(ms[1..], x);
      assert forall i :: 1 <= i < |ms| ==> ms[i] == ms[1..][i - 1];
      Success([first] + rest)
  }

  /** All trees have the structure of the first. */
  predicate SameStructure(ts: seq<Tree>)
    requires |ts| > 0
  {
    forall i :: 0 <= i < |ts| ==> ts[i].Keys == ts[0].Keys
  }

  /** `sum(args)` on one element: the elements added from the left. */
  function ElementSum(xs: seq<Scalar>): (r: Scalar)
    requires |xs| > 0
    ensures r.Num? <==> forall i :: 0 <= i < |xs| ==> xs[i].Num?
    ensures |xs| == 1 ==> r == xs[0]
    decreases |xs|
  {
    if |xs| == 1 then xs[0] else Add(ElementSum(xs[..|xs| - 1]), xs[|xs| - 1])
  }

  /**
   * `jax.tree.map(lambda *args: sum(args), *ts)` on trees of one structure:
   * leaves added from the left, with broadcasting. Python's `sum` starts
   * from 0, and 0 + y is y for every element, so the first leaf is the start.
   */
  function SumTrees(ts: seq<Tree>): (r: Result<Tree>)
    requires |ts| > 0 && SameStructure(ts)
    ensures r.Success? ==> r.value.Keys == ts[0].Keys
    decreases |ts|
  {
    if |ts| == 1 then Success(ts[0])
    else
      var acc :- SumTrees(ts[..|ts| - 1]);
      TreeMap2(Add, acc, ts[|ts| - 1])
  }

  /** The module's members, fixed at construction. */
  datatype ParallelMapping = ParallelMapping(mappings: seq<Mapping>)
  {
    /**
     * The forward pass: all members on the same input, then the leafwise
     * sum; with no members there is nothing to map over, and results of
     * different structures cannot be combined.
     */
    function Apply(inputs: Tree): (r: Result<Tree>)
      ensures r.Success? ==> |mappings| > 0 && forall i :: 0 <= i < |mappings| ==> mappings[i].apply(inputs).Success?
    {
      var results :- ApplyAll(mappings, inputs);
      if |results| == 0 then Failure(EmptySequence)
      else if !SameStructure(results) then Failure(StructureMismatch)
      else SumTrees(results)
    }

    /** `output_shapes`: the first member's contract, whatever the others declare. */
    function OutputShapes(): (r: Result<ShapeTree>)
      ensures r.Success? <==> |mappings| > 0
      ensures r.Success? ==> r.value == mappings[0].outputShapes
    {
      if |mappings| == 0 then Failure(EmptySequence) else Success(mappings[0].outputShapes)
    }
  }

  /** Trees that all meet the contract `S`. */
  predicate AllMeet(ts: seq<Tree>, S: ShapeTree) {
    forall i :: 0 <= i < |ts| ==> ShapeOf(ts[i]) == S
  }

  lemma AllMeetStructure(ts: seq<Tree>, S: ShapeTree)
    requires |ts| > 0 && AllMeet(ts, S)
    ensures SameStructure(ts)
  {
    forall i | 0 <= i < |ts|
      ensures ts[i].Keys == ts[0].Keys
    {
      assert ShapeOf(ts[i]).Keys == ShapeOf(ts[0]).Keys;
    }
  }

  /** Adding two trees of one contract gives a tree of that contract. */
  lemma AddSameShapes(a: Tree, b: Tree, S: ShapeTree)
    requires ShapeOf(a) == S && ShapeOf(b) == S
    ensures TreeMap2(Add, a, b).Success?
    ensures ShapeOf(TreeMap2(Add, a, b).value) == S
  {
    assert a.Keys == ShapeOf(a).Keys == b.Keys;
    forall k | k in a
      ensures Broadcast(Add, a[k], b[k]).Success? && Broadcast(Add, a[k], b[k]).value.shape == a[k].shape
    {
      assert a[k].shape == ShapeOf(a)[k] == ShapeOf(b)[k] == b[k].shape;
    }
  }

  /** Adding two trees of one contract adds them element by element. */
  lemma AddSameShapesAt(a: Tree, b: Tree, S: ShapeTree, k: string, j: nat)
    requires ShapeOf(a) == S && ShapeOf(b) == S && k in S && j < |a[k].data|
    ensures TreeMap2(Add, a, b).Success? && k in TreeMap2(Add, a, b).value
    ensures j < |TreeMap2(Add, a, b).value[k].data|
    ensures TreeMap2(Add, a, b).value[k].data[j] == Add(a[k].data[j], b[k].data[j])
  {
    AddSameShapes(a, b, S);
    assert a[k].shape == ShapeOf(a)[k] == ShapeOf(b)[k] == b[k].shape;
    AlignedSameShape(a[k], b[k], j);
  }

  /** Summing trees that all meet the contract `S` succeeds and meets `S`. */
  lemma {:induction false} SumTreesShapes(ts: seq<Tree>, S: ShapeTree)
    requires |ts| > 0 && AllMeet(ts, S)
    ensures SameStructure(ts)
    ensures SumTrees(ts).Success? && ShapeOf(SumTrees(ts).value) == S
    decreases |ts|
  {
    AllMeetStructure(ts, S);
    if |ts| > 1 {
      var init := ts[..|ts| - 1];
      SumTreesShapes(init, S);
      AddSameShapes(SumTrees(init).value, ts[|ts| - 1], S);
    }
  }

  /** Trees of one contract have leaves of one size under each key. */
  lemma LeafSizes(ts: seq<Tree>, S: ShapeTree, k: string)
    requires |ts| > 0 && AllMeet(ts, S) && k in S
    ensures forall i :: 0 <= i < |ts| ==> k in ts[i] && |ts[i][k].data| == |ts[0][k].data|
  {
    forall i | 0 <= i < |ts|
      ensures k in ts[i] && |ts[i][k].data| == |ts[0][k].data|
    {
      assert ShapeOf(ts[i])[k] == S[k] == ShapeOf(ts[0])[k];
    }
  }

  /** The elements at index `j` of leaf `k` of each tree. */
  function Column(ts: seq<Tree>, k: string, j: nat): (c: seq<Scalar>)
    requires forall i :: 0 <= i < |ts| ==> k in ts[i] && j < |ts[i][k].data|
    ensures |c| == |ts| && forall i :: 0 <= i < |ts| ==> c[i] == ts[i][k].data[j]
  {
    seq(|ts|, i requires 0 <= i < |ts| => ts[i][k].data[j])
  }

  /** Every element of the sum is the sum of the members' elements at that place. */
  lemma {:induction false} SumTreesAt(ts: seq<Tree>, S: ShapeTree, k: string, j: nat)
    requires |ts| > 0 && AllMeet(ts, S) && k in S && j < |ts[0][k].data|
    requires forall i :: 0 <= i < |ts| ==> k in ts[i] && j < |ts[i][k].data|
    ensures SameStructure(ts) && SumTrees(ts).Success?
    ensures k in SumTrees(ts).value && j < |SumTrees(ts).value[k].data|
    ensures SumTrees(ts).value[k].data[j] == ElementSum(Column(ts, k, j))
    decreases |ts|
  {
    SumTreesShapes(ts, S);
    var r := SumTrees(ts).value;
    assert ShapeOf(r)[k] == S[k] == ShapeOf(ts[0])[k];
    if |ts| > 1 {
      var init := ts[..|ts| - 1];
      SumTreesAt(init, S, k, j);
      SumTreesShapes(init, S);
      var acc := SumTrees(init).value;
      assert ShapeOf(ts[|ts| - 1]) == S;
      AddSameShapesAt(acc, ts[|ts| - 1], S, k, j);
      ColumnSum(ts, k, j);
    }
  }

  /** The sum of a column is the sum of its first part plus its last element. */
  lemma ColumnSum(ts: seq<Tree>, k: string, j: nat)
    requires |ts| > 1 && forall i :: 0 <= i < |ts| ==> k in ts[i] && j < |ts[i][k].data|
    ensures ElementSum(Column(ts, k, j)) ==
      Add(ElementSum(Column(ts[..|ts| - 1], k, j)), ts[|ts| - 1][k].data[j])
  {
    assert Column(ts, k, j)[..|ts| - 1] == Column(ts[..|ts| - 1], k, j);
  }

  /** The outputs of the members on one input. */
  function MemberOutputs(p: ParallelMapping, x: Tree): (ts: seq<Tree>)
    requires forall i :: 0 <= i < |p.mappings| ==> p.mappings[i].apply(x).Success?
    ensures |ts| == |p.mappings| && forall i :: 0 <= i < |ts| ==> ts[i] == p.mappings[i].apply(x).value
  {
    ApplyAll(p.mappings, x).value
  }

  /** All members meet the contract from `inS` to `S`. */
  ghost predicate MembersMeet(p: ParallelMapping, inS: ShapeTree, S: ShapeTree) {
    forall i :: 0 <= i < |p.mappings| ==> MeetsContract(p.mappings[i], inS) && p.mappings[i].outputShapes == S
  }

  /**
   * When every member maps inputs of contract `inS` to the contract `S`,
   * the parallel mapping does too, and declares `S`.
   */
  lemma ParallelShapes(p: ParallelMapping, x: Tree, inS: ShapeTree, S: ShapeTree)
    requires |p.mappings| > 0 && ShapeOf(x) == inS && MembersMeet(p, inS, S)
    ensures forall i :: 0 <= i < |p.mappings| ==> p.mappings[i].apply(x).Success?
    ensures AllMeet(MemberOutputs(p, x), S)
    ensures p.Apply(x) == SumTrees(MemberOutputs(p, x))
    ensures p.Apply(x).Success? && ShapeOf(p.Apply(x).value) == S && p.OutputShapes() == Success(S)
  {
    var ms := p.mappings;
    assert forall i :: 0 <= i < |ms| ==> ms[i].apply(x).Success? && ShapeOf(ms[i].apply(x).value) == S;
    var results := ApplyAll(ms, x).value;
    assert results == MemberOutputs(p, x);
    SumTreesShapes(results, S);
  }

  /** Each output element is the sum of the members' elements at that place. */
  lemma ParallelSum(p: ParallelMapping, x: Tree, inS: ShapeTree, S: ShapeTree, k: string, j: nat)
    requires |p.mappings| > 0 && ShapeOf(x) == inS && MembersMeet(p, inS, S)
    requires k in S && j < Prod(S[k])
    ensures p.Apply(x).Success? && forall i :: 0 <= i < |p.mappings| ==> p.mappings[i].apply(x).Success?
    ensures forall i :: 0 <= i < |p.mappings| ==> k in MemberOutputs(p, x)[i] && j < |MemberOutputs(p, x)[i][k].data|
    ensures k in p.Apply(x).value && j < |p.Apply(x).value[k].data|
    ensures p.Apply(x).value[k].data[j] == ElementSum(Column(MemberOutputs(p, x), k, j))
  {
    ParallelShapes(p, x, inS, S);
    var ts := MemberOutputs(p, x);
    LeafSizes(ts, S, k);
    SumTreesAt(ts, S, k, j);
  }

  /** Two members: the output is the leafwise sum of the two members' outputs. */
  lemma TwoMembers(m1: Mapping, m2: Mapping, x: Tree)
    requires m1.apply(x).Success? && m2.apply(x).Success?
    requires m1.apply(x).value.Keys == m2.apply(x).value.Keys
    ensures ParallelMapping([m1, m2]).Apply(x) == TreeMap2(Add, m1.apply(x).value, m2.apply(x).value)
  {
    var a := m1.apply(x).value;
    var b := m2.apply(x).value;
    var results := ApplyAll([m1, m2], x).value;
    assert results == [a, b];
    assert [a, b][..1] == [a];
    assert SumTrees([a]) == Success(a);
    assert SumTrees([a, b]) == TreeMap2(Add, a, b);
  }

  /** Broadcast addition does not depend on the order of its operands. */
  lemma BroadcastAddCommutes(a: Array, b: Array)
    ensures Broadcast(Add, a, b) == Broadcast(Add, b, a)
  {
    if IsSuffix(a.shape, b.shape) && IsSuffix(b.shape, a.shape) {
      assert a.shape == b.shape;
      var r := Broadcast(Add, a, b).value;
      var r' := Broadcast(Add, b, a).value;
      forall j | 0 <= j < |b.data|
        ensures r.data[j] == r'.data[j]
      {
        AlignedSameShape(a, b, j);
        AlignedSameShape(b, a, j);
      }
      assert r.data == r'.data;
    } else if IsSuffix(a.shape, b.shape) {
      var r := Broadcast(Add, a, b).value;
      var r' := Broadcast(Add, b, a).value;
      assert r.data == r'.data;
    } else if IsSuffix(b.shape, a.shape) {
      var r := Broadcast(Add, a, b).value;
      var r' := Broadcast(Add, b, a).value;
      assert r.data == r'.data;
    }
  }

  /** Leafwise addition of two trees does not depend on their order. */
  lemma TreeAddCommutes(a: Tree, b: Tree)
    ensures TreeMap2(Add, a, b) == TreeMap2(Add, b, a)
  {
    if a.Keys == b.Keys {
      forall k | k in a
        ensures Broadcast(Add, a[k], b[k]) == Broadcast(Add, b[k], a[k])
      {
        BroadcastAddCommutes(a[k], b[k]);
      }
      var both := forall k :: k in a ==> Broadcast(Add, a[k], b[k]).Success?;
      assert both == (forall k :: k in b ==> Broadcast(Add, b[k], a[k]).Success?);
      if both {
        var r := TreeMap2(Add, a, b).value;
        var r' := TreeMap2(Add, b, a).value;
        assert r.Keys == r'.Keys;
        assert forall k :: k in r ==> r[k] == r'[k];
        assert r == r';
      } else {
        assert TreeMap2(Add, a, b) == Failure(BroadcastError);
        assert TreeMap2(Add, b, a) == Failure(BroadcastError);
      }
    } else {
      assert TreeMap2(Add, a, b) == Failure(StructureMismatch);
    }
  }

  /** The order of two members does not change the output when both succeed. */
  lemma TwoMembersCommute(m1: Mapping, m2: Mapping, x: Tree)
    requires m1.apply(x).Success? && m2.apply(x).Success?
    ensures ParallelMapping([m1, m2]).Apply(x) == ParallelMapping([m2, m1]).Apply(x)
  {
    var a := m1.apply(x).value;
    var b := m2.apply(x).value;
    if a.Keys == b.Keys {
      TwoMembers(m1, m2, x);
      TwoMembers(m2, m1, x);
      TreeAddCommutes(a, b);
    } else {
      assert ApplyAll([m1, m2], x).value == [a, b];
      assert ApplyAll([m2, m1], x).value == [b, a];
    }
  }
}
