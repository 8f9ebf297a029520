/**
 * Python's ordering of strings (code point by code point, a proper prefix
 * first) and the key order it induces on a dictionary: the order in which
 * a dict's leaves are flattened.
 */
module StringOrder {

  /** `a < b` on Python strings. */
  predicate Less(a: string, b: string)
    decreases |a|
  {
    |b| > 0 && (|a| == 0 || a[0] < b[0] || (a[0] == b[0] && Less(a[1..], b[1..])))
  }

  lemma {:induction false} LessIrreflexive(a: string)
    ensures !Less(a, a)
    decreases |a|
  {
    if |a| > 0 {
      LessIrreflexive(a[1..]);
    }
  }

  lemma {:induction false} LessTransitive(a: string, b: string, c: string)
    requires Less(a, b) && Less(b, c)
    ensures Less(a, c)
    decreases |a|
  {
    if |a| > 0 && a[0] == b[0] && b[0] == c[0] {
      LessTransitive(a[1..], b[1..], c[1..]);
    }
  }

  lemma {:induction false} LessTrichotomous(a: string, b: string)
    ensures a == b || Less(a, b) || Less(b, a)
    decreases |a|
  {
    if |a| > 0 && |b| > 0 && a[0] == b[0] {
      LessTrichotomous(a[1..], b[1..]);
      if a[1..] == b[1..] {
        assert a == [a[0]] + a[1..] && b == [b[0]] + b[1..];
      }
    }
  }

  lemma {:induction false} LessAsymmetric(a: string, b: string)
    requires Less(a, b)
    ensures !Less(b, a)
  {
    if Less(b, a) {
      LessTransitive(a, b, a);
      LessIrreflexive(a);
    }
  }

  /** `m` is the least element of `s`. */
  predicate IsLeast(m: string, s: set<string>) {
    m in s && forall k :: k in s ==> m == k || Less(m, k)
  }

  lemma {:induction false} LeastExists(s: set<string>)
    requires s != {}
    ensures exists m :: IsLeast(m, s)
    decreases |s|
  {
    var x :| x in s;
    if s == {x} {
      assert IsLeast(x, s);
    } else {
      LeastExists(s - {x});
      var m :| IsLeast(m, s - {x});
      LessTrichotomous(m, x);
      if Less(m, x) {
        assert IsLeast(m, s);
      } else {
        forall k | k in s
          ensures x == k || Less(x, k)
        {
          if k != x {
            assert m == k || Less(m, k);
            if m != k {
              LessTransitive(x, m, k);
            }
          }
        }
        assert IsLeast(x, s);
      }
    }
  }

  lemma LeastUnique(s: set<string>)
    ensures forall m, m' :: IsLeast(m, s) && IsLeast(m', s) ==> m == m'
  {
    forall m, m' | IsLeast(m, s) && IsLeast(m', s)
      ensures m == m'
    {
      if m != m' {
        LessAsymmetric(m, m');
      }
    }
  }

  /**
   * The elements of `s` in increasing order: the order of `jax.tree.leaves`
   * on a dict. The contract is kept small; completeness, distinctness and
   * order are the lemmas below.
   */
  function SortedKeys(s: set<string>): (r: seq<string>)
    ensures |r| == |s|
    ensures forall i :: 0 <= i < |r| ==> r[i] in s
    decreases |s|
  {
    if s == {} then []
    else
      LeastExists(s);
      LeastUnique(s);
      var m :| IsLeast(m, s);
      [m] + SortedKeys(s - {m})
  }

  /** The first key is the least one, and the rest are the sorted keys of the others. */
  lemma SortedKeysUnfold(s: set<string>) returns (m: string)
    requires s != {}
    ensures IsLeast(m, s) && SortedKeys(s) == [m] + SortedKeys(s - {m})
  {
    LeastExists(s);
    LeastUnique(s);
    m :| IsLeast(m, s);
  }

  /** Every element of the set has a position in the key order. */
  lemma {:induction false} SortedKeysComplete(s: set<string>, k: string) returns (i: nat)
    requires k in s
    ensures i < |SortedKeys(s)| && SortedKeys(s)[i] == k
    decreases |s|
  {
    var m := SortedKeysUnfold(s);
    if k == m {
      i := 0;
    } else {
      var i' := SortedKeysComplete(s - {m}, k);
      i := i' + 1;
    }
  }

  /** The key order is strictly increasing. */
  lemma {:induction false} SortedKeysIncreasing(s: set<string>, i: nat, j: nat)
    requires i < j < |SortedKeys(s)|
    ensures Less(SortedKeys(s)[i], SortedKeys(s)[j])
    decreases |s|
  {
    var m := SortedKeysUnfold(s);
    var rest := SortedKeys(s - {m});
    if i == 0 {
      assert rest[j - 1] in s - {m};
    } else {
      SortedKeysIncreasing(s - {m}, i - 1, j - 1);
    }
  }

  /** Sorted keys are pairwise distinct, so a key names one position. */
  lemma SortedKeysDistinct(s: set<string>, i: nat, j: nat)
    requires i < j < |SortedKeys(s)|
    ensures SortedKeys(s)[i] != SortedKeys(s)[j]
  {
    SortedKeysIncreasing(s, i, j);
    LessIrreflexive(SortedKeys(s)[i]);
  }
}
