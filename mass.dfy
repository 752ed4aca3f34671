/** Total size ("mass") of a population and the facts about it that the
    conservation proofs use. */
module Mass {

  /** Sum of the first n sizes. */
  function SumTo(s: seq<real>, n: nat): real
    requires n <= |s|
  {
    if n == 0 then 0.0 else SumTo(s, n - 1) + s[n - 1]
  }

  /** Sum of all the sizes. */
  function Sum(s: seq<real>): real
  {
    SumTo(s, |s|)
  }

  /** Every size is strictly positive. */
  predicate AllPositive(s: seq<real>)
  {
    forall k :: 0 <= k < |s| ==> s[k] > 0.0
  }

  /** No size is zero, so growthRate is defined on every element. */
  predicate NoZero(s: seq<real>)
  {
    forall k :: 0 <= k < |s| ==> s[k] != 0.0
  }

  /** Sums of the first n elements agree when those elements do. */
  lemma {:induction false} SumToAgree(s: seq<real>, t: seq<real>, n: nat)
    requires n <= |s| && n <= |t|
    requires forall i :: 0 <= i < n ==> s[i] == t[i]
    ensures SumTo(s, n) == SumTo(t, n)
  {
    if n > 0 {
      SumToAgree(s, t, n - 1);
    }
  }

  lemma {:induction false} SumToConcat(a: seq<real>, b: seq<real>, n: nat)
    requires n <= |b|
    ensures SumTo(a + b, |a| + n) == Sum(a) + SumTo(b, n)
  {
    if n == 0 {
      SumToAgree(a + b, a, |a|);
    } else {
      SumToConcat(a, b, n - 1);
      assert (a + b)[|a| + n - 1] == b[n - 1];
    }
  }

  lemma SumConcat(a: seq<real>, b: seq<real>)
    ensures Sum(a + b) == Sum(a) + Sum(b)
  {
    SumToConcat(a, b, |b|);
  }

  lemma {:induction false} SumToUpdate(s: seq<real>, i: nat, v: real, n: nat)
    requires i < |s| && n <= |s|
    ensures SumTo(s[i := v], n) == if n <= i then SumTo(s, n) else SumTo(s, n) - s[i] + v
  {
    if n > 0 {
      SumToUpdate(s, i, v, n - 1);
    }
  }

  /** Replacing one element changes the sum by the difference. */
  lemma SumUpdate(s: seq<real>, i: nat, v: real)
    requires i < |s|
    ensures Sum(s[i := v]) == Sum(s) - s[i] + v
  {
    SumToUpdate(s, i, v, |s|);
  }

  lemma {:induction false} SumToDrop(s: seq<real>, k: nat, n: nat)
    requires k + n <= |s|
    ensures SumTo(s[k..], n) == SumTo(s, k + n) - SumTo(s, k)
  {
    if n > 0 {
      SumToDrop(s, k, n - 1);
      assert s[k..][n - 1] == s[k + n - 1];
    }
  }

  /** Appending one element adds it to the sum. */
  lemma SumAppend(a: seq<real>, x: real)
    ensures Sum(a + [x]) == Sum(a) + x
  {
    SumToAgree(a + [x], a, |a|);
  }

  /** The sum of the first n elements extends the sum of the first n - 1. */
  lemma SumPrefix(s: seq<real>, n: nat)
    requires 0 < n <= |s|
    ensures Sum(s[..n]) == Sum(s[..n - 1]) + s[n - 1]
  {
    SumToAgree(s[..n], s, n);
    SumToAgree(s[..n - 1], s, n - 1);
  }

  /** Removing the element at index j takes exactly s[j] off the sum. */
  lemma SumRemove(s: seq<real>, j: nat)
    requires j < |s|
    ensures Sum(s[..j] + s[j + 1..]) == Sum(s) - s[j]
  {
    SumConcat(s[..j], s[j + 1..]);
    SumToAgree(s[..j], s, j);
    SumToDrop(s, j + 1, |s| - (j + 1));
  }

  /** Adding element j into element i and then removing element j leaves
      the sum unchanged. */
  lemma SumMerge(s: seq<real>, i: nat, j: nat)
    requires i < j < |s|
    ensures Sum(s[i := s[i] + s[j]][..j] + s[i := s[i] + s[j]][j + 1..]) == Sum(s)
  {
    var q := s[i := s[i] + s[j]];
    SumUpdate(s, i, s[i] + s[j]);
    SumRemove(q, j);
  }

  /** A concatenation is positive exactly when both parts are. */
  lemma AllPositiveConcat(a: seq<real>, b: seq<real>)
    ensures AllPositive(a + b) <==> AllPositive(a) && AllPositive(b)
  {
    if AllPositive(a + b) {
      forall k | 0 <= k < |a|
        ensures a[k] > 0.0
      {
        assert (a + b)[k] == a[k];
      }
      forall k | 0 <= k < |b|
        ensures b[k] > 0.0
      {
        assert (a + b)[|a| + k] == b[k];
      }
    }
  }

  lemma SumOne(x: real)
    ensures Sum([x]) == x
  {
    assert SumTo([x], 1) == SumTo([x], 0) + x;
  }

  lemma SumTwo(x: real, y: real)
    ensures Sum([x, y]) == x + y
  {
    assert SumTo([x, y], 1) == SumTo([x, y], 0) + x;
  }
}
