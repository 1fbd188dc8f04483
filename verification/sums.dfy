/** Finite sums of real vectors, the arithmetic behind column sums and L1 normalisation. */
module Sums {

  /** Sum of the entries of s, added front to back. */
  function Sum(s: seq<real>): real
    decreases |s|
  {
    if |s| == 0 then 0.0 else s[0] + Sum(s[1..])
  }

  predicate NonNegative(s: seq<real>) {
    forall i :: 0 <= i < |s| ==> s[i] >= 0.0
  }

  /** A probability vector: non-negative entries summing to one. */
  predicate IsDistribution(s: seq<real>) {
    NonNegative(s) && Sum(s) == 1.0
  }

  lemma {:induction false} SumNonNegative(s: seq<real>)
    requires NonNegative(s)
    ensures Sum(s) >= 0.0
    decreases |s|
  {
    if |s| > 0 {
      SumNonNegative(s[1..]);
    }
  }

  /** A sum of non-negative terms is at least each of its terms. */
  lemma {:induction false} SumAtLeastTerm(s: seq<real>, k: nat)
    requires NonNegative(s) && k < |s|
    ensures Sum(s) >= s[k]
    decreases |s|
  {
    if k == 0 {
      SumNonNegative(s[1..]);
    } else {
      SumAtLeastTerm(s[1..], k - 1);
    }
  }

  lemma {:induction false} SumOfZeros(s: seq<real>)
    requires forall i :: 0 <= i < |s| ==> s[i] == 0.0
    ensures Sum(s) == 0.0
    decreases |s|
  {
    if |s| > 0 {
      SumOfZeros(s[1..]);
    }
  }

  /** A non-negative vector with a positive sum has a positive entry. */
  lemma PositiveEntry(s: seq<real>) returns (k: nat)
    requires NonNegative(s) && Sum(s) > 0.0
    ensures k < |s| && s[k] > 0.0
  {
    if forall i :: 0 <= i < |s| ==> s[i] == 0.0 {
      SumOfZeros(s);
      assert false;
    }
    k :| k < |s| && s[k] != 0.0;
  }

  /** Sums distribute over pointwise addition. */
  lemma {:induction false} SumOfPointwiseSum(a: seq<real>, b: seq<real>, c: seq<real>)
    requires |a| == |b| == |c|
    requires forall i :: 0 <= i < |c| ==> c[i] == a[i] + b[i]
    ensures Sum(c) == Sum(a) + Sum(b)
    decreases |c|
  {
    if |c| > 0 {
      SumOfPointwiseSum(a[1..], b[1..], c[1..]);
    }
  }

  /** Dividing every entry by d divides the sum by d. */
  lemma {:induction false} SumOfQuotients(a: seq<real>, b: seq<real>, d: real)
    requires d != 0.0 && |a| == |b|
    requires forall i :: 0 <= i < |b| ==> b[i] == a[i] / d
    ensures Sum(b) == Sum(a) / d
    decreases |b|
  {
    if |b| > 0 {
      SumOfQuotients(a[1..], b[1..], d);
      assert a[0] / d + Sum(a[1..]) / d == (a[0] + Sum(a[1..])) / d;
    }
  }

  /** Multiplying every entry by c multiplies the sum by c. */
  lemma {:induction false} SumOfProducts(a: seq<real>, b: seq<real>, c: real)
    requires |a| == |b|
    requires forall i :: 0 <= i < |b| ==> b[i] == c * a[i]
    ensures Sum(b) == c * Sum(a)
    decreases |b|
  {
    if |b| > 0 {
      SumOfProducts(a[1..], b[1..], c);
    }
  }

  /** A constant vector sums to its length times the constant. */
  lemma {:induction false} SumOfConstant(s: seq<real>, c: real)
    requires forall i :: 0 <= i < |s| ==> s[i] == c
    ensures Sum(s) == |s| as real * c
    decreases |s|
  {
    if |s| > 0 {
      SumOfConstant(s[1..], c);
    }
  }

  /** A vector that is one at position p and zero elsewhere sums to one. */
  lemma {:induction false} SumOfUnit(s: seq<real>, p: nat)
    requires p < |s| && s[p] == 1.0
    requires forall i :: 0 <= i < |s| && i != p ==> s[i] == 0.0
    ensures Sum(s) == 1.0
    decreases |s|
  {
    if p == 0 {
      SumOfZeros(s[1..]);
    } else {
      SumOfUnit(s[1..], p - 1);
    }
  }

  /**
   * A vector that is v where the indicator t is one and zero where it is zero
   * sums to v times the number of ones.
   */
  lemma {:induction false} SumOfIndicated(t: seq<real>, c: seq<real>, v: real)
    requires |t| == |c|
    requires forall i :: 0 <= i < |c| ==> (t[i] == 1.0 && c[i] == v) || (t[i] == 0.0 && c[i] == 0.0)
    ensures Sum(c) == v * Sum(t)
    decreases |c|
  {
    if |c| > 0 {
      SumOfIndicated(t[1..], c[1..], v);
    }
  }

  /** n copies of 1/n sum to one. */
  lemma SumOfUniform(s: seq<real>)
    requires |s| > 0
    requires forall i :: 0 <= i < |s| ==> s[i] == 1.0 / |s| as real
    ensures Sum(s) == 1.0
  {
    SumOfConstant(s, 1.0 / |s| as real);
  }

  /** The indicator case with v = 1/x: the sum is the number of ones divided by x. */
  lemma {:induction false} SumOfIndicatedShare(t: seq<real>, c: seq<real>, x: real)
    requires x > 0.0 && |t| == |c|
    requires forall i :: 0 <= i < |c| ==> (t[i] == 1.0 && c[i] == 1.0 / x) || (t[i] == 0.0 && c[i] == 0.0)
    ensures Sum(c) == Sum(t) / x
    decreases |c|
  {
    if |c| > 0 {
      SumOfIndicatedShare(t[1..], c[1..], x);
      QuotientStep(c[0], t[0], Sum(c[1..]), Sum(t[1..]), x);
    }
  }

  lemma QuotientStep(c0: real, t0: real, cs: real, ts: real, x: real)
    requires x > 0.0 && c0 == t0 / x && cs == ts / x
    ensures c0 + cs == (t0 + ts) / x
  {
  }

  /** Every row of a has length n. */
  predicate Rectangular(a: seq<seq<real>>, n: nat) {
    forall j :: 0 <= j < |a| ==> |a[j]| == n
  }

  /** Entry i of every row of a. */
  function ColumnOf(a: seq<seq<real>>, n: nat, i: nat): (c: seq<real>)
    requires Rectangular(a, n) && i < n
    ensures |c| == |a| && forall j :: 0 <= j < |a| ==> c[j] == a[j][i]
  {
    seq(|a|, j requires 0 <= j < |a| => a[j][i])
  }

  function RowSums(a: seq<seq<real>>): (r: seq<real>)
    ensures |r| == |a| && forall j :: 0 <= j < |a| ==> r[j] == Sum(a[j])
  {
    seq(|a|, j requires 0 <= j < |a| => Sum(a[j]))
  }

  function ColumnSums(a: seq<seq<real>>, n: nat): (r: seq<real>)
    requires Rectangular(a, n)
    ensures |r| == n && forall i :: 0 <= i < n ==> r[i] == Sum(ColumnOf(a, n, i))
  {
    seq(n, i requires 0 <= i < n => Sum(ColumnOf(a, n, i)))
  }

  /** Adding up a rectangular array row by row or column by column gives the same total. */
  lemma {:induction false} SumExchange(a: seq<seq<real>>, n: nat)
    requires Rectangular(a, n)
    ensures Sum(RowSums(a)) == Sum(ColumnSums(a, n))
    decreases |a|
  {
    if |a| == 0 {
      SumOfZeros(ColumnSums(a, n));
    } else {
      var rest := a[1..];
      SumExchange(rest, n);
      assert RowSums(a)[1..] == RowSums(rest);
      forall i | 0 <= i < n
        ensures ColumnSums(a, n)[i] == a[0][i] + ColumnSums(rest, n)[i]
      {
        assert ColumnOf(a, n, i)[1..] == ColumnOf(rest, n, i);
      }
      SumOfPointwiseSum(a[0], ColumnSums(rest, n), ColumnSums(a, n));
    }
  }
}
