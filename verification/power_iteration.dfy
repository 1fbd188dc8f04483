/**
 * The power iteration of PageRank: each round multiplies the rank row vector
 * by the Google matrix, reading G[j] as the weights flowing into vertex j,
 * and rescales the product so that its entries add up to one.
 */
module PowerIteration {
  import opened Wrappers
  import opened Sums
  import opened GoogleMatrix

  /** The L1 sum of a product was zero, so the rescaling would divide by zero. */
  datatype RankError = ZeroMass

  /** Contribution of every source i to one row: pi[i] * G[j][i] for the keys, zero elsewhere. */
  function Terms(row: map<nat, real>, pi: seq<real>): (t: seq<real>)
    ensures |t| == |pi|
    ensures forall i :: 0 <= i < |pi| ==> t[i] == (if i in row then pi[i] * row[i] else 0.0)
  {
    seq(|pi|, i requires 0 <= i < |pi| => if i in row then pi[i] * row[i] else 0.0)
  }

  /** The rank flowing into one vertex: the sum of its row's contributions. */
  function Inflow(row: map<nat, real>, pi: seq<real>): real {
    Sum(Terms(row, pi))
  }

  /** One vector-matrix product: next_pi[j] is the inflow into j. */
  function Multiply(g: Graph, pi: seq<real>): (r: seq<real>)
    ensures |r| == |g|
  {
    seq(|g|, j requires 0 <= j < |g| => Inflow(g[j], pi))
  }

  /**
   * Divide every entry by the L1 sum; a zero sum is an error instead of a
   * division by zero, except for the empty vector, where nothing is divided.
   */
  function Normalise(v: seq<real>): (r: Result<seq<real>, RankError>)
    ensures r.Failure? <==> |v| > 0 && Sum(v) == 0.0
    ensures r.Success? ==> |r.value| == |v|
    ensures r.Success? && |v| > 0 ==> Sum(r.value) == 1.0
    ensures r.Success? ==> forall i :: 0 <= i < |v| ==> Sum(v) * r.value[i] == v[i]
    ensures r.Success? && NonNegative(v) ==> NonNegative(r.value)
  {
    var total := Sum(v);
    if |v| == 0 then
      Success(v)
    else if total == 0.0 then
      Failure(ZeroMass)
    else
      var w := seq(|v|, i requires 0 <= i < |v| => v[i] / total);
      SumOfQuotients(v, w, total);
      assert total / total == 1.0;
      assert forall i :: 0 <= i < |v| ==> total * w[i] == v[i] by {
        forall i | 0 <= i < |v| {
          QuotientTimesDivisor(v[i], total);
        }
      }
      assert NonNegative(v) ==> total > 0.0 && NonNegative(w) by {
        if NonNegative(v) {
          SumNonNegative(v);
          forall i | 0 <= i < |v|
            ensures w[i] >= 0.0
          {
            QuotientNonNegative(v[i], total);
          }
        }
      }
      Success(w)
  }

  lemma QuotientTimesDivisor(a: real, d: real)
    requires d != 0.0
    ensures d * (a / d) == a
  {
  }

  lemma QuotientNonNegative(a: real, d: real)
    requires a >= 0.0 && d > 0.0
    ensures a / d >= 0.0
  {
  }

  /** One iteration of the outer loop. */
  function Round(g: Graph, pi: seq<real>): (r: Result<seq<real>, RankError>)
    ensures r.Success? ==> |r.value| == |g|
    ensures r.Success? && |g| > 0 ==> Sum(r.value) == 1.0
  {
    Normalise(Multiply(g, pi))
  }

  /**
   * The whole procedure: `iterations` rounds, none when it is zero or negative.
   * A round whose product sums to zero ends the run with ZeroMass.
   */
  function PageRank(g: Graph, pi: seq<real>, iterations: int): (r: Result<seq<real>, RankError>)
    decreases iterations
    ensures iterations <= 0 ==> r == Success(pi)
    ensures r.Success? && iterations > 0 ==> |r.value| == |g|
    ensures r.Success? && iterations > 0 && |g| > 0 ==> Sum(r.value) == 1.0
  {
    if iterations <= 0 then
      Success(pi)
    else
      var next :- Round(g, pi);
      PageRank(g, next, iterations - 1)
  }

  /** Entries of a product with non-negative weights and ranks are non-negative. */
  lemma MultiplyNonNegative(g: Graph, pi: seq<real>)
    requires NonNegative(pi)
    requires forall d, s: nat :: 0 <= d < |g| && s in g[d] ==> g[d][s] > 0.0
    ensures NonNegative(Multiply(g, pi))
  {
    forall j | 0 <= j < |g|
      ensures Inflow(g[j], pi) >= 0.0
    {
      SumNonNegative(Terms(g[j], pi));
    }
  }

  /** A vertex that feeds a positive weight from a positive-rank source has positive inflow. */
  lemma InflowPositive(g: Graph, pi: seq<real>, j: nat, i: nat)
    requires NonNegative(pi) && j < |g| && i < |pi| && i in g[j]
    requires pi[i] > 0.0 && g[j][i] > 0.0
    requires forall d, s: nat :: 0 <= d < |g| && s in g[d] ==> g[d][s] > 0.0
    ensures Multiply(g, pi)[j] > 0.0
  {
    var t := Terms(g[j], pi);
    assert t[i] == pi[i] * g[j][i];
    SumAtLeastTerm(t, i);
  }

  /** On a well-formed graph a round maps a distribution to a distribution. */
  lemma RoundKeepsDistribution(g: Graph, pi: seq<real>)
    requires WellFormed(g) && |pi| == |g| && IsDistribution(pi)
    ensures Round(g, pi).Success? && IsDistribution(Round(g, pi).value)
  {
    var v := Multiply(g, pi);
    MultiplyNonNegative(g, pi);
    var i := PositiveEntry(pi);
    assert Feeds(g, i);
    var j :| 0 <= j < |g| && i in g[j];
    InflowPositive(g, pi, j, i);
    SumAtLeastTerm(v, j);
  }

  /** Every round keeps a distribution a distribution, so the procedure never fails. */
  lemma {:induction false} PageRankIsDistribution(g: Graph, pi: seq<real>, iterations: int)
    requires WellFormed(g) && |pi| == |g| && IsDistribution(pi)
    ensures PageRank(g, pi, iterations).Success?
    ensures IsDistribution(PageRank(g, pi, iterations).value)
    decreases iterations
  {
    if iterations > 0 {
      RoundKeepsDistribution(g, pi);
      PageRankIsDistribution(g, Round(g, pi).value, iterations - 1);
    }
  }

  /** Running a + b rounds is running a rounds and then b more. */
  lemma {:induction false} PageRankSplits(g: Graph, pi: seq<real>, a: nat, b: nat)
    ensures PageRank(g, pi, a + b) ==
      (match PageRank(g, pi, a)
       case Success(mid) => PageRank(g, mid, b)
       case Failure(e) => Failure(e))
    decreases a
  {
    if a > 0 {
      match Round(g, pi)
      case Success(next) =>
        assert a + b - 1 == (a - 1) + b;
        PageRankSplits(g, next, a - 1, b);
      case Failure(_) =>
    }
  }

  /** A vector a round maps to itself is returned unchanged by any number of rounds. */
  lemma {:induction false} FixedPointStays(g: Graph, pi: seq<real>, iterations: int)
    requires Round(g, pi) == Success(pi)
    ensures PageRank(g, pi, iterations) == Success(pi)
    decreases iterations
  {
    if iterations > 0 {
      FixedPointStays(g, pi, iterations - 1);
    }
  }

  /** Rescaling a vector that already sums to one changes nothing. */
  lemma NormaliseIdempotent(v: seq<real>)
    requires Normalise(v).Success?
    ensures Normalise(Normalise(v).value) == Normalise(v)
  {
    var w := Normalise(v).value;
    var u := Normalise(w).value;
    forall i | 0 <= i < |w|
      ensures u[i] == w[i]
    {
      assert 1.0 * u[i] == w[i];
    }
    assert u == w;
  }

  /** The starting vector of the program: 1/n everywhere. */
  function Uniform(n: nat): (pi: seq<real>)
    requires n > 0
    ensures |pi| == n && IsDistribution(pi)
  {
    var pi := seq(n, i requires 0 <= i < n => 1.0 / n as real);
    InversePositive(n);
    SumOfUniform(pi);
    pi
  }

  /** A graph whose rows are all empty sends no rank anywhere: the first round fails. */
  lemma EmptyRowsLoseMass(n: nat, iterations: int)
    requires n > 0 && iterations > 0
    ensures PageRank(seq(n, _ => map[]), Uniform(n), iterations) == Failure(ZeroMass)
  {
    var g: Graph := seq(n, _ => map[]);
    var v := Multiply(g, Uniform(n));
    forall j | 0 <= j < n
      ensures v[j] == 0.0
    {
      SumOfZeros(Terms(g[j], Uniform(n)));
    }
    SumOfZeros(v);
  }

  /** The contributions of every source to every row, one row per vertex. */
  function TermArray(g: Graph, pi: seq<real>): (a: seq<seq<real>>)
    ensures |a| == |g| && Rectangular(a, |pi|)
    ensures forall j :: 0 <= j < |g| ==> a[j] == Terms(g[j], pi)
  {
    seq(|g|, j requires 0 <= j < |g| => Terms(g[j], pi))
  }

  /** What source i contributes over all rows is its rank times its column sum. */
  lemma SourceContribution(g: Graph, pi: seq<real>, i: nat)
    requires i < |pi| && Sum(Column(g, i)) == 1.0
    ensures Sum(ColumnOf(TermArray(g, pi), |pi|, i)) == pi[i]
  {
    var col := ColumnOf(TermArray(g, pi), |pi|, i);
    var c := Column(g, i);
    forall j | 0 <= j < |g|
      ensures col[j] == pi[i] * c[j]
    {
    }
    SumOfProducts(c, col, pi[i]);
  }

  /**
   * A product with a column-stochastic matrix keeps the total rank: summing
   * next_pi row by row equals summing each source's rank times its column.
   */
  lemma MultiplyPreservesMass(g: Graph, pi: seq<real>)
    requires |pi| == |g| && ColumnStochastic(g)
    ensures Sum(Multiply(g, pi)) == Sum(pi)
  {
    var n := |pi|;
    var a := TermArray(g, pi);
    assert RowSums(a) == Multiply(g, pi);
    SumExchange(a, n);
    forall i | 0 <= i < n
      ensures ColumnSums(a, n)[i] == pi[i]
    {
      SourceContribution(g, pi, i);
    }
    assert ColumnSums(a, n) == pi;
  }

  /** On a column-stochastic matrix the rescaling of a distribution's product is the identity. */
  lemma StochasticRoundIsProduct(g: Graph, pi: seq<real>)
    requires |pi| == |g| && ColumnStochastic(g) && Sum(pi) == 1.0
    ensures Round(g, pi) == Success(Multiply(g, pi))
  {
    var v := Multiply(g, pi);
    MultiplyPreservesMass(g, pi);
    var w := Normalise(v).value;
    forall i | 0 <= i < |v|
      ensures w[i] == v[i]
    {
      assert 1.0 * w[i] == v[i];
    }
    assert w == v;
  }
}
