/**
 * The construction of the transposed Google matrix in build_google_graph:
 * G[dest] maps every source with weight into dest to that weight.
 * The four passes are modelled one function each, over real weights.
 */
module GoogleMatrix {
  import opened Sums

  /** G[dest][src] is the probability mass that flows from src into dest. */
  type Graph = seq<map<nat, real>>

  /** A link from src to dest. */
  datatype Edge = Edge(src: nat, dest: nat)

  /** The value pass 1 stores until the outdegrees are known. */
  const Placeholder: real := -1.0

  /** Every endpoint is a vertex index; the source indexes G and the outdegree vector without checking. */
  predicate InRange(n: nat, edges: seq<Edge>) {
    forall i :: 0 <= i < |edges| ==> edges[i].src < n && edges[i].dest < n
  }

  /** No element occurs twice in the sequence; for an edge list, no edge is listed twice. */
  predicate NoDuplicates<T(==)>(s: seq<T>) {
    forall i, j :: 0 <= i < j < |s| ==> s[i] != s[j]
  }

  /** Number of edges whose source is src; a repeated edge is counted each time. */
  function OutDegree(edges: seq<Edge>, src: nat): nat
    decreases |edges|
  {
    if |edges| == 0 then 0
    else (if edges[0].src == src then 1 else 0) + OutDegree(edges[1..], src)
  }

  /** The teleport weight (1-alpha)*(1/n) every present entry receives. */
  function Jump(n: nat, alpha: real): real
    requires n > 0
  {
    (1.0 - alpha) * (1.0 / n as real)
  }

  /** The primitivity adjustment of one present weight v. */
  function Blend(v: real, n: nat, alpha: real): real
    requires n > 0
  {
    alpha * v + Jump(n, alpha)
  }

  /** State of pass 1: the graph of placeholders and the outdegree counters. */
  datatype Drained = Drained(graph: Graph, outlinks: seq<nat>)

  /** Pass 1 loop: pops edges from the front, marks G[dest][src] and counts outlinks[src]. */
  function Drain(edges: seq<Edge>, acc: Drained): (r: Drained)
    requires |acc.graph| == |acc.outlinks| && InRange(|acc.graph|, edges)
    ensures |r.graph| == |acc.graph| && |r.outlinks| == |acc.outlinks|
    ensures forall s: nat :: 0 <= s < |r.outlinks| ==> r.outlinks[s] == acc.outlinks[s] + OutDegree(edges, s)
    ensures forall d, s: nat :: 0 <= d < |r.graph| ==> (s in r.graph[d] <==> s in acc.graph[d] || Edge(s, d) in edges)
    ensures forall d, s: nat :: 0 <= d < |r.graph| && s in r.graph[d] ==>
      r.graph[d][s] == (if Edge(s, d) in edges then Placeholder else acc.graph[d][s])
    decreases |edges|
  {
    if |edges| == 0 then acc
    else
      var e := edges[0];
      var column: map<nat, real> := acc.graph[e.dest][e.src := Placeholder];
      var g := acc.graph[e.dest := column];
      var out := acc.outlinks[e.src := acc.outlinks[e.src] + 1];
      assert forall s: nat, d: nat :: Edge(s, d) in edges <==> Edge(s, d) == e || Edge(s, d) in edges[1..] by {
        assert edges == [e] + edges[1..];
      }
      Drain(edges[1..], Drained(g, out))
  }

  /** Pass 1 from an empty graph and zero counters. */
  function DrainEdges(n: nat, edges: seq<Edge>): (r: Drained)
    requires InRange(n, edges)
    ensures |r.graph| == n && |r.outlinks| == n
    ensures forall s: nat :: 0 <= s < n ==> r.outlinks[s] == OutDegree(edges, s)
    ensures forall d, s: nat :: 0 <= d < n ==> (s in r.graph[d] <==> Edge(s, d) in edges)
    ensures forall d, s: nat :: 0 <= d < n && s in r.graph[d] ==> r.graph[d][s] == Placeholder
  {
    Drain(edges, Drained(seq(n, _ => map[]), seq(n, _ => 0)))
  }

  /** Every linked source has a positive outdegree. */
  lemma {:induction false} LinkedSourceCounted(edges: seq<Edge>, s: nat, d: nat)
    requires Edge(s, d) in edges
    ensures OutDegree(edges, s) > 0
    decreases |edges|
  {
    if edges[0] != Edge(s, d) {
      LinkedSourceCounted(edges[1..], s, d);
    }
  }

  /** A source with a positive outdegree links to some vertex. */
  lemma {:induction false} CountedSourceLinked(edges: seq<Edge>, s: nat) returns (d: nat)
    requires OutDegree(edges, s) > 0
    ensures Edge(s, d) in edges
    decreases |edges|
  {
    if edges[0].src == s {
      d := edges[0].dest;
    } else {
      d := CountedSourceLinked(edges[1..], s);
    }
  }

  /** Every source keyed in row has a counted outdegree. */
  predicate RowCounted(row: map<nat, real>, outlinks: seq<nat>) {
    forall s: nat :: s in row ==> s < |outlinks| && outlinks[s] > 0
  }

  /** Every source keyed in some G[dest] has a counted outdegree. */
  predicate Counted(g: Graph, outlinks: seq<nat>) {
    forall d :: 0 <= d < |g| ==> RowCounted(g[d], outlinks)
  }

  /** Pass 2 on one G[dest]: every present entry becomes 1/outlinks[src]. */
  function LinkRow(row: map<nat, real>, outlinks: seq<nat>): (r: map<nat, real>)
    requires RowCounted(row, outlinks)
    ensures r.Keys == row.Keys
    ensures forall s: nat :: s in r ==> r[s] == 1.0 / outlinks[s] as real
  {
    map s | s in row :: 1.0 / outlinks[s] as real
  }

  /** Pass 2: the link pass keeps every key set and never divides by zero. */
  function LinkPass(g: Graph, outlinks: seq<nat>): (h: Graph)
    requires Counted(g, outlinks)
    ensures |h| == |g|
    ensures forall d :: 0 <= d < |g| ==> h[d].Keys == g[d].Keys
    ensures forall d, s: nat :: 0 <= d < |g| && s in h[d] ==> h[d][s] == 1.0 / outlinks[s] as real
  {
    seq(|g|, d requires 0 <= d < |g| => LinkRow(g[d], outlinks))
  }

  /** The sources in [src, n) that have no outlinks. */
  function DanglingFrom(outlinks: seq<nat>, src: nat): set<nat> {
    set s | src <= s < |outlinks| && outlinks[s] == 0
  }

  /** The inner loop of pass 3: G[dest][src] := v for every dest. */
  function SetColumn(g: Graph, src: nat, v: real): (r: Graph)
    ensures |r| == |g|
  {
    seq(|g|, d requires 0 <= d < |g| => g[d][src := v])
  }

  /** Every row gains src as a key with value v; every other entry keeps its key and value. */
  lemma SetColumnWrites(g: Graph, src: nat, v: real)
    ensures forall d :: 0 <= d < |g| ==> SetColumn(g, src, v)[d].Keys == g[d].Keys + {src}
    ensures forall d :: 0 <= d < |g| ==> SetColumn(g, src, v)[d][src] == v
    ensures forall d, s: nat :: 0 <= d < |g| && s in g[d] && s != src ==> SetColumn(g, src, v)[d][s] == g[d][s]
  {
  }

  /**
   * Pass 3 loop, from source index src upwards: a source with no outlinks gets
   * the entry 1/n in every G[dest]; other entries keep their value.
   */
  function FillDangling(g: Graph, outlinks: seq<nat>, src: nat): (r: Graph)
    requires |g| == |outlinks| && src <= |g|
    ensures |r| == |g|
    ensures forall d :: 0 <= d < |g| ==> r[d].Keys == g[d].Keys + DanglingFrom(outlinks, src)
    ensures forall d, s: nat :: 0 <= d < |g| && s in r[d] ==>
      r[d][s] == (if s in DanglingFrom(outlinks, src) then 1.0 / |g| as real else g[d][s])
    decreases |g| - src
  {
    if src == |g| then
      assert DanglingFrom(outlinks, src) == {};
      g
    else
      var next := FillDangling(if outlinks[src] == 0 then SetColumn(g, src, 1.0 / |g| as real) else g, outlinks, src + 1);
      assert DanglingFrom(outlinks, src) == DanglingFrom(outlinks, src + 1) + (if outlinks[src] == 0 then {src} else {});
      next
  }

  /** Pass 4: every present value v becomes alpha*v + (1-alpha)/n; absent entries stay absent. */
  function Primitivity(g: Graph, alpha: real): (r: Graph)
    ensures |r| == |g|
    ensures forall d :: 0 <= d < |g| ==> r[d].Keys == g[d].Keys
    ensures forall d, s: nat :: 0 <= d < |g| && s in r[d] ==> r[d][s] == Blend(g[d][s], |g|, alpha)
  {
    seq(|g|, d requires 0 <= d < |g| => map s | s in g[d] :: Blend(g[d][s], |g|, alpha))
  }

  /** Passes 1 and 2: the transposed hyperlink matrix H. */
  function Hyperlink(n: nat, edges: seq<Edge>): (h: Graph)
    requires InRange(n, edges)
    ensures |h| == n
    ensures forall d, s: nat :: 0 <= d < n ==> (s in h[d] <==> Edge(s, d) in edges)
    ensures forall d, s: nat :: 0 <= d < n && s in h[d] ==>
      OutDegree(edges, s) > 0 && h[d][s] == 1.0 / OutDegree(edges, s) as real
  {
    var p := DrainEdges(n, edges);
    assert forall d, s: nat :: 0 <= d < n && s in p.graph[d] ==> s < n && p.outlinks[s] > 0 by {
      forall d, s: nat | 0 <= d < n && s in p.graph[d]
        ensures s < n && p.outlinks[s] > 0
      {
        var i :| 0 <= i < |edges| && edges[i] == Edge(s, d);
        LinkedSourceCounted(edges, s, d);
      }
    }
    LinkPass(p.graph, p.outlinks)
  }

  /** Passes 1 to 3: the stochastic matrix S, with dense columns for dangling sources. */
  function Stochastic(n: nat, edges: seq<Edge>): (g: Graph)
    requires InRange(n, edges)
    ensures |g| == n
    ensures forall d, s: nat :: 0 <= d < n ==>
      (s in g[d] <==> Edge(s, d) in edges || (s < n && OutDegree(edges, s) == 0))
    ensures forall d, s: nat :: 0 <= d < n && s in g[d] ==>
      g[d][s] == (if OutDegree(edges, s) == 0 then 1.0 / n as real else 1.0 / OutDegree(edges, s) as real)
  {
    var p := DrainEdges(n, edges);
    var h := Hyperlink(n, edges);
    var g := FillDangling(h, p.outlinks, 0);
    forall d, s: nat | 0 <= d < n
      ensures s in g[d] <==> Edge(s, d) in edges || (s < n && OutDegree(edges, s) == 0)
      ensures s in g[d] ==>
        g[d][s] == (if OutDegree(edges, s) == 0 then 1.0 / n as real else 1.0 / OutDegree(edges, s) as real)
    {
      assert s in DanglingFrom(p.outlinks, 0) <==> s < n && OutDegree(edges, s) == 0;
    }
    g
  }

  /** All four passes of build_google_graph. */
  function BuildGoogleGraph(n: nat, edges: seq<Edge>, alpha: real): (g: Graph)
    requires InRange(n, edges)
    ensures |g| == n
    ensures forall d, s: nat :: 0 <= d < n ==>
      (s in g[d] <==> Edge(s, d) in edges || (s < n && OutDegree(edges, s) == 0))
    ensures forall d, s: nat :: 0 <= d < n && s in g[d] && OutDegree(edges, s) == 0 ==>
      g[d][s] == 1.0 / n as real
    ensures forall d, s: nat :: 0 <= d < n && s in g[d] && OutDegree(edges, s) > 0 ==>
      g[d][s] == Blend(1.0 / OutDegree(edges, s) as real, n, alpha)
  {
    var st := Stochastic(n, edges);
    var g := Primitivity(st, alpha);
    forall d, s: nat | 0 <= d < n && s in g[d]
      ensures OutDegree(edges, s) == 0 ==> g[d][s] == 1.0 / n as real
      ensures OutDegree(edges, s) > 0 ==> g[d][s] == Blend(1.0 / OutDegree(edges, s) as real, n, alpha)
    {
      var v := st[d][s];
      assert g[d][s] == Blend(v, n, alpha);
      if OutDegree(edges, s) == 0 {
        assert v == 1.0 / n as real;
        UniformBlend(n, alpha);
      } else {
        assert v == 1.0 / OutDegree(edges, s) as real;
      }
    }
    g
  }

  /** Blending the uniform weight 1/n leaves it at 1/n, whatever alpha is. */
  lemma UniformBlend(n: nat, alpha: real)
    requires n > 0
    ensures Blend(1.0 / n as real, n, alpha) == 1.0 / n as real
  {
  }

  lemma InversePositive(k: nat)
    requires k > 0
    ensures 1.0 / k as real > 0.0
  {
  }

  /** Blending a positive weight with 0 <= alpha <= 1 keeps it positive. */
  lemma BlendPositive(v: real, n: nat, alpha: real)
    requires v > 0.0 && n > 0 && 0.0 <= alpha <= 1.0
    ensures Blend(v, n, alpha) > 0.0
  {
    var j := 1.0 / n as real;
    assert j > 0.0;
    assert Jump(n, alpha) == (1.0 - alpha) * j;
    if alpha == 0.0 {
      assert Jump(n, alpha) == j;
    } else {
      assert alpha * v > 0.0;
      assert (1.0 - alpha) * j >= 0.0;
    }
  }

  /**
   * What a power-iteration round relies on: every key is a vertex, every
   * weight is positive and every vertex sends weight to some vertex.
   */
  predicate WellFormed(g: Graph) {
    && (forall d, s: nat :: 0 <= d < |g| && s in g[d] ==> s < |g| && g[d][s] > 0.0)
    && (forall s: nat :: s < |g| ==> Feeds(g, s))
  }

  /** Some G[dest] has an entry for src. */
  predicate Feeds(g: Graph, src: nat) {
    exists d :: 0 <= d < |g| && src in g[d]
  }

  /** The Google graph is well formed for every damping factor in [0, 1]. */
  lemma BuildWellFormed(n: nat, edges: seq<Edge>, alpha: real)
    requires InRange(n, edges) && 0.0 <= alpha <= 1.0
    ensures WellFormed(BuildGoogleGraph(n, edges, alpha))
  {
    var g := BuildGoogleGraph(n, edges, alpha);
    forall d, s: nat | 0 <= d < n && s in g[d]
      ensures s < n && g[d][s] > 0.0
    {
      if OutDegree(edges, s) > 0 {
        assert Edge(s, d) in edges;
        var i :| 0 <= i < |edges| && edges[i] == Edge(s, d);
        InversePositive(OutDegree(edges, s));
        BlendPositive(1.0 / OutDegree(edges, s) as real, n, alpha);
      } else {
        assert g[d][s] == 1.0 / n as real;
        InversePositive(n);
      }
    }
    forall s: nat | s < n
      ensures Feeds(g, s)
    {
      if OutDegree(edges, s) == 0 {
        assert s in g[0];
      } else {
        var d := CountedSourceLinked(edges, s);
        var i :| 0 <= i < |edges| && edges[i] == Edge(s, d);
        assert s in g[d];
      }
    }
  }

  /** Column src of the conceptual matrix: the weight src sends to each dest, absent entries as zero. */
  function Column(g: Graph, src: nat): (c: seq<real>)
    ensures |c| == |g|
    ensures forall d :: 0 <= d < |g| ==> c[d] == (if src in g[d] then g[d][src] else 0.0)
  {
    seq(|g|, d requires 0 <= d < |g| => if src in g[d] then g[d][src] else 0.0)
  }

  /** Indicator of the distinct vertices src links to. */
  function Targets(edges: seq<Edge>, src: nat, n: nat): (t: seq<real>)
    ensures |t| == n
    ensures forall d :: 0 <= d < n ==> t[d] == (if Edge(src, d) in edges then 1.0 else 0.0)
  {
    seq(n, d requires 0 <= d < n => if Edge(src, d) in edges then 1.0 else 0.0)
  }

  /** Without repeated edges, the number of distinct targets is the outdegree. */
  lemma {:induction false} TargetsCountOutDegree(edges: seq<Edge>, src: nat, n: nat)
    requires InRange(n, edges) && NoDuplicates(edges)
    ensures Sum(Targets(edges, src, n)) == OutDegree(edges, src) as real
    decreases |edges|
  {
    var t := Targets(edges, src, n);
    if |edges| == 0 {
      SumOfZeros(t);
    } else {
      var e, rest := edges[0], edges[1..];
      assert InRange(n, rest) && NoDuplicates(rest);
      TargetsCountOutDegree(rest, src, n);
      assert e !in rest by {
        forall j | 0 <= j < |rest|
          ensures rest[j] != e
        {
          assert rest[j] == edges[j + 1];
        }
      }
      var unit := seq(n, d requires 0 <= d < n => if e == Edge(src, d) then 1.0 else 0.0);
      forall d | 0 <= d < n
        ensures t[d] == Targets(rest, src, n)[d] + unit[d]
      {
        assert edges == [e] + rest;
        assert Edge(src, d) in edges <==> Edge(src, d) == e || Edge(src, d) in rest;
      }
      SumOfPointwiseSum(Targets(rest, src, n), unit, t);
      if e.src == src {
        SumOfUnit(unit, e.dest);
      } else {
        SumOfZeros(unit);
      }
    }
  }

  /** The link pass makes column src sum to (distinct targets)/k, where k is src's outdegree. */
  lemma LinkColumnSum(n: nat, edges: seq<Edge>, src: nat, k: nat)
    requires InRange(n, edges) && k == OutDegree(edges, src) && k > 0
    ensures Sum(Column(Hyperlink(n, edges), src)) == Sum(Targets(edges, src, n)) / k as real
  {
    var h := Hyperlink(n, edges);
    var t := Targets(edges, src, n);
    var c := Column(h, src);
    forall d | 0 <= d < n
      ensures (t[d] == 1.0 && c[d] == 1.0 / k as real) || (t[d] == 0.0 && c[d] == 0.0)
    {
      if Edge(src, d) in edges {
        assert src in h[d];
      }
    }
    SumOfIndicatedShare(t, c, k as real);
  }

  /** A count divided by itself is one. */
  lemma CountOverItself(a: real, b: real, k: nat)
    requires k > 0 && a == b / k as real && b == k as real
    ensures a == 1.0
  {
  }

  /**
   * The link pass makes the column of a non-dangling source stochastic,
   * provided no edge is listed twice.
   */
  lemma LinkColumnStochastic(n: nat, edges: seq<Edge>, src: nat)
    requires InRange(n, edges) && NoDuplicates(edges) && OutDegree(edges, src) > 0
    ensures Sum(Column(Hyperlink(n, edges), src)) == 1.0
  {
    var k := OutDegree(edges, src);
    LinkColumnSum(n, edges, src, k);
    TargetsCountOutDegree(edges, src, n);
    CountOverItself(Sum(Column(Hyperlink(n, edges), src)), Sum(Targets(edges, src, n)), k);
  }

  /** A repeated edge is counted twice but stored once, so its column sums to one half. */
  lemma RepeatedEdgeColumn()
    ensures Sum(Column(Hyperlink(2, [Edge(0, 1), Edge(0, 1)]), 0)) == 0.5
  {
    var edges := [Edge(0, 1), Edge(0, 1)];
    assert OutDegree(edges, 0) == 2 by {
      assert edges[1..][1..] == [];
    }
    var h := Hyperlink(2, edges);
    assert 0 !in h[0] by {
      assert Edge(0, 0) !in edges;
    }
    assert h[1][0] == 0.5 by {
      assert Edge(0, 1) in edges;
    }
    var c := Column(h, 0);
    assert c[1..] == [0.5] && c[1..][1..] == [];
  }

  /** After all four passes a dangling source's column is uniform and sums to one. */
  lemma DanglingColumnStochastic(n: nat, edges: seq<Edge>, alpha: real, src: nat)
    requires InRange(n, edges) && src < n && OutDegree(edges, src) == 0
    ensures forall d :: 0 <= d < n ==> Column(BuildGoogleGraph(n, edges, alpha), src)[d] == 1.0 / n as real
    ensures Sum(Column(BuildGoogleGraph(n, edges, alpha), src)) == 1.0
  {
    var c := Column(BuildGoogleGraph(n, edges, alpha), src);
    assert forall d :: 0 <= d < n ==> c[d] == 1.0 / n as real;
    SumOfUniform(c);
  }

  /**
   * The mass a linked source sends out after damping when `targets` distinct
   * vertices each hold alpha/outdeg + (1-alpha)/n.
   */
  function DampedColumnMass(targets: real, outdeg: nat, n: nat, alpha: real): real
    requires outdeg > 0 && n > 0
  {
    Blend(1.0 / outdeg as real, n, alpha) * targets
  }

  /** The mass a source with k distinct targets sends out after damping: alpha + k*(1-alpha)/n. */
  function LinkedColumnMass(k: nat, n: nat, alpha: real): real
    requires n > 0
  {
    alpha + k as real * Jump(n, alpha)
  }

  lemma ScaledBlend(k: nat, n: nat, alpha: real)
    requires k > 0 && n > 0
    ensures Blend(1.0 / k as real, n, alpha) * k as real == LinkedColumnMass(k, n, alpha)
  {
    var x := k as real;
    calc {
      Blend(1.0 / x, n, alpha) * x;
      (alpha * (1.0 / x) + Jump(n, alpha)) * x;
      alpha * ((1.0 / x) * x) + x * Jump(n, alpha);
      { assert (1.0 / x) * x == 1.0; }
      alpha + x * Jump(n, alpha);
    }
  }

  lemma MulStrict(a: real, b: real, c: real)
    requires a < b && c > 0.0
    ensures a * c < b * c
  {
  }

  lemma ShortfallArith(x: real, y: real, alpha: real)
    requires 0.0 < x < y && alpha < 1.0
    ensures alpha + x * ((1.0 - alpha) * (1.0 / y)) < 1.0
  {
    var j := 1.0 / y;
    MulStrict(x, y, j);
    assert y * j == 1.0;
    MulStrict(x * j, 1.0, 1.0 - alpha);
    assert x * ((1.0 - alpha) * j) == (x * j) * (1.0 - alpha);
  }

  /** With alpha < 1 and fewer than n targets, the damped column mass stays below one. */
  lemma ColumnShortfall(k: nat, n: nat, alpha: real)
    requires 0 < k < n && alpha < 1.0
    ensures LinkedColumnMass(k, n, alpha) < 1.0
  {
    ShortfallArith(k as real, n as real, alpha);
  }

  /**
   * After all four passes each distinct target of a linked source holds
   * alpha/outdeg + (1-alpha)/n, so the column sums to that weight times the
   * number of distinct targets. A repeated edge raises the outdegree but not
   * the number of targets. Without repeated edges the sum is
   * alpha + outdegree*(1-alpha)/n: the teleport term only reaches the present
   * entries, so the column falls short of one unless every vertex is a target.
   */
  lemma LinkedColumnSum(n: nat, edges: seq<Edge>, alpha: real, src: nat)
    requires InRange(n, edges) && OutDegree(edges, src) > 0
    ensures n > 0
    ensures Sum(Column(BuildGoogleGraph(n, edges, alpha), src))
      == DampedColumnMass(Sum(Targets(edges, src, n)), OutDegree(edges, src), n, alpha)
    ensures NoDuplicates(edges) ==>
      Sum(Column(BuildGoogleGraph(n, edges, alpha), src)) == LinkedColumnMass(OutDegree(edges, src), n, alpha)
    ensures NoDuplicates(edges) && alpha < 1.0 && OutDegree(edges, src) < n ==>
      Sum(Column(BuildGoogleGraph(n, edges, alpha), src)) < 1.0
  {
    var k := OutDegree(edges, src);
    var c := Column(BuildGoogleGraph(n, edges, alpha), src);
    var t := Targets(edges, src, n);
    LinkedColumnWeights(n, edges, alpha, src);
    IndicatedMass(t, c, k, n, alpha);
    if NoDuplicates(edges) {
      TargetsCountOutDegree(edges, src, n);
      DistinctTargetsMass(Sum(c), Sum(t), k, n, alpha);
    }
  }

  /** Entry d of a linked source's column holds the damped link weight iff d is one of its targets. */
  lemma LinkedColumnWeights(n: nat, edges: seq<Edge>, alpha: real, src: nat)
    requires InRange(n, edges) && OutDegree(edges, src) > 0
    ensures n > 0
    ensures forall d :: 0 <= d < n ==>
      var b := Blend(1.0 / OutDegree(edges, src) as real, n, alpha);
      (Targets(edges, src, n)[d] == 1.0 && Column(BuildGoogleGraph(n, edges, alpha), src)[d] == b) ||
      (Targets(edges, src, n)[d] == 0.0 && Column(BuildGoogleGraph(n, edges, alpha), src)[d] == 0.0)
  {
    var d0 := CountedSourceLinked(edges, src);
    var i :| 0 <= i < |edges| && edges[i] == Edge(src, d0);
    var g := BuildGoogleGraph(n, edges, alpha);
    var b := Blend(1.0 / OutDegree(edges, src) as real, n, alpha);
    var c := Column(g, src);
    var t := Targets(edges, src, n);
    forall d | 0 <= d < n
      ensures (t[d] == 1.0 && c[d] == b) || (t[d] == 0.0 && c[d] == 0.0)
    {
      if Edge(src, d) in edges {
        assert src in g[d];
      } else {
        assert src !in g[d];
      }
    }
  }

  /** A column holding the damped weight for outdegree k at each target sums to that weight times the target count. */
  lemma IndicatedMass(t: seq<real>, c: seq<real>, k: nat, n: nat, alpha: real)
    requires k > 0 && n > 0 && |t| == |c|
    requires forall i :: 0 <= i < |c| ==>
      (t[i] == 1.0 && c[i] == Blend(1.0 / k as real, n, alpha)) || (t[i] == 0.0 && c[i] == 0.0)
    ensures Sum(c) == DampedColumnMass(Sum(t), k, n, alpha)
  {
    var b := Blend(1.0 / k as real, n, alpha);
    SumOfIndicated(t, c, b);
    assert DampedColumnMass(Sum(t), k, n, alpha) == b * Sum(t);
  }

  /** With as many distinct targets as the outdegree k, the column carries alpha + k*(1-alpha)/n. */
  lemma DistinctTargetsMass(total: real, targets: real, k: nat, n: nat, alpha: real)
    requires k > 0 && n > 0 && targets == k as real
    requires total == DampedColumnMass(targets, k, n, alpha)
    ensures total == LinkedColumnMass(k, n, alpha)
    ensures alpha < 1.0 && k < n ==> total < 1.0
  {
    ScaledBlend(k, n, alpha);
    if alpha < 1.0 && k < n {
      ColumnShortfall(k, n, alpha);
    }
  }

  /** A link listed twice with alpha = 1/2: its column sums to 1/2, where the link listed once gives 3/4 (SingleEdgeDampedColumn). */
  lemma RepeatedEdgeDampedColumn()
    ensures Sum(Column(BuildGoogleGraph(2, [Edge(0, 1), Edge(0, 1)], 0.5), 0)) == 0.5
  {
    var edges := [Edge(0, 1), Edge(0, 1)];
    assert OutDegree(edges, 0) == 2 by {
      assert edges[1..][1..] == [];
    }
    var t := Targets(edges, 0, 2);
    assert t == [0.0, 1.0] by {
      assert Edge(0, 0) !in edges && Edge(0, 1) in edges;
    }
    assert Sum(t) == 1.0 by {
      assert t[1..] == [1.0] && t[1..][1..] == [];
      assert Sum(t[1..][1..]) == 0.0;
    }
    LinkedColumnSum(2, edges, 0.5, 0);
  }

  /** The same link listed once with alpha = 1/2: its column sums to alpha + (1-alpha)/n = 3/4. */
  lemma SingleEdgeDampedColumn()
    ensures Sum(Column(BuildGoogleGraph(2, [Edge(0, 1)], 0.5), 0)) == 0.75
  {
    var edges := [Edge(0, 1)];
    assert OutDegree(edges, 0) == 1 by {
      assert edges[1..] == [];
    }
    LinkedColumnSum(2, edges, 0.5, 0);
    assert LinkedColumnMass(1, 2, 0.5) == 0.75;
  }

  /** Every column of the conceptual matrix sums to one. */
  predicate ColumnStochastic(g: Graph) {
    forall s: nat :: s < |g| ==> Sum(Column(g, s)) == 1.0
  }

  lemma UndampedMass(k: nat, n: nat)
    requires n > 0
    ensures LinkedColumnMass(k, n, 1.0) == 1.0
  {
    assert Jump(n, 1.0) == 0.0;
  }

  /**
   * Without damping and without repeated edges the Google graph is column
   * stochastic; with damping it is not (LinkedColumnSum), which is what the
   * rescaling in every PageRank round makes up for.
   */
  lemma UndampedColumnStochastic(n: nat, edges: seq<Edge>)
    requires InRange(n, edges) && NoDuplicates(edges)
    ensures ColumnStochastic(BuildGoogleGraph(n, edges, 1.0))
  {
    var g := BuildGoogleGraph(n, edges, 1.0);
    forall s: nat | s < n
      ensures Sum(Column(g, s)) == 1.0
    {
      if OutDegree(edges, s) == 0 {
        DanglingColumnStochastic(n, edges, 1.0, s);
      } else {
        LinkedColumnSum(n, edges, 1.0, s);
        UndampedMass(OutDegree(edges, s), n);
      }
    }
  }
}
