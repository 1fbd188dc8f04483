/**
 * The two programs end to end: the crawler's vertex count and edge lines are
 * what the ranking program reads, builds the Google graph from, and ranks
 * with its fixed damping factor and iteration count.
 */
module Pipeline {
  import opened Wrappers
  import opened Sums
  import opened GoogleMatrix
  import opened PowerIteration
  import opened EdgeLine
  import opened Crawl

  /** ALPHA: the damping factor. */
  const Alpha: real := 0.85

  /** ITERATIONS: the number of power-iteration rounds. */
  const Iterations: int := 20

  /** Why the ranking program stops without a ranking. */
  datatype RankingError = BadLine(ParseError) | NoMass(RankError)

  /** Every line that parses names two vertices below n, as the graph builder's indexing demands. */
  predicate LinesWithin(n: nat, lines: seq<string>) {
    forall i :: 0 <= i < |lines| && ParseEdgeLine(lines[i]).Success? ==>
      ParseEdgeLine(lines[i]).value.src < n && ParseEdgeLine(lines[i]).value.dest < n
  }

  /** Lines that all parse and all lie within n read back as an edge list within n. */
  lemma ReadEdgesWithin(n: nat, lines: seq<string>)
    requires LinesWithin(n, lines) && ReadEdges(lines).Success?
    ensures InRange(n, ReadEdges(lines).value)
  {
    var edges := ReadEdges(lines).value;
    forall e | e in edges
      ensures e.src < n && e.dest < n
    {
      var i :| 0 <= i < |edges| && edges[i] == e;
      assert ParseEdgeLine(lines[i]) == Success(e);
    }
  }

  /**
   * The ranking program's main, between reading the files and writing the
   * ranks: n vertices, the edge lines, a uniform start and twenty rounds.
   */
  function Rank(n: nat, lines: seq<string>): (r: Result<seq<real>, RankingError>)
    requires (forall i :: 0 <= i < |lines| ==> ParseEdgeLine(lines[i]).Success?) ==> LinesWithin(n, lines)
    ensures r.Success? ==> |r.value| == n
    ensures (r.Failure? && r.error.BadLine?) <==>
      exists i :: 0 <= i < |lines| && ParseEdgeLine(lines[i]).Failure?
  {
    match ReadEdges(lines)
    case Failure(e) =>
      Failure(BadLine(e))
    case Success(edges) =>
      assert forall i :: 0 <= i < |lines| ==> ParseEdgeLine(lines[i]).Success?;
      ReadEdgesWithin(n, lines);
      var pi := if n == 0 then [] else Uniform(n);
      match PageRank(BuildGoogleGraph(n, edges, Alpha), pi, Iterations)
      case Failure(e) => Failure(NoMass(e))
      case Success(ranks) => Success(ranks)
  }

  /** A bad line stops the program before any endpoint is used as an index, in range or not. */
  lemma BadLineBeforeIndexing()
    ensures ParseEdgeLine(["5,5", "x"][1]) == Failure(MalformedLine)
    ensures Rank(2, ["5,5", "x"]) == Failure(BadLine(MalformedLine))
  {
  }

  /** Once every line parses, the ranking succeeds and is a probability distribution. */
  lemma RankIsDistribution(n: nat, lines: seq<string>)
    requires n > 0 && LinesWithin(n, lines)
    requires forall i :: 0 <= i < |lines| ==> ParseEdgeLine(lines[i]).Success?
    ensures Rank(n, lines).Success?
    ensures IsDistribution(Rank(n, lines).value)
  {
    var edges := ReadEdges(lines).value;
    ReadEdgesWithin(n, lines);
    BuildWellFormed(n, edges, Alpha);
    PageRankIsDistribution(BuildGoogleGraph(n, edges, Alpha), Uniform(n), Iterations);
  }

  /** Every edge string a valid crawl state knows parses back within its vertex count. */
  lemma KnownLinesParse(st: CrawlState, lines: seq<string>)
    requires Valid(st)
    requires forall i :: 0 <= i < |lines| ==> lines[i] in st.log.edges
    ensures LinesWithin(|st.frontier.vertices|, lines)
    ensures forall i :: 0 <= i < |lines| ==> ParseEdgeLine(lines[i]).Success?
  {
    var n := |st.frontier.vertices|;
    forall i | 0 <= i < |lines|
      ensures ParseEdgeLine(lines[i]).Success?
      ensures ParseEdgeLine(lines[i]).value.src < n && ParseEdgeLine(lines[i]).value.dest < n
    {
      assert EdgeWithin(lines[i], n);
      var src: nat, dest: nat :| src < n && dest < n && lines[i] == FormatEdge(src, dest);
      EdgeRoundTrip(src, dest);
    }
  }

  /**
   * A crawl from the root, however it is cut short, writes a vertex file and
   * an edge file that the ranking program turns into a distribution.
   */
  lemma CrawlThenRank(root: Url, pages: seq<seq<Url>>)
    ensures LinesWithin(|Run(Initial(root), pages).frontier.vertices|, Run(Initial(root), pages).log.added)
    ensures Rank(|Run(Initial(root), pages).frontier.vertices|, Run(Initial(root), pages).log.added).Success?
    ensures IsDistribution(Rank(|Run(Initial(root), pages).frontier.vertices|, Run(Initial(root), pages).log.added).value)
  {
    var st := Initial(root);
    var r := Run(st, pages);
    RunExtends(st, pages);
    KnownLinesParse(r, r.log.added);
    RankIsDistribution(|r.frontier.vertices|, r.log.added);
  }
}
