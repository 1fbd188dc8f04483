/**
 * Resuming a crawl from the edge file: the crawler rebuilds E from the lines
 * it wrote before, so that a page visited again does not append its edges a
 * second time. The read loop as written never advances its line counter; the
 * corrected loop does, and only the corrected E keeps the edge file free of
 * repeated lines.
 */
module Resume {
  import opened GoogleMatrix
  import opened EdgeLine
  import opened Crawl

  /** The read loop as written: line_num is never advanced, so every line overwrites the same slot. */
  function StoreAsWritten(slots: seq<string>, lines: seq<string>, lineNum: nat): (r: seq<string>)
    requires lineNum < |slots| || |lines| == 0
    ensures |r| == |slots|
    ensures forall i :: 0 <= i < |slots| && i != lineNum ==> r[i] == slots[i]
    ensures |lines| > 0 ==> r[lineNum] == lines[|lines| - 1]
    decreases |lines|
  {
    if |lines| == 0 then slots else StoreAsWritten(slots[lineNum := lines[0]], lines[1..], lineNum)
  }

  /** The read loop with line_num advanced after every line. */
  function Store(slots: seq<string>, lines: seq<string>, lineNum: nat): (r: seq<string>)
    requires lineNum + |lines| <= |slots|
    ensures |r| == |slots|
    ensures forall i :: 0 <= i < |lines| ==> r[lineNum + i] == lines[i]
    ensures forall i :: 0 <= i < |slots| && !(lineNum <= i < lineNum + |lines|) ==> r[i] == slots[i]
    decreases |lines|
  {
    if |lines| == 0 then
      slots
    else
      Store(slots[lineNum := lines[0]], lines[1..], lineNum + 1)
  }

  /** read_edges_from_file as written: one slot per line, all empty but the first, which holds the last line. */
  function ReadEdgeListAsWritten(lines: seq<string>): (edges: seq<string>)
    ensures |edges| == |lines|
    ensures |lines| > 0 ==> edges[0] == lines[|lines| - 1]
    ensures forall i :: 1 <= i < |lines| ==> edges[i] == ""
  {
    StoreAsWritten(seq(|lines|, _ => ""), lines, 0)
  }

  /** read_edges_from_file with the counter advanced: the lines of the file, in order. */
  function ReadEdgeList(lines: seq<string>): (edges: seq<string>)
    ensures edges == lines
  {
    Store(seq(|lines|, _ => ""), lines, 0)
  }

  /** E as the crawler builds it on start-up, from the loop as written. */
  function EdgeSetAsWritten(lines: seq<string>): set<string> {
    set e | e in ReadEdgeListAsWritten(lines)
  }

  /** E from the corrected loop. */
  function EdgeSet(lines: seq<string>): (edges: set<string>)
    ensures forall e :: e in edges <==> e in lines
  {
    set e | e in ReadEdgeList(lines)
  }

  /** With two lines or more, E as written holds the last line and the empty string, nothing else. */
  lemma EdgeSetAsWrittenKeepsLast(lines: seq<string>)
    requires |lines| >= 2
    ensures EdgeSetAsWritten(lines) == {lines[|lines| - 1], ""}
  {
    var edges := ReadEdgeListAsWritten(lines);
    assert edges[1] == "";
  }

  /** Push the last vertex when the saved queue is empty, so that a resumed crawl has a page to visit. */
  function Refill(fr: Frontier): (r: Frontier)
    requires |fr.vertices| > 0
    ensures |r.queue| > 0
    ensures |fr.queue| > 0 ==> r == fr
    ensures |fr.queue| == 0 ==> r.queue == [fr.vertices[|fr.vertices| - 1]]
    ensures r.vertices == fr.vertices && r.index == fr.index
  {
    var last := fr.vertices[|fr.vertices| - 1];
    if |fr.queue| == 0 then fr.(queue := [last], queued := {last}) else fr
  }

  /** Refilling keeps the numbering and the queue consistent. */
  lemma RefillValid(fr: Frontier)
    requires FrontierValid(fr) && |fr.vertices| > 0
    ensures FrontierValid(Refill(fr))
  {
    var i := |fr.vertices| - 1;
    assert fr.vertices[i] in fr.index;
  }

  /** The edge file after a finished crawl: vertex 0 links to 1, and vertex 1 links to 0 and to itself. */
  function FinishedFile(): seq<string> {
    ["0,1", "1,0", "1,1"]
  }

  /** The crawler restarted on that file: nothing queued, so the last vertex is pushed again. */
  function Restarted(edges: set<string>): CrawlState {
    var fr := Frontier(["a", "b"], map["a" := 0, "b" := 1], [], {});
    CrawlState(Refill(fr), EdgeLog(edges, []))
  }

  /** Revisiting vertex 1 appends exactly the edges to its outlinks that E lacks. */
  lemma RestartedVisit(edges: set<string>)
    requires "1,0" !in edges && "1,1" in edges
    ensures Step(Restarted(edges), ["a", "b"]).log.added == ["1,0"]
  {
    assert FormatEdge(1, 0) == "1,0";
    assert FormatEdge(1, 1) == "1,1";
  }

  /**
   * As written, the restarted crawler visits vertex 1 again with the same
   * outlinks and appends "1,0", which the file already holds.
   */
  lemma AsWrittenResumeRepeatsLine()
    ensures NoDuplicates(FinishedFile())
    ensures !NoDuplicates(FinishedFile() + Step(Restarted(EdgeSetAsWritten(FinishedFile())), ["a", "b"]).log.added)
  {
    var file := FinishedFile();
    var e := EdgeSetAsWritten(file);
    FinishedFileAsWritten();
    assert NoDuplicates(file) by {
      assert file[0] != file[1] && file[0] != file[2] && file[1] != file[2] by {
        assert file[0][0] != file[1][0] && file[1][2] != file[2][2];
        assert file[0][0] != file[2][0];
      }
    }
    RestartedVisit(e);
    var whole := file + Step(Restarted(e), ["a", "b"]).log.added;
    assert whole[1] == "1,0" && whole[3] == "1,0";
  }

  /** As written, E rebuilt from that file is the last line and the empty string. */
  lemma FinishedFileAsWritten()
    ensures EdgeSetAsWritten(FinishedFile()) == {"1,1", ""}
    ensures "1,0" !in EdgeSetAsWritten(FinishedFile()) && "1,1" in EdgeSetAsWritten(FinishedFile())
  {
    EdgeSetAsWrittenKeepsLast(FinishedFile());
  }

  /**
   * The restart as written is a state the crawl loop runs on: its numbering
   * and queue are consistent, but E holds the empty string, which is no edge
   * line, so the full crawl invariant does not hold.
   */
  lemma AsWrittenRestartRunnable()
    ensures FrontierValid(Restarted(EdgeSetAsWritten(FinishedFile())).frontier)
    ensures "" in Restarted(EdgeSetAsWritten(FinishedFile())).log.edges
    ensures !Valid(Restarted(EdgeSetAsWritten(FinishedFile())))
  {
    FinishedFileAsWritten();
    var st := Restarted(EdgeSetAsWritten(FinishedFile()));
    assert !EdgeWithin("", |st.frontier.vertices|) by {
      forall src: nat, dest: nat
        ensures FormatEdge(src, dest) != ""
      {
        assert ',' in FormatEdge(src, dest);
      }
    }
  }

  /** Two sequences without repeats and without common elements concatenate without repeats. */
  lemma ConcatNoDuplicates(a: seq<string>, b: seq<string>)
    requires NoDuplicates(a) && NoDuplicates(b)
    requires forall i :: 0 <= i < |b| ==> b[i] !in a
    ensures NoDuplicates(a + b)
  {
    forall i, j | 0 <= i < j < |a + b|
      ensures (a + b)[i] != (a + b)[j]
    {
      if i < |a| && j >= |a| {
        assert (a + b)[j] == b[j - |a|];
        assert (a + b)[i] in a;
      }
    }
  }

  /**
   * With the corrected E, a crawl resumed from an edge file without repeated
   * lines appends only lines the file does not hold, each once.
   */
  lemma ResumeAppendsNoRepeatedLine(file: seq<string>, st: CrawlState, pages: seq<seq<Url>>)
    requires Valid(st) && st.log.edges == EdgeSet(file) && st.log.added == []
    requires NoDuplicates(file)
    ensures NoDuplicates(file + Run(st, pages).log.added)
  {
    var added := Run(st, pages).log.added;
    RunNewEdges(st, pages);
    assert forall i :: 0 <= i < |added| ==> added[i] !in file;
    ConcatNoDuplicates(file, added);
  }
}
