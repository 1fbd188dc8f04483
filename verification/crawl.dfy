/**
 * The crawler's breadth-first bookkeeping: visiting the URL at the head of the
 * queue numbers its new outlinks, enqueues them, and records each edge string
 * "src,dest" at most once. Fetching a page is not modelled: each visit receives
 * the page's outlinks as an argument, in the order the crawler iterates them.
 */
module Crawl {
  import opened GoogleMatrix
  import opened EdgeLine

  type Url = string

  /** V, index, q and qset: the vertex numbering and the breadth-first queue. */
  datatype Frontier = Frontier(vertices: seq<Url>, index: map<Url, nat>, queue: seq<Url>, queued: set<Url>)

  /** E and new_edges: every edge string known, and those still to be appended to the edge file. */
  datatype EdgeLog = EdgeLog(edges: set<string>, added: seq<string>)

  datatype CrawlState = CrawlState(frontier: Frontier, log: EdgeLog)

  /** qset holds indexed URLs only, so the crawler's test that a new URL is not in qset always passes. */
  predicate QueuedIndexed(fr: Frontier) {
    forall u :: u in fr.queued ==> u in fr.index
  }

  /**
   * V and index are inverse to each other, every queued URL is indexed and
   * queued once, and qset is the set of queued URLs.
   */
  predicate FrontierValid(fr: Frontier) {
    && (forall u :: u in fr.index ==> fr.index[u] < |fr.vertices| && fr.vertices[fr.index[u]] == u)
    && (forall i :: 0 <= i < |fr.vertices| ==> fr.vertices[i] in fr.index && fr.index[fr.vertices[i]] == i)
    && (forall i :: 0 <= i < |fr.queue| ==> fr.queue[i] in fr.index)
    && NoDuplicates(fr.queue)
    && (forall u :: u in fr.queued ==> u in fr.queue)
    && (forall i :: 0 <= i < |fr.queue| ==> fr.queue[i] in fr.queued)
  }

  /** new_edges lists members of E, each once. */
  predicate LogValid(log: EdgeLog) {
    NoDuplicates(log.added) && forall e :: e in log.added ==> e in log.edges
  }

  /** The line is the edge string of a pair of vertex numbers below n. */
  predicate EdgeWithin(line: string, n: nat) {
    exists src: nat, dest: nat :: src < n && dest < n && line == FormatEdge(src, dest)
  }

  /** What the crawl loop keeps true. */
  predicate Valid(st: CrawlState) {
    && FrontierValid(st.frontier)
    && LogValid(st.log)
    && forall e :: e in st.log.edges ==> EdgeWithin(e, |st.frontier.vertices|)
  }

  /** A fresh start: the root is vertex 0 and the only queued URL, and no edge is known. */
  function Initial(root: Url): (st: CrawlState)
    ensures Valid(st)
    ensures st.frontier.vertices == [root] && st.frontier.queue == [root]
    ensures st.log.edges == {} && st.log.added == []
  {
    CrawlState(Frontier([root], map[root := 0], [root], {root}), EdgeLog({}, []))
  }

  /** The URLs of links not in known, each once, in order of first appearance. */
  function Fresh(known: set<Url>, links: seq<Url>): seq<Url>
    decreases |links|
  {
    if |links| == 0 then
      []
    else if links[0] in known then
      Fresh(known, links[1..])
    else
      [links[0]] + Fresh(known + {links[0]}, links[1..])
  }

  /** Fresh lists exactly the links outside known, each once. */
  lemma {:induction false} FreshMembers(known: set<Url>, links: seq<Url>)
    ensures forall u :: u in Fresh(known, links) <==> u in links && u !in known
    ensures NoDuplicates(Fresh(known, links))
    decreases |links|
  {
    if |links| > 0 {
      if links[0] in known {
        FreshMembers(known, links[1..]);
      } else {
        FreshMembers(known + {links[0]}, links[1..]);
      }
    }
  }

  /** Number a URL not seen before and enqueue it unless qset already has it. */
  function Discover(fr: Frontier, outlink: Url): (r: Frontier)
    ensures outlink in r.index
    ensures outlink in fr.index ==> r == fr
    ensures outlink !in fr.index ==> r.index == fr.index[outlink := |fr.vertices|]
    ensures outlink !in fr.index ==> r.vertices == fr.vertices + [outlink]
    ensures r.queue == fr.queue || r.queue == fr.queue + [outlink]
    ensures QueuedIndexed(fr) ==> QueuedIndexed(r)
    ensures QueuedIndexed(fr) ==> r.queue == fr.queue + (if outlink in fr.index then [] else [outlink])
  {
    if outlink in fr.index then
      fr
    else
      var grown := fr.(vertices := fr.vertices + [outlink], index := fr.index[outlink := |fr.vertices|]);
      if outlink in fr.queued then grown
      else grown.(queue := fr.queue + [outlink], queued := fr.queued + {outlink})
  }

  /**
   * Discover for every outlink in turn: V grows by the new URLs in page order,
   * and so does the queue while qset holds indexed URLs only.
   */
  function DiscoverAll(fr: Frontier, links: seq<Url>): (r: Frontier)
    ensures forall l :: l in links ==> l in r.index
    ensures forall u :: u in fr.index ==> u in r.index && r.index[u] == fr.index[u]
    ensures |fr.queue| <= |r.queue| && r.queue[..|fr.queue|] == fr.queue
    ensures r.vertices == fr.vertices + Fresh(fr.index.Keys, links)
    ensures QueuedIndexed(fr) ==> r.queue == fr.queue + Fresh(fr.index.Keys, links)
    decreases |links|
  {
    if |links| == 0 then
      fr
    else
      var l := links[0];
      var next := Discover(fr, l);
      var r := DiscoverAll(next, links[1..]);
      assert r.queue[..|fr.queue|] == fr.queue by {
        assert r.queue[..|next.queue|][..|fr.queue|] == next.queue[..|fr.queue|];
      }
      if l in fr.index then
        r
      else
        var f := Fresh(fr.index.Keys + {l}, links[1..]);
        assert next.index.Keys == fr.index.Keys + {l};
        assert fr.vertices + [l] + f == fr.vertices + ([l] + f);
        assert fr.queue + [l] + f == fr.queue + ([l] + f);
        r
  }

  /** Add the edge string to E, and to the end of new_edges when it was not in E. */
  function Record(log: EdgeLog, edge: string): (r: EdgeLog)
    ensures r.edges == log.edges + {edge}
    ensures edge in log.edges ==> r == log
    ensures edge !in log.edges ==> r.added == log.added + [edge]
    ensures LogValid(log) ==> LogValid(r)
  {
    if edge in log.edges then log else EdgeLog(log.edges + {edge}, log.added + [edge])
  }

  /** The edge strings from src to every link, with the link's index after the visit. */
  function EdgesTo(index: map<Url, nat>, src: nat, links: seq<Url>): set<string> {
    set l | l in links && l in index :: FormatEdge(src, index[l])
  }

  /**
   * One iteration of the inner loop, for one outlink of the page numbered src:
   * number the outlink if it is new, then record the edge from src to it.
   */
  function Visit(st: CrawlState, src: nat, outlink: Url): (r: CrawlState)
    ensures outlink in r.frontier.index
    ensures outlink in st.frontier.index ==> r.frontier == st.frontier
    ensures outlink !in st.frontier.index ==> r.frontier.index[outlink] == |st.frontier.vertices|
    ensures r.log.edges == st.log.edges + {FormatEdge(src, r.frontier.index[outlink])}
    ensures r.log.added == st.log.added +
      (if FormatEdge(src, r.frontier.index[outlink]) in st.log.edges then [] else [FormatEdge(src, r.frontier.index[outlink])])
  {
    var fr := Discover(st.frontier, outlink);
    CrawlState(fr, Record(st.log, FormatEdge(src, fr.index[outlink])))
  }

  /** The inner loop over all outlinks of the page numbered src. */
  function ProcessOutlinks(st: CrawlState, src: nat, links: seq<Url>): (r: CrawlState)
    ensures r.frontier == DiscoverAll(st.frontier, links)
    ensures r.log.edges == st.log.edges + EdgesTo(r.frontier.index, src, links)
    ensures LogValid(st.log) ==> LogValid(r.log)
    decreases |links|
  {
    if |links| == 0 then
      st
    else
      var next := Visit(st, src, links[0]);
      var r := ProcessOutlinks(next, src, links[1..]);
      assert r.log.edges == st.log.edges + EdgesTo(r.frontier.index, src, links) by {
        assert r.frontier.index[links[0]] == next.frontier.index[links[0]];
        forall l | l in links[1..] && l in r.frontier.index
          ensures FormatEdge(src, r.frontier.index[l]) in EdgesTo(r.frontier.index, src, links)
        {
        }
      }
      r
  }

  /** b's new_edges extends a's, and only by strings that were not in a's E. */
  predicate AppendsFresh(a: EdgeLog, b: EdgeLog) {
    && |a.added| <= |b.added|
    && b.added[..|a.added|] == a.added
    && forall i :: |a.added| <= i < |b.added| ==> b.added[i] !in a.edges
  }

  lemma AppendsFreshTransitive(a: EdgeLog, b: EdgeLog, c: EdgeLog)
    requires AppendsFresh(a, b) && AppendsFresh(b, c) && a.edges <= b.edges
    ensures AppendsFresh(a, c)
  {
    assert c.added[..|a.added|] == a.added by {
      assert c.added[..|b.added|][..|a.added|] == b.added[..|a.added|];
    }
    forall i | |a.added| <= i < |c.added|
      ensures c.added[i] !in a.edges
    {
      if i < |b.added| {
        assert c.added[i] == c.added[..|b.added|][i];
      }
    }
  }

  /** new_edges only grows, and only by strings that were not in E before the page was visited. */
  lemma {:induction false} ProcessOutlinksNewEdges(st: CrawlState, src: nat, links: seq<Url>)
    ensures AppendsFresh(st.log, ProcessOutlinks(st, src, links).log)
    decreases |links|
  {
    if |links| > 0 {
      var next := Visit(st, src, links[0]);
      ProcessOutlinksNewEdges(next, src, links[1..]);
      AppendsFreshTransitive(st.log, next.log, ProcessOutlinks(next, src, links[1..]).log);
    } else {
      assert st.log.added[..|st.log.added|] == st.log.added;
    }
  }

  /** b keeps every vertex number and every edge of a. */
  predicate Extends(a: CrawlState, b: CrawlState) {
    && |a.frontier.vertices| <= |b.frontier.vertices|
    && b.frontier.vertices[..|a.frontier.vertices|] == a.frontier.vertices
    && a.log.edges <= b.log.edges
  }

  lemma ExtendsTransitive(a: CrawlState, b: CrawlState, c: CrawlState)
    requires Extends(a, b) && Extends(b, c)
    ensures Extends(a, c)
  {
    var n := |a.frontier.vertices|;
    assert c.frontier.vertices[..|b.frontier.vertices|][..n] == b.frontier.vertices[..n];
  }

  /** Pop the head of the queue and drop it from qset. */
  function Dequeue(fr: Frontier): (r: Frontier)
    requires |fr.queue| > 0
    ensures r.vertices == fr.vertices && r.index == fr.index
    ensures fr.queue == [fr.queue[0]] + r.queue
    ensures fr.queue[0] !in r.queued
  {
    fr.(queue := fr.queue[1..], queued := fr.queued - {fr.queue[0]})
  }

  /** One iteration of the outer loop: visit the head of the queue, then dequeue it. */
  function Step(st: CrawlState, outlinks: seq<Url>): (r: CrawlState)
    requires |st.frontier.queue| > 0 && st.frontier.queue[0] in st.frontier.index
    ensures r.frontier.vertices == st.frontier.vertices + Fresh(st.frontier.index.Keys, outlinks)
    ensures QueuedIndexed(st.frontier) ==>
      r.frontier.queue == st.frontier.queue[1..] + Fresh(st.frontier.index.Keys, outlinks)
    ensures r.log.edges ==
      st.log.edges + EdgesTo(r.frontier.index, st.frontier.index[st.frontier.queue[0]], outlinks)
    ensures forall l :: l in outlinks ==> l in r.frontier.index
    ensures st.frontier.queue[0] !in r.frontier.queued
    ensures Extends(st, r)
  {
    var url := st.frontier.queue[0];
    var mid := ProcessOutlinks(st, st.frontier.index[url], outlinks);
    var q := mid.frontier.queue;
    assert q[0] == url by {
      assert q[..|st.frontier.queue|][0] == url;
    }
    assert QueuedIndexed(st.frontier) ==>
      q[1..] == st.frontier.queue[1..] + Fresh(st.frontier.index.Keys, outlinks);
    mid.(frontier := Dequeue(mid.frontier))
  }

  /** Discover keeps the numbering and the queue consistent. */
  lemma DiscoverValid(fr: Frontier, outlink: Url)
    requires FrontierValid(fr)
    ensures FrontierValid(Discover(fr, outlink))
  {
    var r := Discover(fr, outlink);
    if outlink !in fr.index {
      assert outlink !in fr.queue;
      forall i | 0 <= i < |r.vertices|
        ensures r.vertices[i] in r.index && r.index[r.vertices[i]] == i
      {
        if i < |fr.vertices| {
          assert r.vertices[i] == fr.vertices[i];
        }
      }
    }
  }

  /** A visit keeps the invariant. */
  lemma VisitValid(st: CrawlState, src: nat, outlink: Url)
    requires Valid(st) && src < |st.frontier.vertices|
    ensures Valid(Visit(st, src, outlink))
  {
    DiscoverValid(st.frontier, outlink);
    var r := Visit(st, src, outlink);
    var n := |r.frontier.vertices|;
    var dest := r.frontier.index[outlink];
    assert EdgeWithin(FormatEdge(src, dest), n);
    forall e | e in st.log.edges
      ensures EdgeWithin(e, n)
    {
      var s: nat, d: nat :| s < |st.frontier.vertices| && d < |st.frontier.vertices| && e == FormatEdge(s, d);
    }
  }

  /** The inner loop keeps the invariant. */
  lemma {:induction false} ProcessOutlinksValid(st: CrawlState, src: nat, links: seq<Url>)
    requires Valid(st) && src < |st.frontier.vertices|
    ensures Valid(ProcessOutlinks(st, src, links))
    decreases |links|
  {
    if |links| > 0 {
      VisitValid(st, src, links[0]);
      ProcessOutlinksValid(Visit(st, src, links[0]), src, links[1..]);
    }
  }

  /** Dequeuing keeps the numbering and the queue consistent. */
  lemma DequeueValid(fr: Frontier)
    requires FrontierValid(fr) && |fr.queue| > 0
    ensures FrontierValid(Dequeue(fr))
  {
    var r := Dequeue(fr);
    forall i | 0 <= i < |r.queue|
      ensures r.queue[i] != fr.queue[0] && r.queue[i] in r.queued
    {
      assert r.queue[i] == fr.queue[i + 1];
    }
  }

  /** One visit from a valid state leaves a valid state. */
  lemma StepValid(st: CrawlState, outlinks: seq<Url>)
    requires Valid(st) && |st.frontier.queue| > 0
    ensures Valid(Step(st, outlinks))
  {
    var url := st.frontier.queue[0];
    ProcessOutlinksValid(st, st.frontier.index[url], outlinks);
    var mid := ProcessOutlinks(st, st.frontier.index[url], outlinks);
    DequeueValid(mid.frontier);
    assert Step(st, outlinks) == mid.(frontier := Dequeue(mid.frontier));
  }

  /** Numbering a page's outlinks keeps the numbering and the queue consistent. */
  lemma {:induction false} DiscoverAllValid(fr: Frontier, links: seq<Url>)
    requires FrontierValid(fr)
    ensures FrontierValid(DiscoverAll(fr, links))
    decreases |links|
  {
    if |links| > 0 {
      DiscoverValid(fr, links[0]);
      DiscoverAllValid(Discover(fr, links[0]), links[1..]);
    }
  }

  /** One visit keeps the numbering and the queue consistent, whatever E holds, and keeps the whole invariant when it holds. */
  lemma StepFrontierValid(st: CrawlState, outlinks: seq<Url>)
    requires FrontierValid(st.frontier) && |st.frontier.queue| > 0
    ensures FrontierValid(Step(st, outlinks).frontier)
    ensures Valid(st) ==> Valid(Step(st, outlinks))
  {
    if Valid(st) {
      StepValid(st, outlinks);
    }
    var url := st.frontier.queue[0];
    var mid := ProcessOutlinks(st, st.frontier.index[url], outlinks);
    DiscoverAllValid(st.frontier, outlinks);
    DequeueValid(mid.frontier);
  }

  /**
   * The outer loop, one entry of `pages` per visit; running out of pages
   * stands for the user stopping the crawl. The loop only tests membership in
   * E, so it runs on any consistent numbering and queue, including a restart
   * whose E holds strings that are not edge lines.
   */
  function Run(st: CrawlState, pages: seq<seq<Url>>): (r: CrawlState)
    requires FrontierValid(st.frontier)
    ensures FrontierValid(r.frontier)
    ensures Valid(st) ==> Valid(r)
    decreases |pages|
  {
    if |st.frontier.queue| == 0 || |pages| == 0 then
      st
    else
      StepFrontierValid(st, pages[0]);
      Run(Step(st, pages[0]), pages[1..])
  }

  /** A crawl never renumbers a vertex and never forgets an edge. */
  lemma {:induction false} RunExtends(st: CrawlState, pages: seq<seq<Url>>)
    requires FrontierValid(st.frontier)
    ensures Extends(st, Run(st, pages))
    decreases |pages|
  {
    if |st.frontier.queue| > 0 && |pages| > 0 {
      StepFrontierValid(st, pages[0]);
      var next := Step(st, pages[0]);
      RunExtends(next, pages[1..]);
      ExtendsTransitive(st, next, Run(next, pages[1..]));
    } else {
      assert st.frontier.vertices[..|st.frontier.vertices|] == st.frontier.vertices;
    }
  }

  /** Over a whole crawl, new_edges only grows, and only by strings that were not in E at the start. */
  lemma {:induction false} RunNewEdges(st: CrawlState, pages: seq<seq<Url>>)
    requires FrontierValid(st.frontier)
    ensures AppendsFresh(st.log, Run(st, pages).log)
    decreases |pages|
  {
    if |st.frontier.queue| > 0 && |pages| > 0 {
      StepFrontierValid(st, pages[0]);
      var src := st.frontier.index[st.frontier.queue[0]];
      var next := Step(st, pages[0]);
      assert next.log == ProcessOutlinks(st, src, pages[0]).log;
      ProcessOutlinksNewEdges(st, src, pages[0]);
      RunNewEdges(next, pages[1..]);
      AppendsFreshTransitive(st.log, next.log, Run(next, pages[1..]).log);
    } else {
      assert st.log.added[..|st.log.added|] == st.log.added;
    }
  }

  /** Every string b's E gained over a's is in b's new_edges. */
  predicate AppendsAllNew(a: EdgeLog, b: EdgeLog) {
    forall e :: e in b.edges && e !in a.edges ==> e in b.added
  }

  lemma AppendsAllNewTransitive(a: EdgeLog, b: EdgeLog, c: EdgeLog)
    requires AppendsAllNew(a, b) && AppendsAllNew(b, c) && AppendsFresh(b, c)
    ensures AppendsAllNew(a, c)
  {
    forall e | e in c.edges && e !in a.edges
      ensures e in c.added
    {
      if e in b.edges {
        var i :| 0 <= i < |b.added| && b.added[i] == e;
        assert c.added[..|b.added|][i] == e;
      }
    }
  }

  /** Every edge string a page adds to E is appended to new_edges. */
  lemma {:induction false} ProcessOutlinksAllNew(st: CrawlState, src: nat, links: seq<Url>)
    ensures AppendsAllNew(st.log, ProcessOutlinks(st, src, links).log)
    decreases |links|
  {
    if |links| > 0 {
      var next := Visit(st, src, links[0]);
      ProcessOutlinksAllNew(next, src, links[1..]);
      ProcessOutlinksNewEdges(next, src, links[1..]);
      AppendsAllNewTransitive(st.log, next.log, ProcessOutlinks(next, src, links[1..]).log);
    }
  }

  /** Over a whole crawl, every edge string added to E is appended to new_edges. */
  lemma {:induction false} RunAllNew(st: CrawlState, pages: seq<seq<Url>>)
    requires FrontierValid(st.frontier)
    ensures AppendsAllNew(st.log, Run(st, pages).log)
    decreases |pages|
  {
    if |st.frontier.queue| > 0 && |pages| > 0 {
      StepFrontierValid(st, pages[0]);
      var src := st.frontier.index[st.frontier.queue[0]];
      var next := Step(st, pages[0]);
      assert next.log == ProcessOutlinks(st, src, pages[0]).log;
      ProcessOutlinksAllNew(st, src, pages[0]);
      RunAllNew(next, pages[1..]);
      RunNewEdges(next, pages[1..]);
      AppendsAllNewTransitive(st.log, next.log, Run(next, pages[1..]).log);
    }
  }

  /** From a fresh start, the lines appended to the edge file are exactly E, each once. */
  lemma FreshCrawlFileIsE(root: Url, pages: seq<seq<Url>>)
    ensures forall e :: e in Run(Initial(root), pages).log.edges <==> e in Run(Initial(root), pages).log.added
    ensures NoDuplicates(Run(Initial(root), pages).log.added)
  {
    RunAllNew(Initial(root), pages);
  }
}
