# ucpagerank in Dafny

This project models the two programs of ucpagerank:

- **The crawler** (`crawl.py`). It walks the hyperlinks of a web site breadth first. It numbers every URL it meets, and it records each link as an edge line `"src,dest"`, writing each line at most once per crawl session (but see Findings).
- **The ranking program** (`PageRank.cpp`). It reads the vertex count and the edge lines back. From them it builds the transposed Google matrix as one sparse row per vertex. It then runs a fixed number of power-iteration rounds, each followed by L1 renormalisation.

The modules follow the programs' structure:

| file | module | what it models |
|---|---|---|
| `wrappers.dfy` | `Wrappers` | `Option` and `Result` (with `:-` support) for error paths |
| `sums.dfy` | `Sums` | sums of real sequences, distributions, and the row/column exchange of a rectangular array |
| `google_matrix.dfy` | `GoogleMatrix` | `build_google_graph`: the placeholder pass, the link pass, the dangling pass and the damping pass, one function each, plus their closed forms and column sums |
| `power_iteration.dfy` | `PowerIteration` | `PageRank`: one vector-matrix product per round, then the L1 rescaling |
| `edge_line.dfy` | `EdgeLine` | the edge file's line format: the crawler's `str(src) + ',' + str(dest)` and the ranking program's `find`/`stoi` parser |
| `crawl.dfy` | `Crawl` | the breadth-first loop of `crawl`, as transitions on an immutable state |
| `resume.dfy` | `Resume` | how `E` is rebuilt from the edge file when a crawl is resumed (see Findings) |
| `pipeline.dfy` | `Pipeline` | the two programs chained: the ranking program's `main` with `ALPHA = 0.85` and `ITERATIONS = 20`, and end-to-end theorems |

Modelling choices:

- **Weights are reals.** A division by a zero L1 sum becomes the error `ZeroMass`. The C++ code would instead fill the vector with NaN, which every later round keeps.
- **Edge lists are in range.** The builder requires every edge endpoint to be below `n`. The C++ code indexes `G` and `outlinks` unchecked, so an out-of-range endpoint is undefined behaviour. `Pipeline.CrawlThenRank` shows that a crawl from a fresh start, stopped at any point, writes only lines that meet this requirement. `Pipeline.KnownLinesParse` shows the same for any state that satisfies the crawl invariant.
- **Fetching a page is an input.** `get_outlinks` becomes a sequence of URLs, in the order in which the crawler iterates its result set. A crawl is driven by a finite list of such sequences. Running out of the list stands for the user pressing Ctrl+C.
- **Column sums follow the code, not the textbook.** The damping pass only touches entries that already exist. Each distinct target of a linked source holds `alpha/outdeg + (1-alpha)/n`. Without repeated edges the column therefore sums to `alpha + k(1-alpha)/n`, which is below 1 when `alpha < 1` and the source links to `k < n` vertices (`GoogleMatrix.LinkedColumnSum`). A repeated edge raises the outdegree but not the number of targets, which lowers the sum further (`GoogleMatrix.RepeatedEdgeDampedColumn`). The per-round renormalisation is what keeps the ranks a distribution (`PowerIteration.PageRankIsDistribution`).

## Model

| member | source | states |
|---|---|---|
| GoogleMatrix.Drain | PageRank.cpp:113-128 | after popping every edge, `G[dest]` has a key `src` exactly when it had one before or `(src,dest)` is an edge; a popped edge's entry holds the placeholder; `outlinks[src]` grew by src's outdegree, counting a repeated edge each time |
| GoogleMatrix.DrainEdges | PageRank.cpp:98-128 | from an empty graph and zero counters, pass 1 leaves exactly the linked pairs marked with the placeholder and each counter equal to the outdegree |
| GoogleMatrix.LinkedSourceCounted | PageRank.cpp:113-128 | a source that has an entry in some row has a positive counter, so the link pass never divides by zero |
| GoogleMatrix.CountedSourceLinked | PageRank.cpp:113-128 | conversely, a source with a positive counter links to some vertex |
| GoogleMatrix.LinkRow | PageRank.cpp:133-138 | the link pass on one row keeps its keys and sets each entry to `1/outlinks[src]` |
| GoogleMatrix.LinkPass | PageRank.cpp:130-139 | the link pass keeps every row's key set, and every entry `G[dest][src]` becomes `1/outlinks[src]` |
| GoogleMatrix.SetColumnWrites | PageRank.cpp:147-150 | the inner dangling loop gives every row the key `src` with value `v`, and every other entry keeps its key and value |
| GoogleMatrix.FillDangling | PageRank.cpp:143-152 | from source `src` on, every row gains exactly the dangling sources as keys, with value `1/n`; other entries keep their value |
| GoogleMatrix.Primitivity | PageRank.cpp:156-169 | the damping pass keeps every key set and maps each present value `v` to `alpha*v + (1-alpha)*(1/n)`; absent entries stay absent |
| GoogleMatrix.Hyperlink | PageRank.cpp:98-139 | after passes 1 and 2, `G[d]` has key `s` iff `(s,d)` is an edge, with value `1/outdeg(s)` and `outdeg(s) > 0` |
| GoogleMatrix.Stochastic | PageRank.cpp:98-152 | after passes 1 to 3, `G[d]` has key `s` iff `(s,d)` is an edge or `s` is dangling; the value is `1/n` for a dangling source and `1/outdeg(s)` otherwise |
| GoogleMatrix.BuildGoogleGraph | PageRank.cpp:91-171 | the finished graph: the same key sets as after pass 3; a dangling source's entries are `1/n`; a linked source's entries are `alpha/outdeg + (1-alpha)/n` |
| GoogleMatrix.UniformBlend | PageRank.cpp:149-167 | damping leaves a dangling entry `1/n` at `1/n`, whatever `alpha` is |
| GoogleMatrix.BuildWellFormed | PageRank.cpp:91-171 | for `alpha` in [0,1], every key of the built graph is a vertex, every weight is positive, and every vertex appears as a source in some row |
| GoogleMatrix.TargetsCountOutDegree | PageRank.cpp:113-128 | without repeated edges, the number of distinct targets of `src` equals the counter pass 1 leaves for it |
| GoogleMatrix.LinkColumnSum | PageRank.cpp:130-139 | a linked source's column in H sums to its number of distinct targets divided by its counter |
| GoogleMatrix.LinkColumnStochastic | PageRank.cpp:130-139 | without repeated edges, a linked source's column in H sums to exactly 1 |
| GoogleMatrix.RepeatedEdgeColumn | PageRank.cpp:113-139 | a repeated edge is counted twice but stored once, so the edge list `[(0,1),(0,1)]` gives source 0 a column summing to 1/2 |
| GoogleMatrix.DanglingColumnStochastic | PageRank.cpp:143-169 | a dangling source's column in the finished graph is `1/n` in every row and sums to 1 |
| GoogleMatrix.LinkedColumnSum | PageRank.cpp:113-169 | after all four passes, a linked source's column sums to its number of distinct targets times `alpha/outdeg + (1-alpha)/n`, repeated edges included. Without repeated edges this is `alpha + k(1-alpha)/n` with `k` the outdegree, which is below 1 when `alpha < 1` and `k < n` |
| GoogleMatrix.LinkedColumnWeights | PageRank.cpp:113-169 | entry `d` of a linked source's column holds `alpha/outdeg + (1-alpha)/n` when `(src,d)` is an edge and is absent (zero) otherwise |
| GoogleMatrix.RepeatedEdgeDampedColumn | PageRank.cpp:113-169 | with the edge `0,1` listed twice, `n = 2` and `alpha = 1/2`, column 0 sums to 1/2, where the link listed once gives 3/4 |
| GoogleMatrix.SingleEdgeDampedColumn | PageRank.cpp:113-169 | with the edge `0,1` listed once, `n = 2` and `alpha = 1/2`, column 0 sums to `alpha + (1-alpha)/n = 3/4` |
| GoogleMatrix.UndampedColumnStochastic | PageRank.cpp:91-171 | with `alpha = 1` and no repeated edges, every column of the built graph sums to 1 |
| PowerIteration.Multiply | PageRank.cpp:188-200 | one product keeps the length `\|G\|`; what its entries mean is stated by its partner lemmas `MultiplyNonNegative` and `MultiplyPreservesMass` |
| PowerIteration.Normalise | PageRank.cpp:204-209 | fails exactly when a non-empty vector sums to zero; otherwise keeps the length, sums to 1, is the input scaled by its sum (`S*r[i] == v[i]`), and keeps non-negative entries non-negative |
| PowerIteration.NormaliseIdempotent | PageRank.cpp:204-209 | rescaling an already rescaled vector changes nothing |
| PowerIteration.Round | PageRank.cpp:188-209 | a successful round yields `n` ranks that sum to 1 when `n > 0` |
| PowerIteration.PageRank | PageRank.cpp:177-213 | zero or negative `iterations` return `pi` unchanged; a successful run of at least one round yields `n` ranks summing to 1 |
| PowerIteration.PageRankSplits | PageRank.cpp:185-211 | running `a+b` rounds equals running `a` rounds and then `b` more, failures included |
| PowerIteration.FixedPointStays | PageRank.cpp:185-211 | a vector that a round maps to itself is returned unchanged by any number of rounds |
| PowerIteration.MultiplyNonNegative | PageRank.cpp:190-200 | with non-negative ranks and positive weights, every `next_pi[j]` is non-negative |
| PowerIteration.InflowPositive | PageRank.cpp:190-200 | a row with a positive weight from a source of positive rank gets positive inflow |
| PowerIteration.RoundKeepsDistribution | PageRank.cpp:188-209 | on a well-formed graph a round never hits a zero sum and maps a distribution to a distribution |
| PowerIteration.PageRankIsDistribution | PageRank.cpp:177-213 | on a well-formed graph every number of rounds succeeds and yields a distribution |
| PowerIteration.Uniform | PageRank.cpp:40 | the start vector `1/n` everywhere is a distribution of length `n` |
| PowerIteration.EmptyRowsLoseMass | PageRank.cpp:185-209 | if every row is empty, the first product sums to zero, so the run fails with `ZeroMass` |
| PowerIteration.MultiplyPreservesMass | PageRank.cpp:190-200 | if every column sums to 1, the product keeps the total rank |
| PowerIteration.StochasticRoundIsProduct | PageRank.cpp:202-209 | if every column sums to 1, rescaling a distribution's product changes nothing |
| EdgeLine.ParseInt | PageRank.cpp:256-257 | `stoi` on unsigned decimals fails with `invalid_argument` exactly when the text is empty or does not start with a digit |
| EdgeLine.ParseIntOfDigits | PageRank.cpp:256-257 | `stoi` reads the leading run of digits and ignores what follows |
| EdgeLine.FindComma | PageRank.cpp:253 | `find` returns the first comma at or after the start position, and nothing iff there is no comma there |
| EdgeLine.SplitAtFirstComma | PageRank.cpp:253-257 | a line `a + "," + b` with no comma in `a` splits into exactly `a` and `b` |
| EdgeLine.ParseEdgeLine | PageRank.cpp:253-260 | a line fails with "Malformed line" exactly when it has no comma; any other failure is `invalid_argument` |
| EdgeLine.ParseEdgeLineSplits | PageRank.cpp:253-258 | a line `a + "," + b` with no comma in `a` parses to `(stoi(a), stoi(b))`, whatever further commas `b` holds, and fails with `invalid_argument` iff either half does not start with a digit |
| EdgeLine.ReadEdges | PageRank.cpp:248-261 | the file reads successfully iff every line parses; the edges are then in file order, one per line; a failure is the error of the first line that does not parse |
| EdgeLine.NatToString | crawl.py:96 | `str` of a vertex number is a non-empty digit string without a leading zero |
| EdgeLine.NatToStringValue | crawl.py:96 | the digits `str` writes read back as the number |
| EdgeLine.NatToStringOfDigits | crawl.py:96 | every digit string without a leading zero is `str` of its value |
| EdgeLine.FormatEdge | crawl.py:96 | the crawler's edge line always contains a comma |
| EdgeLine.EdgeRoundTrip | PageRank.cpp:253-258 | the ranking program parses every edge line the crawler writes back to the same pair |
| EdgeLine.FormatEdgeInjective | crawl.py:96 | two pairs give the same edge line iff they are the same pair, so the crawler's set of lines is a set of pairs |
| Crawl.Initial | crawl.py:204-210 | a fresh start (root as vertex 0 and sole queue entry, no edges) satisfies the crawl invariant |
| Crawl.FreshMembers | crawl.py:84-91 | the URLs a page adds are exactly its outlinks that were not numbered before, each once |
| Crawl.Discover | crawl.py:84-91 | afterwards the outlink is numbered; a known outlink changes nothing; a new one gets number `len(V)`, is appended to `V`, and (with every queued URL numbered) is appended to the queue |
| Crawl.DiscoverValid | crawl.py:84-91 | numbering an outlink keeps `V` and `index` inverse and the queue duplicate-free and equal to `qset` |
| Crawl.DiscoverAll | crawl.py:81-91 | over a page's outlinks, `V` and the queue grow by exactly the fresh outlinks in page order, and existing numbers never change |
| Crawl.Record | crawl.py:99-102 | `E` gains the edge; `new_edges` grows by the edge iff it was not in `E`; "`new_edges` lists members of `E` once each" is preserved |
| Crawl.ProcessOutlinks | crawl.py:81-102 | the inner loop leaves the vertex state `DiscoverAll` describes, and `E` is the old `E` plus the edges from `src` to every outlink |
| Crawl.ProcessOutlinksNewEdges | crawl.py:99-102 | during a page visit, `new_edges` only grows, and only by lines not in `E` when the visit began |
| Crawl.Visit | crawl.py:84-102 | one outlink: it ends up numbered, with a known outlink leaving `V` and `index` alone and a new one getting number `len(V)`; `E` gains the line from `src` to it, and `new_edges` gains that line exactly when it was not in `E` (`Discover` followed by `Record`; `VisitValid` is its partner) |
| Crawl.VisitValid | crawl.py:84-102 | one outlink keeps the invariant, including "every line in `E` names two numbered vertices" |
| Crawl.ProcessOutlinksValid | crawl.py:81-102 | the inner loop keeps the invariant |
| Crawl.Dequeue | crawl.py:104-105 | popping the visited URL removes the queue's head and drops it from `qset`, leaving `V` and `index` alone |
| Crawl.DequeueValid | crawl.py:104-105 | popping keeps the queue duplicate-free and equal to `qset` |
| Crawl.Step | crawl.py:75-105 | a page visit grows `V` by the fresh outlinks, replaces the queue by its tail plus those outlinks, adds the page's edges to `E`, and unqueues the page |
| Crawl.StepValid | crawl.py:75-105 | a page visit keeps the invariant |
| Crawl.DiscoverAllValid | crawl.py:81-91 | numbering a page's outlinks keeps `V` and `index` inverse and the queue duplicate-free and equal to `qset` |
| Crawl.StepFrontierValid | crawl.py:75-105 | a page visit keeps the numbering and the queue consistent whatever `E` holds, and keeps the whole invariant when it holds |
| Crawl.Run | crawl.py:73-105 | the crawl loop runs from any state whose numbering and queue are consistent, whatever `E` holds, and keeps that consistency; from a state satisfying the whole invariant it keeps the whole invariant |
| Crawl.RunExtends | crawl.py:73-105 | a crawl never renumbers a vertex and never forgets an edge |
| Crawl.RunNewEdges | crawl.py:73-105 | over a whole crawl, `new_edges` only grows, and only by lines not in `E` at the start |
| Crawl.ProcessOutlinksAllNew | crawl.py:95-102 | every line a page visit adds to `E` is appended to `new_edges` |
| Crawl.RunAllNew | crawl.py:73-105 | over a whole crawl, every line added to `E` is appended to `new_edges` |
| Crawl.FreshCrawlFileIsE | crawl.py:73-105 | from a fresh start, the lines appended to the edge file are exactly `E`, each once |
| Resume.StoreAsWritten | crawl.py:126-128 | as written, every line overwrites slot `line_num`, which stays 0: that slot ends up holding the last line and every other slot is untouched |
| Resume.ReadEdgeListAsWritten | crawl.py:122-129 | as written, `read_edges_from_file` returns the last line followed by empty strings |
| Resume.EdgeSetAsWrittenKeepsLast | crawl.py:122-129 | as written, with two or more lines, the rebuilt `E` is exactly the last line and the empty string |
| Resume.Refill | crawl.py:30-32 | an empty saved queue becomes the last vertex alone; a non-empty queue is kept; the numbering is untouched |
| Resume.RefillValid | crawl.py:30-32 | refilling keeps the numbering and the queue consistent |
| Resume.AsWrittenResumeRepeatsLine | crawl.py:122-129 | as written, restarting after the finished crawl with edge file `0,1 / 1,0 / 1,1` revisits vertex 1 and appends `1,0` again, so an edge file without repeated lines gets one |
| Resume.AsWrittenRestartRunnable | crawl.py:24-32 | the restart as written has a consistent numbering and queue, so `Crawl.Run` applies, but its `E` holds the empty string, so the full crawl invariant fails |
| Resume.Store | crawl.py:126-128 | with `line_num` advanced, line `i` lands in slot `line_num + i` and the other slots are untouched |
| Resume.ReadEdgeList | crawl.py:122-129 | with `line_num` advanced, `read_edges_from_file` returns the file's lines in order |
| Resume.EdgeSet | crawl.py:27 | with `line_num` advanced, `E` holds exactly the lines of the edge file |
| Resume.ResumeAppendsNoRepeatedLine | crawl.py:27-35 | with the corrected `E`, a crawl resumed from an edge file without repeated lines appends only new lines, each once |
| Pipeline.ReadEdgesWithin | PageRank.cpp:248-261 | lines whose parses name vertices below `n` read back as an edge list within `n` |
| Pipeline.Rank | PageRank.cpp:28-41 | the ranking program stops with "Malformed line" or `invalid_argument` exactly when some line fails to parse; a ranking has one entry per vertex |
| Pipeline.BadLineBeforeIndexing | PageRank.cpp:28-41 | the edge file is read in full before the graph is built, so a bad line stops the program even when another line names a vertex out of range: `5,5` then `x` with `n = 2` gives "Malformed line" |
| Pipeline.RankIsDistribution | PageRank.cpp:28-41 | with `n > 0` and every line parsing, ranking with `ALPHA = 0.85` and 20 rounds succeeds and yields a distribution |
| Pipeline.KnownLinesParse | crawl.py:95-102 | every line in a valid crawl state's `E` parses, and names two vertices below the vertex count |
| Pipeline.CrawlThenRank | PageRank.cpp:28-41 | a crawl from the root, stopped at any point, writes vertex and edge files that the ranking program turns into a probability distribution |

## Left out

- File I/O is not modelled. That covers `read_vertices_from_file`, `write_pagerank_vector_to_file` and `count_lines` in the ranking program, and the update functions in the crawler. The model takes the vertex count and the list of edge lines as inputs.
- Timing and console output in both `main` functions are not modelled: they do not affect the results.
- `get_outlinks` (HTTP, HTML parsing, URL filtering) is not modelled. Each visit receives the outlinks as a sequence, in the iteration order of the set the function returns.
- The Ctrl+C handler is not modelled. Stopping early is the end of the list of pages given to `Crawl.Run`.
- `jsonify.py` is not modelled: it only reformats the outputs.
- `read_queue_from_file` and `read_vertices_from_file` in the crawler are not modelled. `Crawl.FrontierValid` states what the numbering and queue of a resumed state must satisfy. `E` may hold anything, as it does after the restart as written.
- `EdgeLine.ParseInt`: models `stoi` for unsigned decimal digit strings only. Leading whitespace, signs and `out_of_range` on overflow are left out; the crawler never writes any of them.
- Integer widths are not modelled. Vertex numbers and the outdegree counters are unbounded naturals, where the C++ code uses `int`. An edge file large enough to overflow them is left out.
- Floating point is replaced by real arithmetic. Rounding, and the difference between summation orders, are left out. In particular, the inner sum of a round runs over source indices instead of the hash-map's iteration order; these are equal over the reals.
- `PowerIteration.Normalise`: a zero L1 sum returns `ZeroMass` instead of producing NaN entries and carrying on. Every later round would keep those NaN entries, so the run is treated as failed from that round on.
- `PowerIteration.Terms`: keys at or above `|pi|` are ignored, where the C++ code would read outside `pi`. `GoogleMatrix.BuildWellFormed` shows the built graph never has such keys.
- `Resume.Refill`: requires a non-empty vertex list. With an empty vertex file and an empty saved queue, `V[-1]` raises `IndexError` before the crawl starts, and nothing catches it, so the crawler exits. The model does not represent that exception.
- `GoogleMatrix.Drain`: the C++ pass pops the edge list until it is empty, destroying the caller's list. The model reads an immutable sequence, so "the list is empty afterwards" has no counterpart.
- `GoogleMatrix.BuildGoogleGraph`: requires every edge endpoint to be below `n`. The C++ code does no check and has undefined behaviour otherwise.
- `Pipeline.Rank`: when every line parses, requires every endpoint to be below `n`, for the same reason. A file with a line that does not parse needs nothing more, since the program stops at that line before building the graph.
- Convergence of the power iteration is not proved. The model fixes the number of rounds, as the program does.
- Crawl exceptions and the `finally` block that saves the files are not modelled. So is the `except Error` clause, which names an undefined class.

## Findings

| source | as written | input that shows it | evidently intended | confidence | as-written member | corrected member |
|---|---|---|---|---|---|---|
| crawl.py:126-128 | `read_edges_from_file` never increments `line_num`, so every line overwrites `edges[0]`. `E` is rebuilt as only the last line plus `''`. A page visited again after a restart therefore re-appends edge lines that the file already holds. Repeated lines then make the ranking program count an edge twice but store it once (`GoogleMatrix.RepeatedEdgeColumn`). | A finished two-page crawl: vertex 0 links to 1, and vertex 1 links to 0 and to itself. The edge file is `0,1` / `1,0` / `1,1` and the saved queue is empty. On restart, the queue is refilled with vertex 1 and `E` is `{"1,1", ""}`. The revisit appends `1,0` a second time. | Advance `line_num` after each line, so that `E` holds every line of the file. | high (not executed) | Resume.AsWrittenResumeRepeatsLine | Resume.ResumeAppendsNoRepeatedLine |
