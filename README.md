# Percolation in Dafny

A model of `Percolation`: an N-by-N grid of sites, each blocked or open, and
two weighted quick-union structures over N*N+2 elements. Element 0 is the
virtual top, elements 1 .. N*N are the sites row by row (`encode`), and N*N+1
is the virtual bottom. `open` marks a site open, counts it and joins it to its
open neighbours. A site in the first row is also joined to the virtual top;
a site in the last row is joined to the virtual bottom, in `uf1` only. `uf2`
never touches the bottom, so asking it for fullness avoids "backwash". The
system percolates when the top and the bottom are connected in `uf1`.

The project has seven modules, one per file:

- `QuickUnion` (quick_union.dfy): weighted quick-union on values.
  - A `Forest` is a pair of parent and size sequences.
  - `Find` walks parent links without path compression.
  - `Union` hangs the smaller tree's root under the larger one's. On equal sizes, q's root goes under p's.
  - The module also proves what a run of unions (`UnionAll`) does.
- `UnionFind` (union_find.dfy): the class `WeightedQuickUnionUF` over `parent` and `size` arrays, proved against `QuickUnion`.
- `Grid` (grid.dfy): `encode` and its inverse, and the number of open sites of a grid.
- `PercolationModel` (model.dfy): the percolation system as a value.
  - The operations are `Init`, `Open`, `IsOpen`, `IsFull`, `NumberOfOpenSites` and `Percolates`.
  - Each call of `open` is described as the ordered list of unions it makes in each structure.
  - It also holds the invariant every reachable system keeps.
- `Flow` (flow.dfy): the meaning of both structures.
  - Two elements are connected exactly when water can pass between them through open sites.
  - For `uf1`, the passage may use the links of the last row to the virtual bottom.
  - For `uf2`, it may not.
- `Percolations` (percolation.dfy): the class `Percolation`.
  - Its state is a `bool` array2, the counter and two `WeightedQuickUnionUF` objects.
  - Every method is proved against `PercolationModel`.
  - `Valid()` carries the model's invariant and the path meaning.
- `Scenarios` (scenarios.dfy):
  - a client's sequence of `open` calls, and the facts about every reachable system;
  - three concrete runs: a 1-by-1 grid that percolates, and the two runs behind the finding below.

Java's exceptions become error values. `IllegalArgumentException` for N <= 0
is `Err(InvalidSize)`, and `IndexOutOfBoundsException` is `Err(OutOfRange)` or
`Fail(OutOfRange)`. Both are raised before any state changes.

The class comment at Percolation.java:8-9 says that `uf2` decides fullness.
One might expect the two structures to agree on which open sites are
connected to the top, but the code does not keep that agreement. Once the
system percolates, `uf1` connects the top to sites that only the bottom
reaches (`Scenarios.ReportedBackwash`). The model follows the
code: `uf2` refines `uf1`, and not the other way round.

## Model

| member | source | states |
|---|---|---|
| `Grid.Encode` | Percolation.java:112-115 | the index of an in-grid site lies in 1 .. N*N, so it is never the virtual top 0 or the virtual bottom N*N+1 |
| `Grid.Decode` | Percolation.java:112-115 | every index in 1 .. N*N is the index of some in-grid site (encode is onto 1 .. N*N) |
| `Grid.DecodeEncode` | Percolation.java:113-115 | decoding the index of a site gives back the site |
| `Grid.EncodeInjective` | Percolation.java:113-115 | two in-grid sites have the same index if and only if they are the same site |
| `Grid.CountOpenCell` | Percolation.java:40-42 | opening a blocked site adds exactly one to the number of open sites; opening an open one adds nothing |
| `Grid.CountOpenBlocked` | Percolation.java:27-31 | a grid with every site blocked has no open site |
| `Grid.CountOpenBound` | Percolation.java:103-105 | an N-by-N grid has at most N*N open sites |
| `Grid.Blocked` | Percolation.java:27-31 | the grid of a new system is N by N and every site in it is blocked |
| `Grid.OpenCell` | Percolation.java:41 | `sites[row][col] = true`: the grid keeps its shape, the site becomes open and every other site keeps its state |
| `QuickUnion.Singletons` | Percolation.java:24-25 | `new WeightedQuickUnionUF(n)`: n elements, each its own parent with size 1 |
| `QuickUnion.Find` | Percolation.java:99 | `find` follows parent links to a root (no path compression) and returns an element of the universe; `QuickUnion.FindFindsRoot` proves it is a root |
| `QuickUnion.Union` | Percolation.java:48-79 | `union(p, q)` hangs the root of the smaller tree under the other root, and on equal sizes q's root under p's; the result is a forest over the same elements, and the structure is unchanged when p and q already share a root |
| `QuickUnion.SingletonsValid` | Percolation.java:24-25 | a new structure is a valid forest in which every element is its own root |
| `QuickUnion.FindFindsRoot` | Percolation.java:99 | `find` returns a root, and a root is its own representative |
| `QuickUnion.UnionFinds` | Percolation.java:48-49 | `union` keeps the forest valid; afterwards every element of the two merged trees has the winning root and every other element keeps its root |
| `QuickUnion.UnionConnects` | Percolation.java:48-49 | after `union(p, q)`, i and j are connected exactly when they were before, or one lay in p's set and the other in q's |
| `QuickUnion.UnionKeepsIsolated` | Percolation.java:79 | a union of p and q, both different from x, leaves x alone in its set |
| `QuickUnion.UnionKeepsRefines` | Percolation.java:55-56 | the same union applied to a finer and to a coarser structure keeps the first finer |
| `QuickUnion.UnionRefines` | Percolation.java:48-49 | a union never separates two connected elements and connects p with q |
| `QuickUnion.UnionAllSingle` | Percolation.java:48 | a one-pair run of unions is that union |
| `QuickUnion.UnionAllAppend` | Percolation.java:47-80 | running the unions of ps and then those of qs is running the unions of ps + qs |
| `QuickUnion.UnionAllRefines` | Percolation.java:47-80 | a run of unions keeps the forest valid, never separates, and connects every pair it names |
| `QuickUnion.UnionAllKeepsIsolated` | Percolation.java:77-80 | a run of unions that never names x leaves x alone |
| `QuickUnion.UnionAllKeepsRefines` | Percolation.java:47-75 | the same run of unions on a finer and on a coarser structure keeps the first finer |
| `UnionFind.WeightedQuickUnionUF.constructor` | Percolation.java:24-25 | a new structure over n elements is n singletons, each of size 1 |
| `UnionFind.WeightedQuickUnionUF.Find` | Percolation.java:99 | the loop over parent links returns the root `QuickUnion.Find` names, and that element is a root |
| `UnionFind.WeightedQuickUnionUF.Union` | Percolation.java:48-79 | the arrays afterwards are `QuickUnion.Union` of the arrays before: the smaller tree goes under the larger; on equal sizes, q's root goes under p's |
| `PercolationModel.Init` | Percolation.java:17-32 | N <= 0 fails with InvalidSize; otherwise an N-by-N grid with every site blocked and a count of 0, which equals the number of open sites |
| `PercolationModel.JoinIfOpen` | Percolation.java:54-67 | the only union that joining a neighbour makes is to that neighbour, and only when it is open |
| `PercolationModel.ConnectAboveAndBeside` | Percolation.java:46-69 | every union of the new site in the first part of `open` links the site to the virtual top or to a site |
| `PercolationModel.ConnectBelow` | Percolation.java:71-80 | every union of the new site in the second part of `open` links it to a site or to the virtual bottom |
| `PercolationModel.Unions` | Percolation.java:46-80 | every union that `open` makes names elements of the N*N+2 universe |
| `PercolationModel.UnionsWithBottom` | Percolation.java:71-80 | `uf1` makes exactly the unions that `uf2` makes, plus, for a site of the last row, one to the virtual bottom |
| `PercolationModel.UnionsJoinSite` | Percolation.java:46-80 | every union that `open` makes joins the new site to the virtual top, to an open site, or (in `uf1` only) to the virtual bottom |
| `PercolationModel.OpenSite` | Percolation.java:40-81 | the site becomes open and nothing else in the grid changes; the count grows by one exactly when the site was blocked; when the site is already open, the whole system (grid, count, `uf1` and `uf2`) is left unchanged |
| `PercolationModel.Open` | Percolation.java:35-38 | coordinates outside the grid fail with OutOfRange, and only those |
| `PercolationModel.IsOpen` | Percolation.java:85-91 | coordinates outside the grid fail with OutOfRange, and only those |
| `PercolationModel.IsFullAsWritten` | Percolation.java:94-99 | coordinates outside the grid fail with OutOfRange, and only those (the comparison of line 99, as written) |
| `PercolationModel.IsFull` | Percolation.java:94-100 | coordinates outside the grid fail with OutOfRange, and only those (the intended comparison, both roots from `uf2`) |
| `PercolationModel.NumberOfOpenSites` | Percolation.java:103-105 | `numberOfOpenSites` returns the counter, which in a system satisfying the invariant is the number of open sites of the grid (`PercolationModel.OpenSitesBound` bounds it by N*N) |
| `PercolationModel.Percolates` | Percolation.java:108-110 | `percolates` compares the roots of the virtual bottom and the virtual top in `uf1`; when it answers true, the top is not alone in `uf1` (`Flow.PercolatesMeansPath` gives the path meaning) |
| `PercolationModel.UnionsRefine` | Percolation.java:44-80 | since `open` makes in `uf1` every union it makes in `uf2`, `uf2` stays a refinement of `uf1` |
| `PercolationModel.UnionsKeepBottomAlone` | Percolation.java:77-80 | no union of `uf2` names the virtual bottom, so it stays a singleton there |
| `PercolationModel.UnionsKeepBlockedAlone` | Percolation.java:52-75 | `open` never names a blocked site in a union |
| `PercolationModel.OpenSiteLinked` | Percolation.java:40-81 | opening a blocked site keeps both structures valid, keeps the bottom alone in `uf2`, keeps `uf2` finer than `uf1` and keeps every blocked site alone |
| `PercolationModel.InitInv` | Percolation.java:17-32 | a new system satisfies the invariant: valid forests, bottom alone in `uf2`, `uf2` finer than `uf1`, blocked sites alone, count = number of open sites |
| `PercolationModel.OpenSiteInv` | Percolation.java:40-81 | `open` preserves that invariant |
| `PercolationModel.IsolatedIsRoot` | Percolation.java:99 | an element alone in its set is its own root |
| `PercolationModel.BlockedNeverFull` | Percolation.java:94-99 | a blocked site is never full, by the comparison as written and by the intended one |
| `PercolationModel.OpenSiteIdempotent` | Percolation.java:40 | after `open` the site is open, so opening it a second time straight away is the same as opening it once |
| `PercolationModel.OpenSitesBound` | Percolation.java:103-105 | the count lies between 0 and N*N |
| `Flow.PathWidens` | Percolation.java:41 | opening a site never removes a path |
| `Flow.TracksPaths` | Percolation.java:99 | in a structure that tracks paths, two elements are connected exactly when a path joins them |
| `Flow.InitFaithful` | Percolation.java:17-32 | in a new system both structures connect exactly the pairs a path joins (only equal elements) |
| `Flow.UnionAllSound` | Percolation.java:47-80 | a run of unions each of whose pairs a path joins connects only elements that a path joins |
| `Flow.UnionsAreEdges` | Percolation.java:46-80 | every union `open` makes follows an edge of the grid after the site is open |
| `Flow.OpenSiteFaithful` | Percolation.java:40-81 | after `open`, `uf1` connects exactly the pairs an open path joins when the last row may use the virtual bottom, and `uf2` exactly those it joins when it may not |
| `Flow.FullMeansPath` | Percolation.java:93-100 | the intended `isFull` answers true exactly when an open path leads from the virtual top to the site without the virtual bottom |
| `Flow.PercolatesMeansPath` | Percolation.java:107-110 | `percolates` answers true exactly when an open path leads from the virtual top to the virtual bottom |
| `Flow.TopRowFull` | Percolation.java:47-50 | an open site of the first row is full by the intended test (`PercolationModel.IsFull`); line 99 can miss it (`Scenarios.MissedFullSite`) |
| `Flow.FullAsWrittenThroughBottom` | Percolation.java:99 | when the comparison as written answers true, some path leads from the site to the top if the bottom links may be used |
| `Percolations.Percolation.constructor` | Percolation.java:17-32 | the new object's state is `Init(N)`, and it is valid |
| `Percolations.NewPercolation` | Percolation.java:19-20 | `new Percolation(N)` fails with InvalidSize exactly when N <= 0; otherwise its state is `Init(N)` |
| `Percolations.Percolation.BlockedSites` | Percolation.java:27-31 | the array is N by N and every site in it is blocked |
| `Percolations.Percolation.Open` | Percolation.java:35-82 | outside the grid, fails and changes nothing; inside, the new state is `OpenSite` of the old one and the object stays valid |
| `Percolations.Percolation.OpenBlocked` | Percolation.java:40-81 | opening a blocked site takes the state to `OpenSite` of the old state |
| `Percolations.Percolation.LinkBoth` | Percolation.java:48-49 | one union in both structures, the grid unchanged |
| `Percolations.Percolation.JoinIfOpen` | Percolation.java:54-67 | the union with one neighbour, made in both structures when the neighbour is open |
| `Percolations.Percolation.ConnectAboveAndBeside` | Percolation.java:46-69 | the unions with the top or with the open neighbours above, left and right, in the model's order |
| `Percolations.Percolation.ConnectBelow` | Percolation.java:71-80 | the union with the open neighbour below, or, in the last row, with the bottom in `uf1` only |
| `Percolations.Percolation.IsOpen` | Percolation.java:85-91 | the model's answer: OutOfRange outside the grid, otherwise the site's state |
| `Percolations.Percolation.IsFull` | Percolation.java:94-100 | the model's intended answer; true exactly when an open path leads from the top to the site; false for a blocked site |
| `Percolations.Percolation.IsFullAsWritten` | Percolation.java:94-99 | the model's answer as line 99 computes it; false for a blocked site |
| `Percolations.Percolation.NumberOfOpenSites` | Percolation.java:103-105 | the counter equals the number of open sites of the grid, between 0 and N*N |
| `Percolations.Percolation.Percolates` | Percolation.java:108-110 | the model's answer; true exactly when an open path leads from the top row to the bottom row |
| `Scenarios.Replay` | Percolation.java:35-38 | a sequence of `open` calls fails with OutOfRange exactly when some call names a site outside the grid |
| `Scenarios.ReplayKeeps` | Percolation.java:35-82 | a sequence of `open` calls keeps the invariant and the path meaning, never closes a site and never lowers the count |
| `Scenarios.Reachable` | Percolation.java:17-82 | every system reachable from a new grid satisfies the invariant and the path meaning, with a count between 0 and N*N |
| `Scenarios.ReplayAppend` | Percolation.java:35-82 | a run of calls followed by a second run is the concatenated run; an error in the first run ends both |
| `Scenarios.ReplayKeepsOpen` | Percolation.java:40-41 | no run of `open` calls closes a site that is open |
| `Scenarios.ReopenChangesNothing` | Percolation.java:40 | once a run has opened a site, opening it again after any further calls leaves the whole system (grid, count, `uf1`, `uf2`) exactly as it was |
| `Scenarios.SingleSitePercolates` | Percolation.java:108-110 | on a 1-by-1 grid, `open(0, 0)` makes the system percolate |
| `Scenarios.MissedFullSite` | Percolation.java:99 | after open(1,0), open(1,1), open(0,0) on a 2-by-2 grid, line 99 calls site (0,0) not full, though a path joins it to the top and the intended answer is true |
| `Scenarios.ReportedBackwash` | Percolation.java:99 | after open(2,0), open(2,2), open(1,2), open(0,2) on a 3-by-3 grid, the system percolates; line 99 calls site (2,0) full, though no path reaches it from the top without the bottom, and the intended answer is false |

## Left out

- `PercolationStats.java` is not part of this model. It draws random sites, times runs and computes statistics.
- The `main` test client (Percolation.java:118-142) is not part of this model. It is file and console I/O.
- The library `WeightedQuickUnionUF` is a stand-in. Only its parent and size arrays, `find` without path compression, and `union` by size are modelled.
- The library's own index checks are not modelled. `Percolation` only ever passes indices in 0 .. N*N+1.
- The library's `count` is not modelled, and its `connected` appears only as the specification predicate `QuickUnion.Connected`. `Percolation` calls neither, and the class `WeightedQuickUnionUF` here offers no such methods.
- Java `int` is unbounded here. `N * N + 2` overflows 32 bits for N >= 46341, and that overflow is not modelled.
- Exceptions become error values. Their messages are not modelled.
- The row-0 branch of `open` (Percolation.java:47-50) makes no left or right unions. The model keeps that. No connection is lost, because both neighbours in row 0 are joined to the virtual top.
- The unions of one `open` call are specified as an ordered list. The class is proved to perform exactly those unions in that order.
- `Percolations.Percolation.IsFull`: the class uses the intended comparison. The comparison of line 99 is kept as `IsFullAsWritten` beside it (see Findings).

## Findings

| source | as written | input that shows it | evidently intended | confidence | as-written member | corrected member |
|---|---|---|---|---|---|---|
| Percolation.java:99 | `isFull` compares the site's root in `uf2` with the virtual top's root in `uf1` (modelled by `PercolationModel.IsFullAsWritten`); roots in two different structures need not coincide even when the site is connected to the top | N = 2; open(1,0), open(1,1), open(0,0); then isFull(0,0) is false for an open top-row site | compare the site's root in `uf2` with the virtual top's root in `uf2`, which gives true for (0,0) (`Flow.FullMeansPath`, `Flow.TopRowFull`) | not executed | `Scenarios.MissedFullSite` | `PercolationModel.IsFull` |
| Percolation.java:99 | `isFull` answers true when the site's own root in `uf2` is the root that `uf1` gives the top through the bottom row: the backwash that `uf2` was added to avoid | N = 3; open(2,0), open(2,2), open(1,2), open(0,2); then isFull(2,0) is true although no open path reaches (2,0) from the top | the same `uf2`-only comparison, which gives false for (2,0) (`Flow.FullMeansPath`) | not executed | `Scenarios.ReportedBackwash` | `PercolationModel.IsFull` |
