# Percolation grid in Dafny

A model of the `Percolation` class of the percolation system (Percolation.java).
The class keeps an N-by-N grid of open and blocked sites, a counter of open
sites, and two weighted quick-union structures:

- `uf` has N*N + 2 elements. It holds the site elements 1..N*N, a virtual top
  node 0 and a virtual bottom node N*N + 1, and it answers `percolates()`.
- `ufbs` has N*N + 1 elements. It holds the site elements and the top node
  but no bottom node, and it answers `isFull(row, col)`. An open bottom-row
  site therefore never counts as full just because the grid percolates
  ("backwash").

The model is split into these modules:

- `UnionFind` (union_find.dfy) models the disjoint-set structure by its size
  and the set of pairs passed to `union`. `Connected` means "joined by a walk
  along recorded pairs", the equivalence class that `union` builds.
  `UnionMerges` proves that `union` merges exactly the two classes.
- `Grid` (grid.dfy) has sites, the row-major layout of the flags, the
  element numbering `encode` and its inverse, and adjacency. It also gives
  reference definitions of a full site (`ReachesTop`) and of percolation
  (`Spans`) as chains of adjacent open sites, stated without any union-find.
- `Percolation` (percolation.dfy) models the class itself. The object is an
  immutable `State`. Each mutating call returns the next state. Each call
  that throws in the source returns `Failure(InvalidArgument)` or
  `Failure(OutOfRange)` instead. `Replay` is the test client's loop of
  `open` calls.
- `PercolationInvariant` (invariant.dfy) holds the representation invariant
  `Valid`, which `new` establishes and `open` preserves. It fixes the union
  history of both views up to the order of each pair:
  - `ufbs` holds only (open row-0 site, top) pairs and pairs of adjacent open
    sites;
  - `uf` holds the same kinds of pair plus (open row-(N-1) site, bottom);
  - conversely, every such pair is present;
  - the counter equals the number of open flags.
- `PercolationTheorems` (theorems.dfy) proves what the queries mean under
  `Valid`:
  - `isFull` holds iff a chain of open sites leads from the site to row 0;
  - `percolates` holds iff a chain of open sites joins row 0 to row N-1;
  - `open` never undoes either.
- `PercolationScenarios` (scenarios.dfy) covers grids built from a fresh
  grid by `open` calls. It proves the open-column and backwash facts for any
  N, then instantiates them at N = 1 and N = 3.

The model follows the code. The source comment on `encode` says it yields an
ID in "1...N", but the code returns N*row + col + 1, which ranges over
1..N*N. `Grid.Encode` models what the code does.

## Model

| member | source | states |
|---|---|---|
| UnionFind.Connected | Percolation.java:102 | `connected(a, b)`: a and b are elements of the structure and a walk along pairs passed to `union`, each usable in either direction, leads from a to b. This is the equivalence class that the unions build, and it answers `ufbs.connected` in `isFull` and `uf.connected` in `percolates`. |
| UnionFind.Make | Percolation.java:38-41 | A new structure has the requested number of elements and records no union. |
| UnionFind.MakeSingletons | Percolation.java:38-41 | In a new structure, a and b are connected exactly when a is an element and a == b. |
| UnionFind.Union | Percolation.java:57-58 | `union(a, b)` keeps the size and leaves a and b connected. |
| UnionFind.UnionMerges | Percolation.java:69-70 | After `union(a, b)`, x and y are connected iff they already were, or one was with a and the other with b. The classes of a and b merge and nothing else changes. |
| UnionFind.UnionOfConnectedIsNoOp | Percolation.java:67-83 | A union of two elements that are already connected changes no `connected` answer. This is why the neighbour unions that `open` repeats on an open site do no harm. |
| UnionFind.ConnectedMonotone | Percolation.java:112-114 | Adding unions never separates two connected elements. |
| Grid.Encode | Percolation.java:117-123 | The element of an in-grid site lies in 1..N*N, so it is never the top node 0 or the bottom node N*N + 1. |
| Grid.EncodeInjective | Percolation.java:122 | Two in-grid sites have the same element iff they are the same site. |
| Grid.Decode | Percolation.java:122 | Every element in 1..N*N is the encoding of the in-grid site `Decode` returns, so `encode` is onto 1..N*N. That this site is the only one is `Grid.EncodeInjective`. |
| Grid.DecodeEncode | Percolation.java:122 | Decoding the element of an in-grid site gives that site back. |
| Grid.CountOpenSet | Percolation.java:51-53 | Setting one flag raises the number of set flags by one iff that flag was clear. |
| Grid.CountOpenIsCardinality | Percolation.java:107-109 | The recursive count of set flags equals the size of the set of positions whose flag is set. |
| Percolation.New | Percolation.java:16-42 | Fails with InvalidArgument iff N <= 0. Otherwise: every site is blocked, the counter is 0, `uf` has N*N + 2 elements and `ufbs` has N*N + 1. |
| Percolation.UnionBoth | Percolation.java:69-70 | Records the same pair in both views and changes nothing else. |
| Percolation.MarkOpen | Percolation.java:51-65 | The first opening sets exactly its own flag and adds one to the counter. It unions the site with the top node in both views iff the site is in row 0, and with the bottom node in `uf` only iff it is in row N-1. |
| Percolation.FirstOpening | Percolation.java:50-65 | The guarded first step of `open`: afterwards the site's flag is set, and the counter has grown by 1 iff the site was blocked. An open site is left as it was. |
| Percolation.LinkNeighbour | Percolation.java:68-71 | Adds the pair (site, neighbour) to both views iff the neighbour is inside the grid and open; otherwise nothing changes. |
| Percolation.Open | Percolation.java:45-84 | Fails with OutOfRange iff the site is outside the grid. Otherwise it sets the site's flag, adds 1 to the counter iff the site was blocked, and only ever adds unions. |
| Percolation.IsOpen | Percolation.java:87-93 | Fails with OutOfRange iff the site is outside the grid; otherwise returns the site's flag. |
| Percolation.IsFull | Percolation.java:96-104 | Fails with OutOfRange iff the site is outside the grid; it is true only for an open site. |
| Percolation.NumberOfOpenSites | Percolation.java:107-109 | Returns the counter. When the counter agrees with the flags, the answer is the number of open positions and at most N*N. `PercolationInvariant.CountIsOpenSites` shows the counter always agrees. |
| Percolation.Percolates | Percolation.java:112-114 | True iff the top and bottom nodes share a class of `uf`, in either order. `PercolationTheorems.PercolatesMeansSpans` gives its meaning as a chain of open sites. |
| Percolation.Replay | Percolation.java:130-135 | A sequence of `open` calls fails with OutOfRange iff one of its sites is outside the grid. |
| PercolationInvariant.NewValid | Percolation.java:16-42 | A new grid satisfies the representation invariant. |
| PercolationInvariant.OpenSetsOnlyItsSite | Percolation.java:51-52 | After `open(row, col)` a site is open iff it was open before or it is (row, col). |
| PercolationInvariant.OpenUnionsExact | Percolation.java:50-83 | The unions after `open` are those of the first-opening step plus one pair for each neighbour that is open after the call. |
| PercolationInvariant.OpenUnionsSound | Percolation.java:55-83 | Every pair `open` adds is (site, top) for a newly opened row-0 site, (site, bottom) in `uf` for a newly opened row-(N-1) site, or (site, adjacent open site). |
| PercolationInvariant.OpenUnionsComplete | Percolation.java:55-83 | `open` joins its site to every open neighbour in both views. When it opens the site, it also joins it to the top node (row 0) or the bottom node (row N-1, `uf` only). |
| PercolationInvariant.OpenValid | Percolation.java:45-84 | `open` preserves the representation invariant. |
| PercolationInvariant.OpenIdempotent | Percolation.java:44-84 | Opening a site again right after opening it returns the same state. |
| PercolationInvariant.CountIsOpenSites | Percolation.java:106-109 | `numberOfOpenSites()` equals the number of open sites and is at most N*N. |
| PercolationInvariant.ReplayValid | Percolation.java:130-135 | Every state reached by `open` calls from a valid state is valid. |
| PercolationTheorems.ChainConnects | Percolation.java:67-83 | A chain of adjacent open sites lies in one class of any view that joins every two adjacent open sites. |
| PercolationTheorems.WalkReachesTop | Percolation.java:101-102 | A walk in `ufbs` from a site's element to the top node yields a chain of open sites from that site to row 0. |
| PercolationTheorems.WalkReachesBottom | Percolation.java:112-114 | A walk in `uf` from the top node to the bottom node yields a chain of open sites from row 0 to row N-1. |
| PercolationTheorems.IsFullMeansReachesTop | Percolation.java:95-104 | For an in-grid site, `isFull` is true iff a chain of adjacent open sites leads from the site to an open row-0 site; out of range it fails. |
| PercolationTheorems.PercolatesMeansSpans | Percolation.java:111-114 | `percolates()` is true iff a chain of adjacent open sites joins an open row-0 site to an open row-(N-1) site. |
| PercolationTheorems.OpenChangesOnlyItsFlag | Percolation.java:86-93 | After `open(row, col)`, `isOpen` answers true at (row, col) and as before everywhere else, including the OutOfRange failures. |
| PercolationTheorems.OpenKeepsPercolation | Percolation.java:111-114 | `open` never turns a percolating grid into a non-percolating one. |
| PercolationTheorems.OpenKeepsFull | Percolation.java:95-104 | `open` never turns a full site into a non-full one. |
| PercolationTheorems.PercolatingJoinsBottomRowToTop | Percolation.java:61-64 | Once the grid percolates, `uf` puts every open row-(N-1) site in the top node's class. This is the backwash that a single structure would report. |
| PercolationTheorems.ReopenObservablySame | Percolation.java:44-84 | Opening a site that is already open, at any later time, leaves `numberOfOpenSites`, `isOpen`, `isFull` and `percolates` unchanged everywhere. The repeated neighbour unions may record new pairs, but they change no answer. |
| PercolationTheorems.ReplayOpensExactly | Percolation.java:130-135 | A sequence of `open` calls opens exactly the sites it names, on top of those already open. |
| PercolationScenarios.NewGridIsEmpty | Percolation.java:15-42 | A new grid has 0 open sites and does not percolate. In the grid, `isOpen` and `isFull` answer false; outside it they fail with OutOfRange. |
| PercolationScenarios.OpenSiteInTopAndBottomRow | Percolation.java:55-64 | Opening a blocked site that is in both row 0 and row N-1 makes the grid percolate and the site full. |
| PercolationScenarios.SingleSiteGrid | Percolation.java:45-84 | With N = 1, `open(0, 0)` succeeds, the grid percolates, (0, 0) is full and one site is open. |
| PercolationScenarios.BuiltOpenSites | Percolation.java:130-135 | In a grid built from a new one by `open` calls, a site is open iff it is in the grid and among the opened sites. |
| PercolationScenarios.BuiltValid | Percolation.java:130-135 | A grid built from a new one by `open` calls satisfies the representation invariant. |
| PercolationScenarios.BuiltPercolates | Percolation.java:111-114 | In a built grid, `percolates()` is true iff a chain of open sites joins row 0 to row N-1. |
| PercolationScenarios.BuiltIsFull | Percolation.java:95-104 | In a built grid, `isFull` of an in-grid site is true iff a chain of open sites leads from it to row 0. |
| PercolationScenarios.BuiltOpenRowPrefix | Percolation.java:76-83 | If the sites (row, 0) to (row, k) were all opened, (row, 0) and (row, k) are in one class in both views. |
| PercolationScenarios.BuiltOpenRow | Percolation.java:76-83 | If every site of a row was opened, the two ends of the row are in one class in both views. |
| PercolationScenarios.BuiltWithoutTopRow | Percolation.java:96-114 | If no row-0 site was opened, the grid does not percolate and no site is full. |
| PercolationScenarios.BuiltOpenColumn | Percolation.java:67-75 | If every site of a column was opened, the grid percolates and every site of the column is full. |
| PercolationScenarios.BuiltBackwash | Percolation.java:96-104 | Setup: a column was opened, and so was an isolated row-(N-1) site with no opened neighbour. Then the grid percolates and `uf` joins the site to the top node, yet `isFull` says false. |
| PercolationScenarios.BottomRowOnly | Percolation.java:130-135 | N = 3, only the bottom row opened: (2, 0) shares a class with (2, 1) and with (2, 2) in both `uf` and `ufbs`, so the three sites are one class of each view, yet the grid does not percolate and none of them is full. |
| PercolationScenarios.MiddleColumn | Percolation.java:130-135 | N = 3, the middle column opened: the grid percolates and (2, 1) is full. |
| PercolationScenarios.BackwashAvoided | Percolation.java:130-135 | N = 3, the left column and (2, 2) opened: the grid percolates and `uf` joins (2, 2) to the top node, yet `isFull(2, 2)` is false. |

## Left out

- PercolationStats.java, the Monte Carlo estimator, is not modelled. It
  draws random sites and computes floating-point statistics.
- The internals of WeightedQuickUnionUF are not modelled: the parent array,
  the size-weighted linking and `find` belong to a library outside this
  repository. `UnionFind` models only what the grid relies on: the size, and
  `connected` as the equivalence closure of the recorded unions.
- UnionFind.Union: the library's own check that both elements are in range
  is a precondition here. Every call from the grid passes elements in range.
- Grid.Encode: the bounds check at the start of `encode` (lines 118-120) is a
  precondition here. Every caller passes an in-grid site, so the exception
  cannot be thrown.
- Percolation.New: 32-bit overflow of N*N + 2 is not modelled. For
  N >= 46341 the Java product wraps around, while the model uses unbounded
  integers.
- Percolation.IsFull and Percolation.Percolates are ghost. `connected` is
  defined by the existence of a walk, so they have no executable body.
- The test client's input and output are not modelled: reading N and the
  sites from a file, and printing the count and the verdict. The loop of
  `open` calls is modelled by `Replay`.
- The two-dimensional `boolean[][]` is a flat row-major sequence of N*N
  flags. The exception message texts are not modelled.
