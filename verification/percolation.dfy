/**
 The percolation grid (class Percolation): an N-by-N grid of open/blocked
 sites, a counter of open sites, and two disjoint-set views over the site
 elements 1..N*N. `uf` also holds the virtual top node 0 and the virtual
 bottom node N*N + 1 and answers `percolates`; `ufbs` holds the virtual top
 node only and answers `isFull`, so that an open bottom-row site is never
 reported full through the bottom node once the grid percolates
 ("backwash").

 The object is modelled as an immutable state; each mutating call returns
 the next state, and each call that throws in the source returns `Failure`
 instead, leaving the caller's state as it was.
 */
module Percolation {
  import opened UnionFind
  import opened Grid

  /** IllegalArgumentException and IndexOutOfBoundsException. */
  datatype Error = InvalidArgument | OutOfRange

  datatype Result<T> = Success(value: T) | Failure(error: Error)

  datatype State = State(n: int, open: seq<bool>, countOpen: int, uf: UF, ufbs: UF)

  /** The virtual top node, in both views. */
  const Top: int := 0

  /** The virtual bottom node, in `uf` only. */
  function Bottom(n: int): int {
    n * n + 1
  }

  /** The shape every constructed grid has: a positive size, one flag per
      site, N*N + 2 elements in `uf` and N*N + 1 in `ufbs`. */
  predicate WellFormed(g: State) {
    && g.n >= 1
    && |g.open| == g.n * g.n
    && g.uf.size == g.n * g.n + 2
    && g.ufbs.size == g.n * g.n + 1
  }

  predicate SiteOpen(g: State, s: Site) {
    OpenAt(g.n, g.open, s)
  }

  /** `new Percolation(N)`. */
  function New(n: int): (r: Result<State>)
    ensures r.Failure? <==> n <= 0
    ensures r.Failure? ==> r.error == InvalidArgument
    ensures r.Success? ==> WellFormed(r.value) && r.value.n == n
    ensures r.Success? ==> r.value.countOpen == 0 && forall s :: !SiteOpen(r.value, s)
  {
    if n <= 0 then Failure(InvalidArgument)
    else
      assert n * n >= 0 by {
        MultiplyLeftMonotone(n, 0, n);
      }
      Success(State(n, seq(n * n, _ => false), 0, Make(n * n + 2), Make(n * n + 1)))
  }

  /** `union(a, b)` applied to both views. */
  function UnionBoth(g: State, a: int, b: int): (r: State)
    requires WellFormed(g) && 1 <= a <= g.n * g.n && 1 <= b <= g.n * g.n
    ensures WellFormed(r) && r.n == g.n && r.open == g.open && r.countOpen == g.countOpen
    ensures r.uf.unions == g.uf.unions + {(a, b)}
    ensures r.ufbs.unions == g.ufbs.unions + {(a, b)}
  {
    g.(uf := Union(g.uf, a, b), ufbs := Union(g.ufbs, a, b))
  }

  /** The first opening of a blocked site: set its flag, count it, and join
      it to the virtual top node in both views when it is in row 0 and to the
      virtual bottom node in `uf` only when it is in row N - 1. */
  function MarkOpen(g: State, x: Site): (r: State)
    requires WellFormed(g) && InGrid(g.n, x)
    ensures WellFormed(r) && r.n == g.n
    ensures r.open == g.open[Index(g.n, x) := true]
    ensures r.countOpen == g.countOpen + 1
    ensures r.ufbs.unions ==
              g.ufbs.unions + (if x.row == 0 then {(Encode(g.n, x), Top)} else {})
    ensures r.uf.unions ==
              g.uf.unions + (if x.row == 0 then {(Encode(g.n, x), Top)} else {})
              + (if x.row == g.n - 1 then {(Encode(g.n, x), Bottom(g.n))} else {})
  {
    var id := Encode(g.n, x);
    var uf1 := if x.row == 0 then Union(g.uf, id, Top) else g.uf;
    var ufbs1 := if x.row == 0 then Union(g.ufbs, id, Top) else g.ufbs;
    var uf2 := if x.row == g.n - 1 then Union(uf1, id, Bottom(g.n)) else uf1;
    State(g.n, g.open[Index(g.n, x) := true], g.countOpen + 1, uf2, ufbs1)
  }

  /** The first step of `open`: the first-opening work for a blocked site,
      nothing for an open one. */
  function FirstOpening(g: State, x: Site): (r: State)
    requires WellFormed(g) && InGrid(g.n, x)
    ensures WellFormed(r) && r.n == g.n
    ensures r.open == g.open[Index(g.n, x) := true]
    ensures r.countOpen == g.countOpen + (if SiteOpen(g, x) then 0 else 1)
  {
    assert SiteOpen(g, x) ==> g.open[Index(g.n, x) := true] == g.open;
    if SiteOpen(g, x) then g else MarkOpen(g, x)
  }

  /** The union `open` at `x` makes with neighbour `t`, judged in `g`. */
  function NeighbourUnion(g: State, x: Site, t: Site): set<(int, int)>
    requires WellFormed(g) && InGrid(g.n, x)
  {
    if SiteOpen(g, t) then {(Encode(g.n, x), Encode(g.n, t))} else {}
  }

  /** Join `x` to its neighbour `t` in both views when `t` is inside the
      grid and open. */
  function LinkNeighbour(g: State, x: Site, t: Site): (r: State)
    requires WellFormed(g) && InGrid(g.n, x)
    ensures WellFormed(r) && r.n == g.n && r.open == g.open && r.countOpen == g.countOpen
    ensures r.uf.unions == g.uf.unions + NeighbourUnion(g, x, t)
    ensures r.ufbs.unions == g.ufbs.unions + NeighbourUnion(g, x, t)
  {
    if InGrid(g.n, t) && SiteOpen(g, t) then UnionBoth(g, Encode(g.n, x), Encode(g.n, t))
    else g
  }

  /** `open(row, col)`. The flag, the counter and the unions with the virtual
      nodes change only when the site was blocked; the four neighbour unions
      run on every call, also when the site was already open. */
  function Open(g: State, row: int, col: int): (r: Result<State>)
    requires WellFormed(g)
    ensures r.Failure? <==> !InGrid(g.n, Site(row, col))
    ensures r.Failure? ==> r.error == OutOfRange
    ensures r.Success? ==> WellFormed(r.value) && r.value.n == g.n
    ensures r.Success? ==> r.value.open == g.open[Index(g.n, Site(row, col)) := true]
    ensures r.Success? ==>
              r.value.countOpen == g.countOpen + (if SiteOpen(g, Site(row, col)) then 0 else 1)
    ensures r.Success? ==> g.uf.unions <= r.value.uf.unions && g.ufbs.unions <= r.value.ufbs.unions
  {
    var x := Site(row, col);
    if !InGrid(g.n, x) then Failure(OutOfRange)
    else
      var g1 := FirstOpening(g, x);
      var g2 := LinkNeighbour(g1, x, Site(row - 1, col));
      var g3 := LinkNeighbour(g2, x, Site(row + 1, col));
      var g4 := LinkNeighbour(g3, x, Site(row, col - 1));
      var g5 := LinkNeighbour(g4, x, Site(row, col + 1));
      Success(g5)
  }

  /** `isOpen(row, col)`. */
  function IsOpen(g: State, row: int, col: int): (r: Result<bool>)
    requires WellFormed(g)
    ensures r.Failure? <==> !InGrid(g.n, Site(row, col))
    ensures r.Failure? ==> r.error == OutOfRange
    ensures r.Success? ==> (r.value <==> g.open[Index(g.n, Site(row, col))])
  {
    var x := Site(row, col);
    if !InGrid(g.n, x) then Failure(OutOfRange) else Success(SiteOpen(g, x))
  }

  /** `isFull(row, col)`: an open site connected to the virtual top node in
      the view without a bottom node. */
  ghost function IsFull(g: State, row: int, col: int): (r: Result<bool>)
    requires WellFormed(g)
    ensures r.Failure? <==> !InGrid(g.n, Site(row, col))
    ensures r.Failure? ==> r.error == OutOfRange
    ensures r == Success(true) ==> SiteOpen(g, Site(row, col))
  {
    var x := Site(row, col);
    if !InGrid(g.n, x) then Failure(OutOfRange)
    else if SiteOpen(g, x) then Success(Connected(g.ufbs, Encode(g.n, x), Top))
    else Success(false)
  }

  /** `numberOfOpenSites()`: the counter. When the counter agrees with the
      flags, it is the number of open positions, at most the number of
      sites. */
  function NumberOfOpenSites(g: State): (r: int)
    ensures g.countOpen == CountOpen(g.open) ==>
              r == |OpenPositions(g.open)| && 0 <= r <= |g.open|
  {
    CountOpenIsCardinality(g.open);
    g.countOpen
  }

  /** `percolates()`: the virtual top and bottom nodes share a class of
      `uf`, which holds in either order. */
  ghost function Percolates(g: State): (b: bool)
    ensures b <==> Connected(g.uf, Bottom(g.n), Top)
  {
    ConnectedSymmetricIff(g.uf, Top, Bottom(g.n));
    Connected(g.uf, Top, Bottom(g.n))
  }

  /** A sequence of `open` calls, as the grid's test client issues them;
      the first out-of-range site aborts the sequence. */
  function Replay(g: State, ops: seq<Site>): (r: Result<State>)
    requires WellFormed(g)
    ensures r.Failure? <==> exists i | 0 <= i < |ops| :: !InGrid(g.n, ops[i])
    ensures r.Failure? ==> r.error == OutOfRange
    ensures r.Success? ==> WellFormed(r.value) && r.value.n == g.n
    decreases |ops|
  {
    if |ops| == 0 then Success(g)
    else
      match Open(g, ops[0].row, ops[0].col)
      case Failure(e) => Failure(e)
      case Success(g') =>
        var r := Replay(g', ops[1..]);
        assert forall i | 1 <= i < |ops| :: ops[i] == ops[1..][i - 1];
        r
  }
}
