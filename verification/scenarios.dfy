/**
 Concrete grids: the empty grid, the one-site grid, and three-by-three grids
 that show percolation along a column and the backwash problem the second
 view avoids. The general facts come first, stated for a grid of any size
 built from a fresh one by a sequence of `open` calls; the concrete
 scenarios only instantiate them.
 */
module PercolationScenarios {
  import opened UnionFind
  import opened Grid
  import opened Percolation
  import opened PercolationInvariant
  import opened PercolationTheorems

  /** A new grid has no open site, no full site, and does not percolate. */
  lemma NewGridIsEmpty(n: int, row: int, col: int)
    requires n >= 1
    ensures NumberOfOpenSites(New(n).value) == 0
    ensures !Percolates(New(n).value)
    ensures IsOpen(New(n).value, row, col) ==
              if InGrid(n, Site(row, col)) then Success(false) else Failure(OutOfRange)
    ensures IsFull(New(n).value, row, col) ==
              if InGrid(n, Site(row, col)) then Success(false) else Failure(OutOfRange)
  {
    MakeSingletons(n * n + 2, Top, Bottom(n));
  }

  /** Opening a blocked site that lies in both row 0 and row N-1 (so N = 1)
      makes the grid percolate and the site full. */
  lemma OpenSiteInTopAndBottomRow(g: State, x: Site)
    requires WellFormed(g) && InGrid(g.n, x) && !SiteOpen(g, x)
    requires x.row == 0 && x.row == g.n - 1
    ensures var r := Open(g, x.row, x.col).value;
            Percolates(r) && IsFull(r, x.row, x.col) == Success(true)
  {
    OpenUnionsComplete(g, x.row, x.col);
    var r := Open(g, x.row, x.col).value;
    var id := Encode(g.n, x);
    LinkedConnected(r.ufbs, id, Top);
    LinkedConnected(r.uf, Top, id);
    LinkedConnected(r.uf, id, Bottom(r.n));
    ConnectedTransitive(r.uf, Top, id, Bottom(r.n));
  }

  /** With N = 1 opening the only site makes the grid percolate and the site
      full. */
  lemma SingleSiteGrid()
    ensures Open(New(1).value, 0, 0).Success?
    ensures var g := Open(New(1).value, 0, 0).value;
            Percolates(g) && IsFull(g, 0, 0) == Success(true) && NumberOfOpenSites(g) == 1
  {
    var g0 := New(1).value;
    assert WellFormed(g0) && g0.n == 1 && g0.countOpen == 0;
    assert !SiteOpen(g0, Site(0, 0));
    OpenSiteInTopAndBottomRow(g0, Site(0, 0));
  }

  /** A grid built from a fresh one by `open` calls has exactly the named
      sites open. */
  lemma BuiltOpenSites(n: int, ops: seq<Site>, s: Site)
    requires n >= 1 && Replay(New(n).value, ops).Success?
    ensures Replay(New(n).value, ops).value.n == n
    ensures SiteOpen(Replay(New(n).value, ops).value, s) <==> InGrid(n, s) && s in ops
  {
    ReplayOpensExactly(New(n).value, ops, s);
    if s in ops {
      var i :| 0 <= i < |ops| && ops[i] == s;
    }
  }

  /** A grid built from a fresh one by `open` calls keeps the invariant. */
  lemma BuiltValid(n: int, ops: seq<Site>)
    requires n >= 1 && Replay(New(n).value, ops).Success?
    ensures Valid(Replay(New(n).value, ops).value)
  {
    NewValid(n);
    ReplayValid(New(n).value, ops);
  }

  /** Percolation of a built grid is the reference notion. */
  lemma BuiltPercolates(n: int, ops: seq<Site>)
    requires n >= 1 && Replay(New(n).value, ops).Success?
    ensures var g := Replay(New(n).value, ops).value;
            Percolates(g) <==> Spans(n, g.open)
  {
    BuiltValid(n, ops);
    PercolatesMeansSpans(Replay(New(n).value, ops).value);
  }

  /** Fullness of a site of a built grid is the reference notion. */
  lemma BuiltIsFull(n: int, ops: seq<Site>, row: int, col: int)
    requires n >= 1 && Replay(New(n).value, ops).Success? && InGrid(n, Site(row, col))
    ensures var g := Replay(New(n).value, ops).value;
            IsFull(g, row, col) == Success(ReachesTop(n, g.open, Site(row, col)))
  {
    BuiltValid(n, ops);
    IsFullMeansReachesTop(Replay(New(n).value, ops).value, row, col);
  }

  /** The second site of a chain, when there is one, is open and adjacent
      to the first. */
  lemma ChainSecondSite(n: int, open: seq<bool>, p: seq<Site>)
    requires IsChain(n, open, p)
    ensures |p| >= 2 ==> OpenAt(n, open, p[1]) && Adjacent(p[0], p[1])
  {
  }

  /** An open site outside row 0 with no open neighbour is not full. */
  lemma IsolatedSiteNotFull(n: int, open: seq<bool>, s: Site)
    requires s.row != 0
    requires forall t | OpenAt(n, open, t) :: !Adjacent(s, t)
    ensures !ReachesTop(n, open, s)
  {
    forall p: seq<Site> | IsChain(n, open, p) && p[0] == s
      ensures p[|p| - 1].row != 0
    {
      ChainSecondSite(n, open, p);
    }
  }

  /** When every site of column `col` is open, the column joins row 0 to
      row N-1 and every site of it reaches row 0. */
  lemma OpenColumn(n: int, open: seq<bool>, col: int, row: int)
    requires n >= 1 && 0 <= row < n
    requires forall r | 0 <= r < n :: OpenAt(n, open, Site(r, col))
    ensures Spans(n, open) && ReachesTop(n, open, Site(row, col))
  {
    var down := seq(n, r requires 0 <= r < n => Site(r, col));
    assert IsChain(n, open, down) by {
      forall i | 0 <= i < |down|
        ensures OpenAt(n, open, down[i])
      {
        assert down[i] == Site(i, col);
      }
    }
    assert down[0].row == 0 && down[|down| - 1].row == n - 1;
    var up := seq(row + 1, i requires 0 <= i <= row => Site(row - i, col));
    assert IsChain(n, open, up) by {
      forall i | 0 <= i < |up|
        ensures OpenAt(n, open, up[i])
      {
        assert up[i] == Site(row - i, col);
      }
    }
    assert up[0] == Site(row, col) && up[|up| - 1].row == 0;
  }

  /** A built grid in which the sites (row, 0) .. (row, k) were opened joins
      (row, 0) to (row, k) in both views. */
  lemma BuiltOpenRowPrefix(n: int, ops: seq<Site>, row: int, k: int)
    requires n >= 1 && Replay(New(n).value, ops).Success? && 0 <= row < n && 0 <= k < n
    requires forall c | 0 <= c <= k :: Site(row, c) in ops
    ensures var g := Replay(New(n).value, ops).value;
            var first, last := Encode(n, Site(row, 0)), Encode(n, Site(row, k));
            Connected(g.ufbs, first, last) && Connected(g.uf, first, last)
  {
    var g := Replay(New(n).value, ops).value;
    var p := seq(k + 1, c requires 0 <= c <= k => Site(row, c));
    forall i | 0 <= i < |p|
      ensures OpenAt(n, g.open, p[i])
    {
      BuiltOpenSites(n, ops, Site(row, i));
    }
    assert IsChain(n, g.open, p);
    BuiltValid(n, ops);
    ChainConnects(g, g.ufbs, p);
    ChainConnects(g, g.uf, p);
  }

  /** A built grid in which every site of row `row` was opened joins the
      two ends of that row in both views. */
  lemma BuiltOpenRow(n: int, ops: seq<Site>, row: int)
    requires n >= 1 && Replay(New(n).value, ops).Success? && 0 <= row < n
    requires forall c | 0 <= c < n :: Site(row, c) in ops
    ensures var g := Replay(New(n).value, ops).value;
            var first, last := Encode(n, Site(row, 0)), Encode(n, Site(row, n - 1));
            Connected(g.ufbs, first, last) && Connected(g.uf, first, last)
  {
    BuiltOpenRowPrefix(n, ops, row, n - 1);
  }

  /** A built grid in which no site of row 0 was opened does not
      percolate, and none of its sites is full. */
  lemma BuiltWithoutTopRow(n: int, ops: seq<Site>, row: int, col: int)
    requires n >= 1 && Replay(New(n).value, ops).Success? && InGrid(n, Site(row, col))
    requires forall s | s in ops :: s.row != 0
    ensures var g := Replay(New(n).value, ops).value;
            !Percolates(g) && IsFull(g, row, col) == Success(false)
  {
    var g := Replay(New(n).value, ops).value;
    forall p: seq<Site> | IsChain(n, g.open, p)
      ensures p[0].row != 0 && p[|p| - 1].row != 0
    {
      BuiltOpenSites(n, ops, p[0]);
      BuiltOpenSites(n, ops, p[|p| - 1]);
    }
    BuiltPercolates(n, ops);
    BuiltIsFull(n, ops, row, col);
  }

  /** A built grid in which every site of column `col` was opened
      percolates, and every site of that column is full. */
  lemma BuiltOpenColumn(n: int, ops: seq<Site>, col: int, row: int)
    requires n >= 1 && Replay(New(n).value, ops).Success? && 0 <= col < n && 0 <= row < n
    requires forall r | 0 <= r < n :: Site(r, col) in ops
    ensures var g := Replay(New(n).value, ops).value;
            Percolates(g) && IsFull(g, row, col) == Success(true)
  {
    var g := Replay(New(n).value, ops).value;
    forall r | 0 <= r < n
      ensures OpenAt(n, g.open, Site(r, col))
    {
      BuiltOpenSites(n, ops, Site(r, col));
    }
    OpenColumn(n, g.open, col, row);
    BuiltPercolates(n, ops);
    BuiltIsFull(n, ops, row, col);
  }

  /** Why `isFull` asks `ufbs`. In a built grid with an opened column, an
      opened row-(N-1) site `s` none of whose neighbours was opened shares
      the top node's class in `uf` (through the bottom node), yet no chain
      of open sites leads from it to row 0, so it is not full. */
  lemma BuiltBackwash(n: int, ops: seq<Site>, col: int, s: Site)
    requires n >= 2 && Replay(New(n).value, ops).Success? && 0 <= col < n
    requires forall r | 0 <= r < n :: Site(r, col) in ops
    requires InGrid(n, s) && s.row == n - 1 && s in ops
    requires forall t | t in ops :: !Adjacent(s, t)
    ensures var g := Replay(New(n).value, ops).value;
            && Percolates(g)
            && Connected(g.uf, Encode(n, s), Top)
            && IsFull(g, s.row, s.col) == Success(false)
  {
    var g := Replay(New(n).value, ops).value;
    BuiltOpenColumn(n, ops, col, 0);
    BuiltOpenSites(n, ops, s);
    BuiltValid(n, ops);
    assert Site(g.n - 1, s.col) == s;
    PercolatingJoinsBottomRowToTop(g, s.col);
    forall t | OpenAt(n, g.open, t)
      ensures !Adjacent(s, t)
    {
      BuiltOpenSites(n, ops, t);
    }
    IsolatedSiteNotFull(n, g.open, s);
    BuiltIsFull(n, ops, s.row, s.col);
  }

  /** Opening only the bottom row of a three-by-three grid: the first site
      shares a class with each of the other two, in both views, so the three
      are one class in both views; yet the grid does not percolate and none
      of them is full. */
  lemma BottomRowOnly(c: int)
    requires 0 <= c < 3
    ensures var r := Replay(New(3).value, [Site(2, 0), Site(2, 1), Site(2, 2)]);
            && r.Success?
            && Connected(r.value.ufbs, Encode(3, Site(2, 0)), Encode(3, Site(2, 1)))
            && Connected(r.value.ufbs, Encode(3, Site(2, 0)), Encode(3, Site(2, 2)))
            && Connected(r.value.uf, Encode(3, Site(2, 0)), Encode(3, Site(2, 1)))
            && Connected(r.value.uf, Encode(3, Site(2, 0)), Encode(3, Site(2, 2)))
            && !Percolates(r.value)
            && IsFull(r.value, 2, c) == Success(false)
  {
    var ops := [Site(2, 0), Site(2, 1), Site(2, 2)];
    assert forall c | 0 <= c < 3 :: Site(2, c) in ops;
    assert forall s | s in ops :: s.row != 0;
    assert Replay(New(3).value, ops).Success?;
    BuiltOpenRow(3, ops, 2);
    BuiltWithoutTopRow(3, ops, 2, c);
    BuiltOpenRowPrefix(3, ops, 2, 1);
  }

  /** Opening the middle column of a three-by-three grid makes it percolate
      and its bottom site full. */
  lemma MiddleColumn()
    ensures var r := Replay(New(3).value, [Site(0, 1), Site(1, 1), Site(2, 1)]);
            r.Success? && Percolates(r.value) && IsFull(r.value, 2, 1) == Success(true)
  {
    var ops := [Site(0, 1), Site(1, 1), Site(2, 1)];
    assert forall r | 0 <= r < 3 :: Site(r, 1) in ops;
    assert Replay(New(3).value, ops).Success?;
    BuiltOpenColumn(3, ops, 1, 2);
  }

  /** The left column and the bottom-right corner of a three-by-three grid:
      the grid percolates and `uf` joins the corner to the top node, but
      the corner is not full. */
  lemma BackwashAvoided()
    ensures var r := Replay(New(3).value, [Site(0, 0), Site(1, 0), Site(2, 0), Site(2, 2)]);
            && r.Success?
            && Percolates(r.value)
            && Connected(r.value.uf, Encode(3, Site(2, 2)), Top)
            && IsFull(r.value, 2, 2) == Success(false)
  {
    var ops := [Site(0, 0), Site(1, 0), Site(2, 0), Site(2, 2)];
    assert forall r | 0 <= r < 3 :: Site(r, 0) in ops;
    assert forall t | t in ops :: !Adjacent(Site(2, 2), t);
    assert Replay(New(3).value, ops).Success?;
    BuiltBackwash(3, ops, 0, Site(2, 2));
  }
}
