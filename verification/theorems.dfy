/**
 What the grid's queries mean. Under the representation invariant the two
 disjoint-set views answer exactly the chain-of-open-sites questions of the
 Grid module:
 - `isFull(row, col)` iff a chain of adjacent open sites leads from the site
   to an open row-0 site; this holds because `ufbs` never holds the bottom
   node, so no class is merged through it;
 - `percolates()` iff a chain of adjacent open sites joins an open row-0
   site to an open row-(N-1) site.
 Also: `open` changes only its own flag and never undoes a full site or
 percolation.
 */
module PercolationTheorems {
  import opened UnionFind
  import opened Grid
  import opened Percolation
  import opened PercolationInvariant

  /** A chain of open sites is one class in any view that joins every two
      adjacent open sites. */
  lemma {:induction false} ChainConnects(g: State, u: UF, p: seq<Site>)
    requires WellFormed(g) && NeighboursLinked(g, u) && u.size > g.n * g.n
    requires IsChain(g.n, g.open, p)
    ensures Connected(u, Encode(g.n, p[0]), Encode(g.n, p[|p| - 1]))
    decreases |p|
  {
    if |p| == 1 {
      ConnectedReflexive(u, Encode(g.n, p[0]));
    } else {
      var rest := p[1..];
      assert IsChain(g.n, g.open, rest) by {
        forall i | 0 <= i < |rest| - 1
          ensures Adjacent(rest[i], rest[i + 1])
        {
          assert Adjacent(p[i + 1], p[i + 2]);
        }
      }
      ChainConnects(g, u, rest);
      var a, b := Encode(g.n, p[0]), Encode(g.n, p[1]);
      assert SiteOpen(g, p[0]) && SiteOpen(g, p[1]) && Adjacent(p[0], p[1]);
      assert IsWalk(u, [a, b]);
      ConnectedTransitive(u, a, b, Encode(g.n, p[|p| - 1]));
    }
  }

  /** Prepending an open site adjacent to a chain's head gives a chain. */
  lemma ExtendChain(n: int, open: seq<bool>, s: Site, p: seq<Site>)
    requires IsChain(n, open, p) && OpenAt(n, open, s) && Adjacent(s, p[0])
    ensures IsChain(n, open, [s] + p)
  {
    var p' := [s] + p;
    forall i | 0 <= i < |p'| - 1
      ensures Adjacent(p'[i], p'[i + 1])
    {
      if i > 0 {
        assert Adjacent(p[i - 1], p[i]);
      }
    }
  }

  /** A walk in `ufbs` from a site's element to the top node yields a chain
      of open sites from that site to row 0. */
  lemma {:induction false} WalkReachesTop(g: State, q: seq<int>)
    requires Valid(g) && IsWalk(g.ufbs, q)
    requires IsSiteId(g.n, q[0]) && q[|q| - 1] == Top
    ensures ReachesTop(g.n, g.open, Decode(g.n, q[0]))
    decreases |q|
  {
    var a, b := q[0], q[1];
    var sa := Decode(g.n, a);
    assert Linked(g.ufbs, a, b);
    assert TopOrNeighbourPair(g, a, b) || TopOrNeighbourPair(g, b, a);
    if b == Top {
      assert IsChain(g.n, g.open, [sa]);
    } else {
      var rest := q[1..];
      assert IsWalk(g.ufbs, rest) by {
        forall i | 0 <= i < |rest| - 1
          ensures Linked(g.ufbs, rest[i], rest[i + 1])
        {
          assert Linked(g.ufbs, q[i + 1], q[i + 2]);
        }
      }
      WalkReachesTop(g, rest);
      var p: seq<Site> :| IsChain(g.n, g.open, p) && p[0] == Decode(g.n, b) && p[|p| - 1].row == 0;
      ExtendChain(g.n, g.open, sa, p);
      assert ([sa] + p)[|[sa] + p| - 1] == p[|p| - 1];
    }
  }

  /** A walk in `uf` from the top node or a site's element to the bottom
      node yields a chain of open sites ending in row N-1 that starts in
      row 0 or at that site. */
  lemma {:induction false} WalkReachesBottom(g: State, q: seq<int>)
    requires Valid(g) && IsWalk(g.uf, q)
    requires q[0] == Top || IsSiteId(g.n, q[0])
    requires q[|q| - 1] == Bottom(g.n)
    ensures exists p: seq<Site> ::
              && IsChain(g.n, g.open, p)
              && p[|p| - 1].row == g.n - 1
              && (p[0].row == 0 || (IsSiteId(g.n, q[0]) && p[0] == Decode(g.n, q[0])))
    decreases |q|
  {
    var a, b := q[0], q[1];
    assert Linked(g.uf, a, b);
    assert FullViewPair(g, a, b) || FullViewPair(g, b, a);
    var rest := q[1..];
    assert IsWalk(g.uf, rest) by {
      forall i | 0 <= i < |rest| - 1
        ensures Linked(g.uf, rest[i], rest[i + 1])
      {
        assert Linked(g.uf, q[i + 1], q[i + 2]);
      }
    }
    if a == Top {
      WalkReachesBottom(g, rest);
    } else {
      var sa := Decode(g.n, a);
      if b == Bottom(g.n) {
        assert IsChain(g.n, g.open, [sa]);
      } else if b == Top {
        WalkReachesBottom(g, rest);
      } else {
        WalkReachesBottom(g, rest);
        var p: seq<Site> :| && IsChain(g.n, g.open, p)
                 && p[|p| - 1].row == g.n - 1
                 && (p[0].row == 0 || p[0] == Decode(g.n, b));
        if p[0].row != 0 {
          ExtendChain(g.n, g.open, sa, p);
          assert ([sa] + p)[|[sa] + p| - 1] == p[|p| - 1];
        }
      }
    }
  }

  /** `isFull(row, col)` answers exactly whether a chain of adjacent open
      sites leads from (row, col) to an open site of row 0; out of range it
      fails. */
  lemma IsFullMeansReachesTop(g: State, row: int, col: int)
    requires Valid(g)
    ensures IsFull(g, row, col) ==
              if InGrid(g.n, Site(row, col)) then Success(ReachesTop(g.n, g.open, Site(row, col)))
              else Failure(OutOfRange)
  {
    var x := Site(row, col);
    if InGrid(g.n, x) {
      var id := Encode(g.n, x);
      if SiteOpen(g, x) && Connected(g.ufbs, id, Top) {
        var q :| IsWalk(g.ufbs, q) && q[0] == id && q[|q| - 1] == Top;
        WalkReachesTop(g, q);
        DecodeEncode(g.n, x);
      }
      if ReachesTop(g.n, g.open, x) {
        var p: seq<Site> :| IsChain(g.n, g.open, p) && p[0] == x && p[|p| - 1].row == 0;
        var last := p[|p| - 1];
        assert SiteOpen(g, x) && SiteOpen(g, last);
        ChainConnects(g, g.ufbs, p);
        assert IsWalk(g.ufbs, [Encode(g.n, last), Top]);
        ConnectedTransitive(g.ufbs, id, Encode(g.n, last), Top);
      }
    }
  }

  /** `percolates()` answers exactly whether a chain of adjacent open sites
      joins an open row-0 site to an open row-(N-1) site. */
  lemma PercolatesMeansSpans(g: State)
    requires Valid(g)
    ensures Percolates(g) <==> Spans(g.n, g.open)
  {
    if Percolates(g) {
      var q :| IsWalk(g.uf, q) && q[0] == Top && q[|q| - 1] == Bottom(g.n);
      WalkReachesBottom(g, q);
    }
    if Spans(g.n, g.open) {
      var p: seq<Site> :| IsChain(g.n, g.open, p) && p[0].row == 0 && p[|p| - 1].row == g.n - 1;
      var first, last := p[0], p[|p| - 1];
      assert SiteOpen(g, first) && SiteOpen(g, last);
      ChainConnects(g, g.uf, p);
      assert IsWalk(g.uf, [Top, Encode(g.n, first)]);
      assert IsWalk(g.uf, [Encode(g.n, last), Bottom(g.n)]);
      ConnectedTransitive(g.uf, Top, Encode(g.n, first), Encode(g.n, last));
      ConnectedTransitive(g.uf, Top, Encode(g.n, last), Bottom(g.n));
    }
  }

  /** `open(row, col)` sets that site's flag and leaves every other site's
      flag as it was. */
  lemma OpenChangesOnlyItsFlag(g: State, row: int, col: int, r: int, c: int)
    requires WellFormed(g) && InGrid(g.n, Site(row, col))
    ensures IsOpen(Open(g, row, col).value, r, c) ==
              if r == row && c == col then Success(true) else IsOpen(g, r, c)
  {
    OpenSetsOnlyItsSite(g, row, col, Site(r, c));
  }

  /** `open` never turns a percolating grid into a non-percolating one. */
  lemma OpenKeepsPercolation(g: State, row: int, col: int)
    requires WellFormed(g) && InGrid(g.n, Site(row, col)) && Percolates(g)
    ensures Percolates(Open(g, row, col).value)
  {
    var r := Open(g, row, col).value;
    ConnectedMonotone(g.uf, r.uf, Top, Bottom(g.n));
  }

  /** `open` never turns a full site into a non-full one. */
  lemma OpenKeepsFull(g: State, row: int, col: int, r: int, c: int)
    requires WellFormed(g) && InGrid(g.n, Site(row, col))
    requires IsFull(g, r, c) == Success(true)
    ensures IsFull(Open(g, row, col).value, r, c) == Success(true)
  {
    var g' := Open(g, row, col).value;
    OpenSetsOnlyItsSite(g, row, col, Site(r, c));
    ConnectedMonotone(g.ufbs, g'.ufbs, Encode(g.n, Site(r, c)), Top);
  }

  /** Backwash in `uf`: once the grid percolates, every open row-(N-1) site
      shares the top node's class in `uf` through the bottom node, whether
      or not a chain of open sites leads it to row 0. */
  lemma PercolatingJoinsBottomRowToTop(g: State, col: int)
    requires Valid(g) && Percolates(g) && SiteOpen(g, Site(g.n - 1, col))
    ensures Connected(g.uf, Encode(g.n, Site(g.n - 1, col)), Top)
  {
    var id := Encode(g.n, Site(g.n - 1, col));
    LinkedConnected(g.uf, id, Bottom(g.n));
    ConnectedSymmetric(g.uf, Top, Bottom(g.n));
    ConnectedTransitive(g.uf, id, Bottom(g.n), Top);
  }

  /** A sequence of `open` calls opens exactly the sites it names. */
  lemma {:induction false} ReplayOpensExactly(g: State, ops: seq<Site>, s: Site)
    requires WellFormed(g) && Replay(g, ops).Success?
    ensures SiteOpen(Replay(g, ops).value, s) <==> SiteOpen(g, s) || s in ops
    decreases |ops|
  {
    if |ops| > 0 {
      var x := ops[0];
      assert InGrid(g.n, x);
      var g' := Open(g, x.row, x.col).value;
      OpenSetsOnlyItsSite(g, x.row, x.col, s);
      ReplayOpensExactly(g', ops[1..], s);
      assert ops == [x] + ops[1..];
    }
  }

  /** Opening a site that is already open changes no answer of the grid:
      the count, `isOpen`, `isFull` and `percolates` stay as they were,
      although the repeated neighbour unions may record new pairs. */
  lemma ReopenObservablySame(g: State, row: int, col: int, r: int, c: int)
    requires Valid(g) && SiteOpen(g, Site(row, col))
    ensures var g' := Open(g, row, col).value;
            && NumberOfOpenSites(g') == NumberOfOpenSites(g)
            && IsOpen(g', r, c) == IsOpen(g, r, c)
            && IsFull(g', r, c) == IsFull(g, r, c)
            && (Percolates(g') <==> Percolates(g))
  {
    var g' := Open(g, row, col).value;
    assert g'.open == g.open;
    OpenValid(g, row, col);
    IsFullMeansReachesTop(g, r, c);
    IsFullMeansReachesTop(g', r, c);
    PercolatesMeansSpans(g);
    PercolatesMeansSpans(g');
  }
}
