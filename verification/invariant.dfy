/**
 The representation invariant of the percolation grid and its preservation
 by the constructor and by `open`. The invariant pins down the union
 history of both views exactly, up to the order of each pair:
 - `ufbs` holds only (open row-0 site, top) and (open site, adjacent open
   site) pairs, and `uf` additionally (open row-(N-1) site, bottom);
 - conversely every open row-0 site is joined to the top node in both
   views, every open row-(N-1) site to the bottom node in `uf`, and every
   two adjacent open sites are joined in both views;
 - the counter equals the number of set flags.
 */
module PercolationInvariant {
  import opened UnionFind
  import opened Grid
  import opened Percolation

  predicate IsSiteId(n: int, a: int) {
    1 <= a <= n * n
  }

  /** `a` is the element of an open site. */
  predicate OpenId(g: State, a: int)
    requires WellFormed(g)
  {
    IsSiteId(g.n, a) && SiteOpen(g, Decode(g.n, a))
  }

  /** A pair `ufbs` may hold: an open row-0 site with the top node, or an
      open site with an adjacent open site. */
  predicate TopOrNeighbourPair(g: State, a: int, b: int)
    requires WellFormed(g)
  {
    && OpenId(g, a)
    && (|| (b == Top && Decode(g.n, a).row == 0)
        || (OpenId(g, b) && Adjacent(Decode(g.n, a), Decode(g.n, b))))
  }

  /** A pair `uf` may hold: one `ufbs` may hold, or an open row-(N-1) site
      with the bottom node. */
  predicate FullViewPair(g: State, a: int, b: int)
    requires WellFormed(g)
  {
    || TopOrNeighbourPair(g, a, b)
    || (OpenId(g, a) && b == Bottom(g.n) && Decode(g.n, a).row == g.n - 1)
  }

  /** Every two adjacent open sites are joined in `u`. */
  ghost predicate NeighboursLinked(g: State, u: UF)
    requires WellFormed(g)
  {
    forall s, t | SiteOpen(g, s) && SiteOpen(g, t) && Adjacent(s, t) ::
      Linked(u, Encode(g.n, s), Encode(g.n, t))
  }

  /** Every recorded union is one the grid may make. */
  ghost predicate PairsSound(g: State)
    requires WellFormed(g)
  {
    && (forall e | e in g.ufbs.unions :: TopOrNeighbourPair(g, e.0, e.1))
    && (forall e | e in g.uf.unions :: FullViewPair(g, e.0, e.1))
  }

  /** Every open row-0 site is joined to the top node in both views, every
      open row-(N-1) site to the bottom node in `uf`. */
  ghost predicate VirtualNodesLinked(g: State)
    requires WellFormed(g)
  {
    && (forall s | SiteOpen(g, s) && s.row == 0 ::
          (Encode(g.n, s), Top) in g.uf.unions && (Encode(g.n, s), Top) in g.ufbs.unions)
    && (forall s | SiteOpen(g, s) && s.row == g.n - 1 ::
          (Encode(g.n, s), Bottom(g.n)) in g.uf.unions)
  }

  ghost predicate Valid(g: State) {
    && WellFormed(g)
    && g.countOpen == CountOpen(g.open)
    && PairsSound(g)
    && VirtualNodesLinked(g)
    && NeighboursLinked(g, g.uf)
    && NeighboursLinked(g, g.ufbs)
  }

  /** A freshly constructed grid satisfies the invariant. */
  lemma NewValid(n: int)
    requires n >= 1
    ensures Valid(New(n).value)
  {
    var g := New(n).value;
    CountOpenIsCardinality(g.open);
    assert OpenPositions(g.open) == {};
  }

  /** `open` sets exactly the flag of its own site. */
  lemma OpenSetsOnlyItsSite(g: State, row: int, col: int, s: Site)
    requires WellFormed(g) && InGrid(g.n, Site(row, col))
    ensures SiteOpen(Open(g, row, col).value, s) <==> SiteOpen(g, s) || s == Site(row, col)
  {
    if InGrid(g.n, s) {
      EncodeInjective(g.n, s, Site(row, col));
    }
  }

  /** A union `open` adds between its site `x` and the top node. */
  predicate NewTopPair(g: State, x: Site, e: (int, int))
    requires WellFormed(g) && InGrid(g.n, x)
  {
    !SiteOpen(g, x) && x.row == 0 && e == (Encode(g.n, x), Top)
  }

  /** A union `open` adds between its site `x` and the bottom node. */
  predicate NewBottomPair(g: State, x: Site, e: (int, int))
    requires WellFormed(g) && InGrid(g.n, x)
  {
    !SiteOpen(g, x) && x.row == g.n - 1 && e == (Encode(g.n, x), Bottom(g.n))
  }

  /** A union `open` adds between its site `x` and an open neighbour, as
      judged in the state `r` after the call. */
  predicate NewNeighbourPair(r: State, x: Site, e: (int, int))
    requires WellFormed(r) && InGrid(r.n, x)
  {
    && e.0 == Encode(r.n, x)
    && IsSiteId(r.n, e.1)
    && SiteOpen(r, Decode(r.n, e.1))
    && Adjacent(x, Decode(r.n, e.1))
  }

  /** The unions after `open` are those after its first-opening step and the
      four neighbour unions. */
  lemma OpenUnionsExact(g: State, row: int, col: int)
    requires WellFormed(g) && InGrid(g.n, Site(row, col))
    ensures var x := Site(row, col);
            var r := Open(g, row, col).value;
            var g1 := FirstOpening(g, x);
            var added := NeighbourUnion(r, x, Site(row - 1, col))
                       + NeighbourUnion(r, x, Site(row + 1, col))
                       + NeighbourUnion(r, x, Site(row, col - 1))
                       + NeighbourUnion(r, x, Site(row, col + 1));
            && g1.open == r.open
            && r.ufbs.unions == g1.ufbs.unions + added
            && r.uf.unions == g1.uf.unions + added
  {
    var x := Site(row, col);
    var g1 := FirstOpening(g, x);
    var g2 := LinkNeighbour(g1, x, Site(row - 1, col));
    var g3 := LinkNeighbour(g2, x, Site(row + 1, col));
    var g4 := LinkNeighbour(g3, x, Site(row, col - 1));
    var r := LinkNeighbour(g4, x, Site(row, col + 1));
    assert Open(g, row, col) == Success(r);
  }

  /** Every union `open` adds is to the top node, to the bottom node, or to
      an open neighbour. */
  lemma OpenUnionsSound(g: State, row: int, col: int)
    requires WellFormed(g) && InGrid(g.n, Site(row, col))
    ensures var r := Open(g, row, col).value;
            var x := Site(row, col);
            && (forall e | e in r.ufbs.unions ::
                  e in g.ufbs.unions || NewTopPair(g, x, e) || NewNeighbourPair(r, x, e))
            && (forall e | e in r.uf.unions ::
                  || e in g.uf.unions || NewTopPair(g, x, e) || NewBottomPair(g, x, e)
                  || NewNeighbourPair(r, x, e))
  {
    var x := Site(row, col);
    var r := Open(g, row, col).value;
    var g1 := FirstOpening(g, x);
    OpenUnionsExact(g, row, col);
    var up, down, left, right :=
      Site(row - 1, col), Site(row + 1, col), Site(row, col - 1), Site(row, col + 1);
    forall e | e in r.ufbs.unions
      ensures e in g.ufbs.unions || NewTopPair(g, x, e) || NewNeighbourPair(r, x, e)
    {
      if e in g1.ufbs.unions {
        FirstOpeningPairs(g, x, e);
      } else if e in NeighbourUnion(r, x, up) {
        NeighbourUnionPair(r, x, up, e);
      } else if e in NeighbourUnion(r, x, down) {
        NeighbourUnionPair(r, x, down, e);
      } else if e in NeighbourUnion(r, x, left) {
        NeighbourUnionPair(r, x, left, e);
      } else {
        NeighbourUnionPair(r, x, right, e);
      }
    }
    forall e | e in r.uf.unions
      ensures || e in g.uf.unions || NewTopPair(g, x, e) || NewBottomPair(g, x, e)
              || NewNeighbourPair(r, x, e)
    {
      if e in g1.uf.unions {
        FirstOpeningPairs(g, x, e);
      } else if e in NeighbourUnion(r, x, up) {
        NeighbourUnionPair(r, x, up, e);
      } else if e in NeighbourUnion(r, x, down) {
        NeighbourUnionPair(r, x, down, e);
      } else if e in NeighbourUnion(r, x, left) {
        NeighbourUnionPair(r, x, left, e);
      } else {
        NeighbourUnionPair(r, x, right, e);
      }
    }
  }

  lemma FirstOpeningPairs(g: State, x: Site, e: (int, int))
    requires WellFormed(g) && InGrid(g.n, x)
    ensures e in FirstOpening(g, x).ufbs.unions ==> e in g.ufbs.unions || NewTopPair(g, x, e)
    ensures e in FirstOpening(g, x).uf.unions ==>
              e in g.uf.unions || NewTopPair(g, x, e) || NewBottomPair(g, x, e)
  {
  }

  lemma NeighbourUnionPair(r: State, x: Site, t: Site, e: (int, int))
    requires WellFormed(r) && InGrid(r.n, x) && Adjacent(x, t)
    requires e in NeighbourUnion(r, x, t)
    ensures NewNeighbourPair(r, x, e)
  {
    DecodeEncode(r.n, t);
  }

  /** `open` joins its site to every open neighbour, and, when it opens the
      site, to the virtual nodes of its row. */
  lemma OpenUnionsComplete(g: State, row: int, col: int)
    requires WellFormed(g) && InGrid(g.n, Site(row, col))
    ensures var r := Open(g, row, col).value;
            var x := Site(row, col);
            && (forall t | SiteOpen(r, t) && Adjacent(x, t) ::
                  && (Encode(g.n, x), Encode(g.n, t)) in r.ufbs.unions
                  && (Encode(g.n, x), Encode(g.n, t)) in r.uf.unions)
            && (!SiteOpen(g, x) && x.row == 0 ==>
                  (Encode(g.n, x), Top) in r.ufbs.unions && (Encode(g.n, x), Top) in r.uf.unions)
            && (!SiteOpen(g, x) && x.row == g.n - 1 ==>
                  (Encode(g.n, x), Bottom(g.n)) in r.uf.unions)
  {
    var x := Site(row, col);
    var r := Open(g, row, col).value;
    OpenUnionsExact(g, row, col);
    forall t | SiteOpen(r, t) && Adjacent(x, t)
      ensures (Encode(g.n, x), Encode(g.n, t)) in r.ufbs.unions
      ensures (Encode(g.n, x), Encode(g.n, t)) in r.uf.unions
    {
      assert || t == Site(row - 1, col) || t == Site(row + 1, col)
             || t == Site(row, col - 1) || t == Site(row, col + 1);
    }
  }

  /** `open` preserves the invariant. */
  lemma OpenValid(g: State, row: int, col: int)
    requires Valid(g) && InGrid(g.n, Site(row, col))
    ensures Valid(Open(g, row, col).value)
  {
    CountOpenSet(g.open, Index(g.n, Site(row, col)));
    OpenKeepsPairsSound(g, row, col);
    OpenKeepsVirtualNodesLinked(g, row, col);
    OpenKeepsNeighboursLinked(g, row, col);
  }

  lemma OpenKeepsPairsSound(g: State, row: int, col: int)
    requires WellFormed(g) && PairsSound(g) && InGrid(g.n, Site(row, col))
    ensures PairsSound(Open(g, row, col).value)
  {
    var x := Site(row, col);
    var r := Open(g, row, col).value;
    forall s ensures SiteOpen(r, s) <==> SiteOpen(g, s) || s == x {
      OpenSetsOnlyItsSite(g, row, col, s);
    }
    OpenUnionsSound(g, row, col);
    DecodeEncode(g.n, x);
    forall e | e in r.ufbs.unions
      ensures TopOrNeighbourPair(r, e.0, e.1)
    {
      if e in g.ufbs.unions {
        assert TopOrNeighbourPair(g, e.0, e.1);
      }
    }
    forall e | e in r.uf.unions
      ensures FullViewPair(r, e.0, e.1)
    {
      if e in g.uf.unions {
        assert FullViewPair(g, e.0, e.1);
      }
    }
  }

  lemma OpenKeepsVirtualNodesLinked(g: State, row: int, col: int)
    requires WellFormed(g) && VirtualNodesLinked(g) && InGrid(g.n, Site(row, col))
    ensures VirtualNodesLinked(Open(g, row, col).value)
  {
    var x := Site(row, col);
    var r := Open(g, row, col).value;
    forall s ensures SiteOpen(r, s) <==> SiteOpen(g, s) || s == x {
      OpenSetsOnlyItsSite(g, row, col, s);
    }
    OpenUnionsComplete(g, row, col);
    forall s | SiteOpen(r, s) && s.row == 0
      ensures (Encode(g.n, s), Top) in r.uf.unions && (Encode(g.n, s), Top) in r.ufbs.unions
    {
      if s != x || SiteOpen(g, x) {
        assert SiteOpen(g, s);
      }
    }
    forall s | SiteOpen(r, s) && s.row == g.n - 1
      ensures (Encode(g.n, s), Bottom(g.n)) in r.uf.unions
    {
      if s != x || SiteOpen(g, x) {
        assert SiteOpen(g, s);
      }
    }
  }

  lemma OpenKeepsNeighboursLinked(g: State, row: int, col: int)
    requires WellFormed(g) && NeighboursLinked(g, g.uf) && NeighboursLinked(g, g.ufbs)
    requires InGrid(g.n, Site(row, col))
    ensures var r := Open(g, row, col).value;
            NeighboursLinked(r, r.uf) && NeighboursLinked(r, r.ufbs)
  {
    var x := Site(row, col);
    var r := Open(g, row, col).value;
    forall s ensures SiteOpen(r, s) <==> SiteOpen(g, s) || s == x {
      OpenSetsOnlyItsSite(g, row, col, s);
    }
    OpenUnionsComplete(g, row, col);
    forall s, t | SiteOpen(r, s) && SiteOpen(r, t) && Adjacent(s, t)
      ensures Linked(r.uf, Encode(g.n, s), Encode(g.n, t))
      ensures Linked(r.ufbs, Encode(g.n, s), Encode(g.n, t))
    {
      if s == x {
        assert Adjacent(x, t);
      } else if t == x {
        assert Adjacent(x, s);
      } else {
        assert SiteOpen(g, s) && SiteOpen(g, t);
      }
    }
  }

  /** Opening a site again straight after opening it returns the same
      state: the second call finds every union it would make already
      recorded. */
  lemma OpenIdempotent(g: State, row: int, col: int)
    requires WellFormed(g) && InGrid(g.n, Site(row, col))
    ensures var r := Open(g, row, col).value; Open(r, row, col) == Success(r)
  {
    var x := Site(row, col);
    var r := Open(g, row, col).value;
    var r2 := Open(r, row, col).value;
    OpenUnionsComplete(g, row, col);
    OpenUnionsExact(r, row, col);
    assert SiteOpen(r, x);
    assert FirstOpening(r, x) == r;
    forall t | Adjacent(x, t)
      ensures NeighbourUnion(r2, x, t) <= r.ufbs.unions
      ensures NeighbourUnion(r2, x, t) <= r.uf.unions
    {
    }
    assert r2.uf == r.uf && r2.ufbs == r.ufbs;
  }

  /** `numberOfOpenSites()` is the number of open sites, at most N*N. */
  lemma CountIsOpenSites(g: State)
    requires Valid(g)
    ensures NumberOfOpenSites(g) == |OpenPositions(g.open)|
    ensures 0 <= NumberOfOpenSites(g) <= g.n * g.n
  {
    CountOpenIsCardinality(g.open);
  }

  /** Every state reached from a valid one by `open` calls is valid. */
  lemma {:induction false} ReplayValid(g: State, ops: seq<Site>)
    requires Valid(g)
    ensures Replay(g, ops).Success? ==> Valid(Replay(g, ops).value)
    decreases |ops|
  {
    if |ops| > 0 && InGrid(g.n, ops[0]) {
      OpenValid(g, ops[0].row, ops[0].col);
      ReplayValid(Open(g, ops[0].row, ops[0].col).value, ops[1..]);
    }
  }
}
