/**
 The N-by-N site space of the percolation system: sites, the row-major flag
 layout, the site numbering used for the disjoint-set elements, adjacency,
 and the reference meaning of "full" and "percolates" as chains of open
 sites, stated without any disjoint-set structure.
 */
module Grid {

  /** A site at (row, col), both 0-based. */
  datatype Site = Site(row: int, col: int)

  predicate InGrid(n: int, s: Site) {
    0 <= s.row < n && 0 <= s.col < n
  }

  /** n * r + c for an in-grid (r, c) lies in [0, n * n). */
  lemma RowMajorBound(n: int, r: int, c: int)
    requires 0 <= r < n && 0 <= c < n
    ensures 0 <= n * r + c < n * n
  {
    assert n * r <= n * (n - 1) by {
      MultiplyLeftMonotone(n, r, n - 1);
    }
  }

  lemma MultiplyLeftMonotone(n: int, a: int, b: int)
    requires 0 <= n && a <= b
    ensures n * a <= n * b
  {
    assert n * b - n * a == n * (b - a);
  }

  /** The unique quotient and remainder of a row-major position. */
  lemma RowMajorDivMod(n: int, r: int, c: int)
    requires 0 <= c < n
    ensures (n * r + c) / n == r && (n * r + c) % n == c
  {
    var k := n * r + c;
    var q, m := k / n, k % n;
    assert k == n * q + m && 0 <= m < n;
    assert n * (r - q) == m - c;
    if r - q >= 1 {
      MultiplyLeftMonotone(n, 1, r - q);
    } else if r - q <= -1 {
      MultiplyLeftMonotone(n, r - q, -1);
    }
  }

  /** Position of a site in the row-major sequence of open flags. */
  function Index(n: int, s: Site): (k: int)
    requires InGrid(n, s)
    ensures 0 <= k < n * n
  {
    RowMajorBound(n, s.row, s.col);
    n * s.row + s.col
  }

  /** The disjoint-set element of a site: N * row + col + 1. Element 0 is the
      virtual top node and N * N + 1 the virtual bottom node, so a site's
      element is never either of them. */
  function Encode(n: int, s: Site): (id: int)
    requires InGrid(n, s)
    ensures 1 <= id <= n * n
  {
    Index(n, s) + 1
  }

  /** The site whose element is `id`. */
  function Decode(n: int, id: int): (s: Site)
    requires 1 <= n && 1 <= id <= n * n
    ensures InGrid(n, s) && Encode(n, s) == id
  {
    var k := id - 1;
    var s := Site(k / n, k % n);
    assert k == n * s.row + s.col;
    assert s.row < n by {
      if s.row >= n {
        MultiplyLeftMonotone(n, n, s.row);
      }
    }
    s
  }

  /** Distinct sites have distinct elements. */
  lemma EncodeInjective(n: int, s: Site, t: Site)
    requires InGrid(n, s) && InGrid(n, t)
    ensures Encode(n, s) == Encode(n, t) <==> s == t
  {
    RowMajorDivMod(n, s.row, s.col);
    RowMajorDivMod(n, t.row, t.col);
  }

  lemma DecodeEncode(n: int, s: Site)
    requires InGrid(n, s)
    ensures Decode(n, Encode(n, s)) == s
  {
    EncodeInjective(n, s, Decode(n, Encode(n, s)));
  }

  /** Up, down, left or right of each other. */
  predicate Adjacent(s: Site, t: Site) {
    || (s.row == t.row && (s.col == t.col + 1 || t.col == s.col + 1))
    || (s.col == t.col && (s.row == t.row + 1 || t.row == s.row + 1))
  }

  /** Site `s` is inside the grid and its flag in `open` is set. */
  predicate OpenAt(n: int, open: seq<bool>, s: Site) {
    InGrid(n, s) && |open| == n * n && open[Index(n, s)]
  }

  /** `p` is a chain of open sites, each one adjacent to the next. */
  predicate IsChain(n: int, open: seq<bool>, p: seq<Site>) {
    && |p| >= 1
    && (forall i | 0 <= i < |p| :: OpenAt(n, open, p[i]))
    && (forall i | 0 <= i < |p| - 1 :: Adjacent(p[i], p[i + 1]))
  }

  /** Reference meaning of a full site: a chain of open sites leads from it
      to an open site of row 0. */
  ghost predicate ReachesTop(n: int, open: seq<bool>, s: Site) {
    exists p: seq<Site> :: IsChain(n, open, p) && p[0] == s && p[|p| - 1].row == 0
  }

  /** Reference meaning of percolation: a chain of open sites joins an open
      site of row 0 to an open site of row n - 1. */
  ghost predicate Spans(n: int, open: seq<bool>) {
    exists p: seq<Site> :: IsChain(n, open, p) && p[0].row == 0 && p[|p| - 1].row == n - 1
  }

  /** Number of set flags. */
  function CountOpen(flags: seq<bool>): (c: nat)
    ensures c <= |flags|
  {
    if |flags| == 0 then 0
    else CountOpen(flags[..|flags| - 1]) + (if flags[|flags| - 1] then 1 else 0)
  }

  /** Positions of the set flags. */
  function OpenPositions(flags: seq<bool>): set<int> {
    set k | 0 <= k < |flags| && flags[k]
  }

  /** The counter agrees with the number of set positions. */
  lemma {:induction false} CountOpenIsCardinality(flags: seq<bool>)
    ensures CountOpen(flags) == |OpenPositions(flags)|
  {
    if |flags| > 0 {
      var init := flags[..|flags| - 1];
      CountOpenIsCardinality(init);
      var last := |flags| - 1;
      assert OpenPositions(flags) ==
        OpenPositions(init) + (if flags[last] then {last} else {});
    }
  }

  /** Setting one flag raises the count by one exactly when it was clear. */
  lemma CountOpenSet(flags: seq<bool>, k: int)
    requires 0 <= k < |flags|
    ensures CountOpen(flags[k := true]) == CountOpen(flags) + (if flags[k] then 0 else 1)
  {
    CountOpenIsCardinality(flags);
    CountOpenIsCardinality(flags[k := true]);
    assert OpenPositions(flags[k := true]) == OpenPositions(flags) + {k};
    if flags[k] {
      assert flags[k := true] == flags;
    } else {
      assert k !in OpenPositions(flags);
    }
  }
}
