/**
 An abstract model of the disjoint-set structure the percolation grid
 delegates to (algs4 WeightedQuickUnionUF). Weighting and path compression
 are internal to that library and invisible to its callers, so only what it
 promises is kept: a fixed number of elements 0..size-1 and the history of
 `union` calls. Two elements are connected when a chain of unioned pairs
 joins them, that is, when they lie in the same class of the equivalence
 relation generated by the unions.
 */
module UnionFind {

  datatype UF = UF(size: nat, unions: set<(int, int)>)

  predicate InRange(u: UF, a: int) {
    0 <= a < u.size
  }

  /** Every recorded union joins two elements of the structure. */
  predicate UnionsInRange(u: UF) {
    forall e | e in u.unions :: InRange(u, e.0) && InRange(u, e.1)
  }

  /** `a` and `b` were passed together to one `union` call, in either order. */
  predicate Linked(u: UF, a: int, b: int) {
    (a, b) in u.unions || (b, a) in u.unions
  }

  /** `q` steps from element to element along recorded unions. */
  predicate IsWalk(u: UF, q: seq<int>) {
    |q| >= 1 && forall i | 0 <= i < |q| - 1 :: Linked(u, q[i], q[i + 1])
  }

  /** The `connected(a, b)` query: `a` and `b` are in the same class. */
  ghost predicate Connected(u: UF, a: int, b: int) {
    && InRange(u, a)
    && InRange(u, b)
    && exists q :: IsWalk(u, q) && q[0] == a && q[|q| - 1] == b
  }

  /** The constructor `WeightedQuickUnionUF(n)`: n singleton classes. */
  function Make(n: nat): (u: UF)
    ensures u.size == n && UnionsInRange(u)
  {
    UF(n, {})
  }

  /** `union(a, b)`: merges the classes of `a` and `b`. */
  function Union(u: UF, a: int, b: int): (r: UF)
    requires InRange(u, a) && InRange(u, b)
    ensures r.size == u.size
    ensures UnionsInRange(u) ==> UnionsInRange(r)
    ensures Connected(r, a, b)
  {
    var r := UF(u.size, u.unions + {(a, b)});
    assert IsWalk(r, [a, b]);
    r
  }

  lemma ConnectedReflexive(u: UF, a: int)
    requires InRange(u, a)
    ensures Connected(u, a, a)
  {
    assert IsWalk(u, [a]);
  }

  /** Two elements passed together to `union` share a class. */
  lemma LinkedConnected(u: UF, a: int, b: int)
    requires InRange(u, a) && InRange(u, b) && Linked(u, a, b)
    ensures Connected(u, a, b)
  {
    assert IsWalk(u, [a, b]);
  }

  /** A walk read backwards is a walk. */
  lemma ConnectedSymmetric(u: UF, a: int, b: int)
    requires Connected(u, a, b)
    ensures Connected(u, b, a)
  {
    var q :| IsWalk(u, q) && q[0] == a && q[|q| - 1] == b;
    var rev := seq(|q|, i requires 0 <= i < |q| => q[|q| - 1 - i]);
    forall i | 0 <= i < |rev| - 1
      ensures Linked(u, rev[i], rev[i + 1])
    {
      assert Linked(u, q[|q| - 2 - i], q[|q| - 1 - i]);
    }
    assert IsWalk(u, rev);
  }

  /** Connectedness does not depend on the order of its arguments. */
  lemma ConnectedSymmetricIff(u: UF, a: int, b: int)
    ensures Connected(u, a, b) <==> Connected(u, b, a)
  {
    if Connected(u, a, b) {
      ConnectedSymmetric(u, a, b);
    }
    if Connected(u, b, a) {
      ConnectedSymmetric(u, b, a);
    }
  }

  /** Two walks that meet can be joined. */
  lemma ConnectedTransitive(u: UF, a: int, b: int, c: int)
    requires Connected(u, a, b) && Connected(u, b, c)
    ensures Connected(u, a, c)
  {
    var q1 :| IsWalk(u, q1) && q1[0] == a && q1[|q1| - 1] == b;
    var q2 :| IsWalk(u, q2) && q2[0] == b && q2[|q2| - 1] == c;
    var q := q1 + q2[1..];
    forall i | 0 <= i < |q| - 1
      ensures Linked(u, q[i], q[i + 1])
    {
      if i < |q1| - 1 {
        assert Linked(u, q1[i], q1[i + 1]);
      } else {
        assert Linked(u, q2[i - |q1| + 1], q2[i - |q1| + 2]);
      }
    }
    assert IsWalk(u, q);
  }

  /** Unions are never undone: more unions keep every connection. */
  lemma ConnectedMonotone(u: UF, v: UF, a: int, b: int)
    requires u.size == v.size && u.unions <= v.unions
    requires Connected(u, a, b)
    ensures Connected(v, a, b)
  {
    var q :| IsWalk(u, q) && q[0] == a && q[|q| - 1] == b;
    forall i | 0 <= i < |q| - 1
      ensures Linked(v, q[i], q[i + 1])
    {
      assert Linked(u, q[i], q[i + 1]);
    }
    assert IsWalk(v, q);
  }

  /** A freshly made structure has only singleton classes. */
  lemma MakeSingletons(n: nat, a: int, b: int)
    ensures Connected(Make(n), a, b) <==> 0 <= a < n && a == b
  {
    var u := Make(n);
    if Connected(u, a, b) {
      var q :| IsWalk(u, q) && q[0] == a && q[|q| - 1] == b;
      assert |q| == 1 || Linked(u, q[0], q[1]);
    }
    if 0 <= a < n && a == b {
      ConnectedReflexive(u, a);
    }
  }

  /** Every prefix of a walk under `Union(u, a, b)` ends in the class of its
      start, or crosses the new pair once in one direction. */
  lemma {:induction false} WalkUnderUnion(u: UF, a: int, b: int, q: seq<int>)
    requires UnionsInRange(u) && InRange(u, a) && InRange(u, b)
    requires IsWalk(Union(u, a, b), q) && InRange(u, q[0])
    ensures InRange(u, q[|q| - 1])
    ensures || Connected(u, q[0], q[|q| - 1])
            || (Connected(u, q[0], a) && Connected(u, b, q[|q| - 1]))
            || (Connected(u, q[0], b) && Connected(u, a, q[|q| - 1]))
    decreases |q|
  {
    var x := q[0];
    if |q| == 1 {
      ConnectedReflexive(u, x);
    } else {
      var p := q[..|q| - 1];
      assert IsWalk(Union(u, a, b), p) by {
        forall i | 0 <= i < |p| - 1
          ensures Linked(Union(u, a, b), p[i], p[i + 1])
        {
          assert p[i] == q[i] && p[i + 1] == q[i + 1];
        }
      }
      WalkUnderUnion(u, a, b, p);
      var z, w := q[|q| - 2], q[|q| - 1];
      assert p[|p| - 1] == z;
      assert Linked(Union(u, a, b), z, w);
      ConnectedReflexive(u, a);
      ConnectedReflexive(u, b);
      if Linked(u, z, w) {
        assert InRange(u, w);
        assert IsWalk(u, [z, w]);
        assert Connected(u, z, w);
        if Connected(u, x, z) {
          ConnectedTransitive(u, x, z, w);
        } else if Connected(u, x, a) && Connected(u, b, z) {
          ConnectedTransitive(u, b, z, w);
        } else {
          ConnectedTransitive(u, a, z, w);
        }
      } else if z == a && w == b {
        if Connected(u, x, a) && Connected(u, b, z) {
          assert Connected(u, x, a) && Connected(u, b, w);
        } else if Connected(u, x, b) && Connected(u, a, z) {
          assert Connected(u, x, w);
        } else {
          assert Connected(u, x, a) && Connected(u, b, w);
        }
      } else {
        assert z == b && w == a;
        if Connected(u, x, a) && Connected(u, b, z) {
          assert Connected(u, x, w);
        } else {
          assert Connected(u, x, b) && Connected(u, a, w);
        }
      }
    }
  }

  /** `union(a, b)` merges exactly the classes of `a` and `b`: two elements
      are connected afterwards iff they were before, or one was with `a` and
      the other with `b`. */
  lemma UnionMerges(u: UF, a: int, b: int, x: int, y: int)
    requires UnionsInRange(u) && InRange(u, a) && InRange(u, b)
    ensures Connected(Union(u, a, b), x, y) <==>
            || Connected(u, x, y)
            || (Connected(u, x, a) && Connected(u, b, y))
            || (Connected(u, x, b) && Connected(u, a, y))
  {
    var r := Union(u, a, b);
    if Connected(r, x, y) {
      var q :| IsWalk(r, q) && q[0] == x && q[|q| - 1] == y;
      WalkUnderUnion(u, a, b, q);
    }
    if Connected(u, x, y) {
      ConnectedMonotone(u, r, x, y);
    } else if Connected(u, x, a) && Connected(u, b, y) {
      ConnectedMonotone(u, r, x, a);
      ConnectedMonotone(u, r, b, y);
      ConnectedTransitive(r, x, a, b);
      ConnectedTransitive(r, x, b, y);
    } else if Connected(u, x, b) && Connected(u, a, y) {
      ConnectedMonotone(u, r, x, b);
      ConnectedMonotone(u, r, a, y);
      ConnectedSymmetric(r, a, b);
      ConnectedTransitive(r, x, b, a);
      ConnectedTransitive(r, x, a, y);
    }
  }

  /** Re-unioning two already connected elements changes no answer. */
  lemma UnionOfConnectedIsNoOp(u: UF, a: int, b: int, x: int, y: int)
    requires UnionsInRange(u) && Connected(u, a, b)
    ensures Connected(Union(u, a, b), x, y) <==> Connected(u, x, y)
  {
    UnionMerges(u, a, b, x, y);
    if Connected(u, x, a) && Connected(u, b, y) {
      ConnectedTransitive(u, x, a, b);
      ConnectedTransitive(u, x, b, y);
    } else if Connected(u, x, b) && Connected(u, a, y) {
      ConnectedSymmetric(u, a, b);
      ConnectedTransitive(u, x, b, a);
      ConnectedTransitive(u, x, a, y);
    }
  }
}
