/**
 Paths in a graph that is given by an edge test. The rating graph and the board both use
 it to say what being connected means: some sequence of nodes, each joined to the next,
 leads from one to the other. Whatever every edge preserves, every path preserves.
 */
module Paths {

  import opened Sequences

  type Edge = (int, int) -> bool

  ghost predicate IsPath(edge: Edge, p: seq<int>)
  {
    p != [] && forall i :: 0 <= i < |p| - 1 ==> edge(p[i], p[i+1])
  }

  ghost predicate Connects(edge: Edge, p: seq<int>, a: int, b: int)
  {
    IsPath(edge, p) && p[0] == a && p[|p|-1] == b
  }

  /** Some path of edges leads from a to b. */
  ghost predicate Connected(edge: Edge, a: int, b: int)
  {
    exists p :: Connects(edge, p, a, b)
  }

  lemma ConnectedToSelf(edge: Edge, a: int)
    ensures Connected(edge, a, a)
  {
    assert Connects(edge, [a], a, a);
  }

  lemma ConnectedByEdge(edge: Edge, a: int, b: int)
    requires edge(a, b)
    ensures Connected(edge, a, b)
  {
    assert Connects(edge, [a, b], a, b);
  }

  lemma ConnectedTransitively(edge: Edge, a: int, b: int, c: int)
    requires Connected(edge, a, b) && Connected(edge, b, c)
    ensures Connected(edge, a, c)
  {
    var p :| Connects(edge, p, a, b);
    var q :| Connects(edge, q, b, c);
    assert Connects(edge, p + q[1..], a, c);
  }

  ghost predicate Symmetric(edge: Edge)
  {
    forall a, b :: edge(a, b) ==> edge(b, a)
  }

  lemma ConnectedBackwards(edge: Edge, a: int, b: int)
    requires Symmetric(edge) && Connected(edge, a, b)
    ensures Connected(edge, b, a)
  {
    var p :| Connects(edge, p, a, b);
    var r := Reversed(p);
    forall i | 0 <= i < |r| - 1
      ensures edge(r[i], r[i+1])
    {
      var k := |p| - 2 - i;
      assert edge(p[k], p[k+1]);
      assert r[i] == p[k+1] && r[i+1] == p[k];
    }
    assert Connects(edge, r, b, a);
  }

  /** What every edge preserves, every path preserves. */
  lemma {:induction false} PreservedAlong(edge: Edge, holds: int -> bool, p: seq<int>)
    requires IsPath(edge, p) && holds(p[0])
    requires forall a, b :: holds(a) && edge(a, b) ==> holds(b)
    ensures holds(p[|p|-1])
  {
    if |p| > 1 {
      var a, b := p[0], p[1];
      assert edge(a, b);
      assert holds(a);
      assert holds(b);
      PreservedAlong(edge, holds, p[1..]);
    }
  }

  /** A set closed under the edges keeps everything its members can reach. */
  lemma ClosedSetKeepsReachable(edge: Edge, s: set<int>, a: int, b: int)
    requires forall x, y :: x in s && edge(x, y) ==> y in s
    requires a in s && Connected(edge, a, b)
    ensures b in s
  {
    var p :| Connects(edge, p, a, b);
    PreservedAlong(edge, x => x in s, p);
  }

  /** More edges connect at least as much. */
  lemma MoreEdges(e: Edge, f: Edge, a: int, b: int)
    requires forall x, y :: e(x, y) ==> f(x, y)
    requires Connected(e, a, b)
    ensures Connected(f, a, b)
  {
    var p :| Connects(e, p, a, b);
    forall i | 0 <= i < |p| - 1
      ensures f(p[i], p[i+1])
    {
      var x, y := p[i], p[i+1];
      assert e(x, y);
      assert f(x, y);
    }
    assert Connects(f, p, a, b);
  }
}
