/**
 The search for connected components of the comparison graph, by identity. Identities
 are integers: the code only compares and orders its identity strings.
 */
module Components {
  import opened Paths
  import opened Sequences
  import opened Sets

  type Adjacency = map<int, set<int>>

  /** The graph as the fit builds it: undirected, every neighbour a key. */
  ghost predicate ValidGraph(adjacency: Adjacency)
  {
    forall a, b :: a in adjacency && b in adjacency[a] ==> b in adjacency && a in adjacency[b]
  }

  function Neighbours(adjacency: Adjacency): Edge
  {
    (a: int, b: int) => a in adjacency && b in adjacency[a]
  }

  ghost predicate SameComponent(adjacency: Adjacency, a: int, b: int)
  {
    Connected(Neighbours(adjacency), a, b)
  }

  /** A maximal connected set: some member reaches exactly the members. */
  ghost predicate IsComponent(adjacency: Adjacency, component: set<int>)
  {
    exists a :: a in component && a in adjacency &&
      forall b :: b in component <==> SameComponent(adjacency, a, b)
  }

  function Least(s: set<int>): (x: int)
    requires s != {}
    ensures x in s && forall y :: y in s ==> x <= y
  {
    LeastExists(s);
    var x :| x in s && forall y :: y in s ==> x <= y;
    x
  }

  lemma {:induction false} LeastExists(s: set<int>)
    requires s != {}
    ensures exists x :: x in s && forall y :: y in s ==> x <= y
    decreases s
  {
    EmptyOrInhabited(s);
    var z :| z in s;
    var rest := s - {z};
    if rest == {} {
      assert forall y :: y in s && y != z ==> y in rest;
    } else {
      LeastExists(rest);
      var x :| x in rest && forall y :: y in rest ==> x <= y;
      var least := if z < x then z else x;
      assert forall y :: y in s ==> y == z || y in rest;
      assert least in s && forall y :: y in s ==> least <= y;
    }
  }

  /** The members in ascending order, as sorted() returns them. */
  function Ascending(s: set<int>): (r: seq<int>)
    ensures forall x :: x in s <==> x in r
    ensures forall i, j :: 0 <= i < j < |r| ==> r[i] < r[j]
  {
    if s == {} then []
    else
      var x := Least(s);
      [x] + Ascending(s - {x})
  }

  lemma ComponentStep(adjacency: Adjacency, start: int, identity: int, added: set<int>)
    requires SameComponent(adjacency, start, identity) && identity in adjacency
    requires added <= adjacency[identity]
    ensures forall x :: x in added ==> SameComponent(adjacency, start, x)
  {
    forall x | x in added
      ensures SameComponent(adjacency, start, x)
    {
      ConnectedByEdge(Neighbours(adjacency), identity, x);
      ConnectedTransitively(Neighbours(adjacency), start, identity, x);
    }
  }

  lemma ExploredEverything(adjacency: Adjacency, start: int, component: set<int>)
    requires start in component
    requires forall x, y :: x in component && x in adjacency && y in adjacency[x] ==> y in component
    ensures forall b :: SameComponent(adjacency, start, b) ==> b in component
  {
    forall b | SameComponent(adjacency, start, b)
      ensures b in component
    {
      ClosedSetKeepsReachable(Neighbours(adjacency), component, start, b);
    }
  }

  function Members(p: seq<int>): set<int>
  {
    set x | x in p
  }

  lemma PopMembers(p: seq<int>)
    requires p != []
    ensures Members(p) == Members(p[..|p|-1]) + {p[|p|-1]}
  {
  }

  lemma PushMembers(p: seq<int>, s: set<int>)
    ensures Members(p + Reversed(Ascending(s))) == Members(p) + s
  {
    var q := Reversed(Ascending(s));
    ReversedMembers(Ascending(s));
    assert forall x :: x in p + q <==> x in p || x in q;
  }

  lemma ReversedMembers(p: seq<int>)
    ensures forall x :: x in Reversed(p) <==> x in p
  {
    assert forall i :: 0 <= i < |p| ==> p[i] == Reversed(p)[|p|-1-i];
  }

  /** Everything seen is in the component of start; every neighbour of the explored is seen. */
  ghost predicate Searching(adjacency: Adjacency, start: int, explored: set<int>, pending: set<int>)
  {
    && explored <= adjacency.Keys && pending <= adjacency.Keys
    && start in explored + pending
    && (forall x :: x in explored + pending ==> SameComponent(adjacency, start, x))
    && (forall x, y :: x in explored && y in adjacency[x] ==> y in explored + pending)
  }

  lemma SearchStep(adjacency: Adjacency, start: int, explored: set<int>, pending: set<int>, identity: int)
    requires ValidGraph(adjacency) && Searching(adjacency, start, explored, pending + {identity})
    ensures identity in explored ==> Searching(adjacency, start, explored, pending)
    ensures identity in adjacency
    ensures Searching(adjacency, start, explored + {identity}, pending + (adjacency[identity] - (explored + {identity})))
  {
    hide SameComponent;
    assert identity in explored + (pending + {identity});
    ComponentStep(adjacency, start, identity, adjacency[identity]);
    if identity in explored {
      assert explored + (pending + {identity}) == explored + pending;
    }
    var explored' := explored + {identity};
    var pending' := pending + (adjacency[identity] - explored');
    assert explored' + pending' == explored + (pending + {identity}) + adjacency[identity];
    forall y | y in adjacency[identity]
      ensures y in adjacency.Keys
    {
      assert identity in adjacency;
    }
    forall x | x in explored' + pending'
      ensures SameComponent(adjacency, start, x)
    {
      assert x in explored + (pending + {identity}) || x in adjacency[identity];
    }
    forall x, y | x in explored' && y in adjacency[x]
      ensures y in explored' + pending'
    {
      if x != identity { assert x in explored; }
    }
  }

  /** Depth-first search from one identity with an explicit stack. */
  method Explore(adjacency: Adjacency, start: int) returns (component: set<int>)
    requires ValidGraph(adjacency) && start in adjacency
    ensures component <= adjacency.Keys
    ensures forall b :: b in component <==> SameComponent(adjacency, start, b)
  {
    ConnectedToSelf(Neighbours(adjacency), start);
    var pending := [start];
    component := {};
    assert Searching(adjacency, start, component, Members(pending));
    hide SameComponent, Ascending, Members;
    while pending != []
      invariant Searching(adjacency, start, component, Members(pending))
      decreases adjacency.Keys - component, |pending|
    {
      var identity := pending[|pending|-1];
      PopMembers(pending);
      pending := pending[..|pending|-1];
      SearchStep(adjacency, start, component, Members(pending), identity);
      if identity !in component {
        component := component + {identity};
        PushMembers(pending, adjacency[identity] - component);
        pending := pending + Reversed(Ascending(adjacency[identity] - component));
      }
    }
    assert Members([]) == {} by { NoMembers(); }
    ExploredEverything(adjacency, start, component);
  }

  lemma NoMembers()
    ensures Members([]) == {}
  {
  }

  lemma NeighboursSymmetric(adjacency: Adjacency)
    requires ValidGraph(adjacency)
    ensures Symmetric(Neighbours(adjacency))
  {
  }

  /** Components that share a member are the same. */
  lemma ComponentsDisjointOrSame(adjacency: Adjacency, a: int, b: int, x: int)
    requires ValidGraph(adjacency)
    requires SameComponent(adjacency, a, x) && SameComponent(adjacency, b, x)
    ensures SameComponent(adjacency, a, b)
  {
    NeighboursSymmetric(adjacency);
    ConnectedBackwards(Neighbours(adjacency), b, x);
    ConnectedTransitively(Neighbours(adjacency), a, x, b);
  }

  ghost predicate Covers(components: seq<set<int>>, x: int)
  {
    exists i :: 0 <= i < |components| && x in components[i]
  }

  /** Another component covers its own members besides those covered before. */
  lemma CoversOneMore(components: seq<set<int>>, component: set<int>)
    ensures forall x :: Covers(components + [component], x) <==> Covers(components, x) || x in component
  {
    var more := components + [component];
    forall x
      ensures Covers(more, x) <==> Covers(components, x) || x in component
    {
      if Covers(components, x) {
        var i :| 0 <= i < |components| && x in components[i];
        assert x in more[i];
      }
      if x in component { assert x in more[|components|]; }
      if Covers(more, x) && x !in component {
        var i :| 0 <= i < |more| && x in more[i];
        assert x in components[i];
      }
    }
  }

  lemma RemainderIsClosed(adjacency: Adjacency, start: int, component: set<int>, remaining: set<int>)
    requires ValidGraph(adjacency)
    requires forall b :: b in component <==> SameComponent(adjacency, start, b)
    requires forall x, y :: x in remaining && SameComponent(adjacency, x, y) ==> y in remaining
    ensures forall x, y :: x in remaining - component && SameComponent(adjacency, x, y) ==> y in remaining - component
  {
    forall x, y | x in remaining - component && SameComponent(adjacency, x, y)
      ensures y in remaining - component
    {
      if y in component {
        ComponentsDisjointOrSame(adjacency, start, x, y);
      }
    }
  }

  /** The components found so far and the identities that remain partition the graph. */
  ghost predicate Partition(adjacency: Adjacency, components: seq<set<int>>, remaining: set<int>)
  {
    && (forall i :: 0 <= i < |components| ==> components[i] != {} && IsComponent(adjacency, components[i]))
    && (forall i, j :: 0 <= i < j < |components| ==> components[i] !! components[j])
    && (forall x :: x in adjacency <==> Covers(components, x) || x in remaining)
    && (forall x :: x in remaining ==> !Covers(components, x))
    && (forall x, y :: x in remaining && SameComponent(adjacency, x, y) ==> y in remaining)
  }

  /** The anchor's component comes first, then components by their least identity. */
  ghost predicate InOrder(adjacency: Adjacency, anchor: int, components: seq<set<int>>, remaining: set<int>)
    requires forall i :: 0 <= i < |components| ==> components[i] != {}
  {
    && (components == [] ==> anchor in remaining)
    && (components != [] ==> anchor !in remaining && forall x :: x in components[0] <==> SameComponent(adjacency, anchor, x))
    && (forall i, x :: 1 <= i < |components| && x in remaining ==> Least(components[i]) < x)
    && (forall i, j :: 1 <= i < j < |components| ==> Least(components[i]) < Least(components[j]))
  }

  lemma PartitionOneMore(adjacency: Adjacency, components: seq<set<int>>, remaining: set<int>,
                         start: int, component: set<int>)
    requires ValidGraph(adjacency) && Partition(adjacency, components, remaining) && start in remaining
    requires forall b :: b in component <==> SameComponent(adjacency, start, b)
    ensures start in component && component <= remaining
    ensures Partition(adjacency, components + [component], remaining - component)
  {
    ConnectedToSelf(Neighbours(adjacency), start);
    assert SameComponent(adjacency, start, start);
    hide SameComponent;
    CoversOneMore(components, component);
    RemainderIsClosed(adjacency, start, component, remaining);
    assert start in component && start in adjacency;
    assert IsComponent(adjacency, component);
    forall x | x in component
      ensures x in remaining
    {
      assert SameComponent(adjacency, start, x);
    }
    forall i | 0 <= i < |components|
      ensures components[i] !! component
    {
      forall x | x in components[i]
        ensures x !in component
      {
        assert Covers(components, x);
      }
    }
  }

  lemma OrderOneMore(adjacency: Adjacency, anchor: int, components: seq<set<int>>, remaining: set<int>,
                     start: int, component: set<int>)
    requires forall i :: 0 <= i < |components| ==> components[i] != {}
    requires InOrder(adjacency, anchor, components, remaining)
    requires start in component && component <= remaining
    requires start == if anchor in remaining then anchor else Least(remaining)
    requires forall b :: b in component <==> SameComponent(adjacency, start, b)
    ensures forall i :: 0 <= i < |components + [component]| ==> (components + [component])[i] != {}
    ensures InOrder(adjacency, anchor, components + [component], remaining - component)
  {
    hide SameComponent, Partition, Least;
    var more := components + [component];
    assert forall i :: 0 <= i < |components| ==> more[i] == components[i];
    if components != [] {
      assert start == Least(remaining);
      assert Least(component) == start;
      assert forall x :: x in remaining - component ==> start < x;
    }
  }

  /**
   The code's component list: a partition of the identities into exactly the
   maximal connected sets, the anchor's first and the rest by least identity. That
   is the order its final sort asks for, so the sort moves nothing.
   */
  method ConnectedComponents(adjacency: Adjacency, anchor: int) returns (components: seq<set<int>>)
    requires ValidGraph(adjacency) && anchor in adjacency
    ensures forall i :: 0 <= i < |components| ==> components[i] != {} && IsComponent(adjacency, components[i])
    ensures forall i, j :: 0 <= i < j < |components| ==> components[i] !! components[j]
    ensures forall x :: x in adjacency <==> Covers(components, x)
    ensures components != []
    ensures forall x :: x in components[0] <==> SameComponent(adjacency, anchor, x)
    ensures anchor in components[0]
    ensures forall i, j :: 1 <= i < j < |components| ==> Least(components[i]) < Least(components[j])
  {
    var remaining := adjacency.Keys;
    components := [];
    NothingFound(adjacency, anchor);
    while remaining != {}
      invariant Partition(adjacency, components, remaining) && InOrder(adjacency, anchor, components, remaining)
      decreases remaining
    {
      var start := if anchor in remaining then anchor else Least(remaining);
      assert start in adjacency;
      var component := Explore(adjacency, start);
      PartitionOneMore(adjacency, components, remaining, start, component);
      OrderOneMore(adjacency, anchor, components, remaining, start, component);
      remaining := remaining - component;
      components := components + [component];
    }
    ConnectedToSelf(Neighbours(adjacency), anchor);
  }

  lemma NothingFound(adjacency: Adjacency, anchor: int)
    requires ValidGraph(adjacency) && anchor in adjacency
    ensures Partition(adjacency, [], adjacency.Keys) && InOrder(adjacency, anchor, [], adjacency.Keys)
  {
    forall x, y | x in adjacency && SameComponent(adjacency, x, y)
      ensures y in adjacency
    {
      ClosedSetKeepsReachable(Neighbours(adjacency), adjacency.Keys, x, y);
    }
  }
}
