/** Groups of stones by union-find with path halving, and the drawn channels. */
module GroupPresentation {
  // The groups are exactly the connected sets of stones of one colour.

  import opened Results
  import opened Paths

  const EMPTY: int := -1

  /** Neighbours of u are adj[adjOff[u]], ..., adj[adjOff[u+1] - 1]. */
  datatype Board = Board(n: nat, adjOff: seq<int>, adj: seq<int>)

  predicate Shaped(b: Board)
  {
    && |b.adjOff| == b.n + 1 && b.adjOff[0] == 0 && b.adjOff[b.n] == |b.adj|
    && (forall i, j :: 0 <= i <= j <= b.n ==> b.adjOff[i] <= b.adjOff[j])
    && (forall e :: 0 <= e < |b.adj| ==> 0 <= b.adj[e] < b.n)
  }

  /** Position e of the adjacency list belongs to u. */
  predicate Listed(b: Board, u: int, e: int)
    requires Shaped(b)
  {
    0 <= u < b.n && b.adjOff[u] <= e < b.adjOff[u+1]
  }

  lemma ListedInRange(b: Board, u: int, e: int)
    requires Shaped(b) && Listed(b, u, e)
    ensures 0 <= e < |b.adj|
  {
    assert b.adjOff[0] <= b.adjOff[u] && b.adjOff[u+1] <= b.adjOff[b.n];
  }

  predicate Adjacent(b: Board, u: int, v: int)
    requires Shaped(b)
  {
    exists e :: Listed(b, u, e) && 0 <= e < |b.adj| && b.adj[e] == v
  }

  ghost predicate ValidBoard(b: Board)
  {
    Shaped(b) && forall u, v :: Adjacent(b, u, v) ==> Adjacent(b, v, u)
  }

  predicate Stone(stones: seq<int>, u: int)
  {
    0 <= u < |stones| && stones[u] != EMPTY
  }

  /** Adjacent stones of the same colour. */
  function Channel(b: Board, stones: seq<int>): Edge
    requires Shaped(b)
  {
    (u: int, v: int) => Stone(stones, u) && Stone(stones, v) && stones[u] == stones[v] && Adjacent(b, u, v)
  }

  ghost predicate SameGroup(b: Board, stones: seq<int>, u: int, v: int)
    requires Shaped(b)
  {
    Connected(Channel(b, stones), u, v)
  }

  lemma ChannelSymmetric(b: Board, stones: seq<int>)
    requires ValidBoard(b)
    ensures Symmetric(Channel(b, stones))
  {
  }

  // The forest.

  /** What a forest of parent pointers stands for: each stone's root, and ranks that grow upwards. */
  datatype Forest = Forest(root: seq<int>, rank: seq<nat>, height: nat)

  ghost predicate Represents(f: Forest, parent: seq<int>, stones: seq<int>)
  {
    |parent| == |stones| == |f.root| == |f.rank| &&
    forall u {:trigger Pointer(f, parent, stones, u)} :: Stone(stones, u) ==> Pointer(f, parent, stones, u)
  }

  /** One stone's pointer stays in its tree and climbs, and the tree's root points to itself. */
  ghost predicate Pointer(f: Forest, parent: seq<int>, stones: seq<int>, u: int)
    requires |parent| == |stones| == |f.root| == |f.rank| && Stone(stones, u)
  {
    var p, r := parent[u], f.root[u];
    && Stone(stones, p) && Stone(stones, r)
    && f.root[p] == r && f.root[r] == r && parent[r] == r
    && (if p == u then r == u else f.rank[u] < f.rank[p])
    && f.rank[u] <= f.height
  }

  /** What path halving makes of the pointers: from a node on, every second one is lifted to its grandparent. */
  ghost function PathHalved(f: Forest, parent: seq<int>, stones: seq<int>, u: int): seq<int>
    requires Represents(f, parent, stones) && Stone(stones, u)
    decreases f.height - f.rank[u]
  {
    assert Pointer(f, parent, stones, u);
    if parent[u] == u then parent
    else
      Halved(f, parent, stones, u);
      PathHalved(f, parent[u := parent[parent[u]]], stones, parent[parent[u]])
  }

  /** So the path from the node to its root is about halved: the node now points to its grandparent, and that one to its own. */
  lemma {:induction false} HalvedPointsTwice(f: Forest, parent: seq<int>, stones: seq<int>, u: int)
    requires Represents(f, parent, stones) && Stone(stones, u)
    ensures Stone(stones, parent[u]) && Stone(stones, parent[parent[u]])
    ensures |PathHalved(f, parent, stones, u)| == |parent| && PathHalved(f, parent, stones, u)[u] == parent[parent[u]]
    ensures forall v :: 0 <= v < |parent| && (Stone(stones, v) ==> f.rank[v] < f.rank[u]) ==> PathHalved(f, parent, stones, u)[v] == parent[v]
    decreases f.height - f.rank[u]
  {
    assert Pointer(f, parent, stones, u);
    if parent[u] != u {
      Halved(f, parent, stones, u);
      HalvedPointsTwice(f, parent[u := parent[parent[u]]], stones, parent[parent[u]]);
    }
  }

  /** Path halving: every step lifts one pointer to its grandparent. */
  method Find(parent: array<int>, node: int, stones: seq<int>, ghost f: Forest) returns (root: int)
    requires Represents(f, parent[..], stones) && Stone(stones, node)
    modifies parent
    ensures Represents(f, parent[..], stones)
    ensures root == f.root[node] && Stone(stones, root) && parent[root] == root
    ensures parent[..] == PathHalved(f, old(parent[..]), stones, node)
  {
    root := node;
    assert Pointer(f, parent[..], stones, root);
    while parent[root] != root
      invariant Represents(f, parent[..], stones)
      invariant Stone(stones, root) && PathHalved(f, parent[..], stones, root) == PathHalved(f, old(parent[..]), stones, node)
      invariant Stone(stones, root) && f.root[root] == f.root[node]
      decreases f.height - f.rank[root]
    {
      Halved(f, parent[..], stones, root);
      ghost var before := parent[..];
      parent[root] := parent[parent[root]];
      assert parent[..] == before[root := before[before[root]]];
      root := parent[root];
    }
    assert Pointer(f, parent[..], stones, root);
  }

  lemma Halved(f: Forest, parent: seq<int>, stones: seq<int>, u: int)
    requires Represents(f, parent, stones) && Stone(stones, u) && parent[u] != u
    ensures Stone(stones, parent[u]) && Stone(stones, parent[parent[u]])
    ensures Represents(f, parent[u := parent[parent[u]]], stones)
    ensures f.rank[u] < f.rank[parent[parent[u]]] <= f.height
    ensures f.root[parent[parent[u]]] == f.root[u]
  {
    assert Pointer(f, parent, stones, u);
    var p := parent[u];
    assert Pointer(f, parent, stones, p);
    var q := parent[p];
    assert Pointer(f, parent, stones, q);
    var halved := parent[u := q];
    forall w | Stone(stones, w)
      ensures Pointer(f, halved, stones, w)
    {
      assert Pointer(f, parent, stones, w);
    }
  }

  lemma RootPointsToItself(f: Forest, parent: seq<int>, stones: seq<int>, u: int)
    requires Represents(f, parent, stones) && Stone(stones, u)
    ensures Stone(stones, f.root[u]) && parent[f.root[u]] == f.root[u]
  {
    assert Pointer(f, parent, stones, u);
  }

  /** The forest after the root v is hung below the root u. */
  function Hung(f: Forest, u: int, v: int): (g: Forest)
    requires 0 <= u < |f.rank| && 0 <= v < |f.rank|
    ensures |g.root| == |f.root| && |g.rank| == |f.rank|
  {
    Forest(seq(|f.root|, i requires 0 <= i < |f.root| => if f.root[i] == v then u else f.root[i]),
           f.rank[u := if f.rank[u] > f.rank[v] then f.rank[u] else f.rank[v] + 1],
           f.height + 1)
  }

  lemma HungRepresents(f: Forest, parent: seq<int>, stones: seq<int>, u: int, v: int)
    requires Represents(f, parent, stones) && Stone(stones, u) && Stone(stones, v)
    requires parent[u] == u && parent[v] == v && u != v
    ensures Represents(Hung(f, u, v), parent[v := u], stones)
  {
    var g := Hung(f, u, v);
    assert Pointer(f, parent, stones, u) && Pointer(f, parent, stones, v);
    forall w | Stone(stones, w)
      ensures Pointer(g, parent[v := u], stones, w)
    {
      assert Pointer(f, parent, stones, w);
    }
  }

  // Joining along channels.

  /** Every stone is joined to its root by channels. */
  ghost predicate Sound(b: Board, stones: seq<int>, f: Forest)
    requires Shaped(b)
  {
    |f.root| == |stones| && forall u :: Stone(stones, u) ==> SameGroup(b, stones, u, f.root[u])
  }

  /** The channel at position e is one that the scan joins. */
  predicate Joins(b: Board, stones: seq<int>, u: int, e: int)
    requires Shaped(b)
  {
    Listed(b, u, e) && 0 <= e < |b.adj| && u < b.adj[e] && Stone(stones, u) && Stone(stones, b.adj[e]) && stones[b.adj[e]] == stones[u]
  }

  /** Channels before the scan's position have both ends under one root. */
  ghost predicate Joined(b: Board, stones: seq<int>, f: Forest, node: int, edge: int)
    requires Shaped(b) && |f.root| == |stones|
  {
    forall u, e :: Joins(b, stones, u, e) && (u < node || (u == node && e < edge)) ==> f.root[u] == f.root[b.adj[e]]
  }

  lemma HungKeepsJoined(b: Board, stones: seq<int>, f: Forest, u: int, v: int, node: int, edge: int)
    requires Shaped(b) && |f.root| == |stones| == |f.rank| && Stone(stones, u) && Stone(stones, v)
    requires Joined(b, stones, f, node, edge)
    ensures Joined(b, stones, Hung(f, u, v), node, edge)
  {
  }

  lemma HungKeepsSound(b: Board, stones: seq<int>, f: Forest, node: int, neighbour: int)
    requires ValidBoard(b) && Stone(stones, node) && Stone(stones, neighbour) && |f.rank| == |stones|
    requires Sound(b, stones, f) && Stone(stones, f.root[node]) && Stone(stones, f.root[neighbour])
    requires Channel(b, stones)(node, neighbour)
    ensures Sound(b, stones, Hung(f, f.root[node], f.root[neighbour]))
  {
    var edge := Channel(b, stones);
    ChannelSymmetric(b, stones);
    var u, v := f.root[node], f.root[neighbour];
    ConnectedBackwards(edge, neighbour, v);
    ConnectedByEdge(edge, node, neighbour);
    ConnectedBackwards(edge, node, neighbour);
    ConnectedTransitively(edge, v, neighbour, node);
    ConnectedTransitively(edge, v, node, u);
    forall w | Stone(stones, w)
      ensures SameGroup(b, stones, w, Hung(f, u, v).root[w])
    {
      if f.root[w] == v { ConnectedTransitively(edge, w, v, u); }
    }
  }

  method Union(b: Board, stones: seq<int>, parent: array<int>, node: int, edge: int, ghost f: Forest) returns (ghost g: Forest)
    requires ValidBoard(b) && |stones| == b.n && Joins(b, stones, node, edge)
    requires |f.root| == |stones| && Represents(f, parent[..], stones)
    requires Sound(b, stones, f) && Joined(b, stones, f, node, edge)
    modifies parent
    ensures |g.root| == |stones| && Represents(g, parent[..], stones)
    ensures Sound(b, stones, g) && Joined(b, stones, g, node, edge + 1)
  {
    var neighbour := b.adj[edge];
    assert Channel(b, stones)(node, neighbour);
    hide Joins, Sound, Joined, Represents;
    var nodeRoot := Find(parent, node, stones, f);
    var neighbourRoot := Find(parent, neighbour, stones, f);
    g := f;
    if nodeRoot != neighbourRoot {
      RootPointsToItself(f, parent[..], stones, node);
      HungRepresents(f, parent[..], stones, nodeRoot, neighbourRoot);
      HungKeepsJoined(b, stones, f, nodeRoot, neighbourRoot, node, edge);
      assert Sound(b, stones, f);
      HungKeepsSound(b, stones, f, node, neighbour);
      parent[neighbourRoot] := nodeRoot;
      g := Hung(f, nodeRoot, neighbourRoot);
    }
  }

  /** The scan over all channels. */
  method JoinChannels(b: Board, stones: seq<int>, parent: array<int>) returns (ghost f: Forest)
    requires ValidBoard(b) && |stones| == b.n == parent.Length
    requires forall u :: Stone(stones, u) ==> parent[u] == u
    modifies parent
    ensures |f.root| == |stones| && Represents(f, parent[..], stones) && Grouped(b, stones, f.root)
  {
    hide Joins, Joined, Sound, Represents, Pointer, SameGroup, Channel, Adjacent, Grouped;
    f := Forest(seq(b.n, i => i), seq(b.n, i => 0), 0);
    SingleStones(b, stones, f, parent[..]);
    for node := 0 to b.n
      invariant |f.root| == |stones| && Represents(f, parent[..], stones)
      invariant Sound(b, stones, f) && Joined(b, stones, f, node, 0)
    {
      var colour := stones[node];
      if colour == EMPTY {
        NothingToJoin(b, stones, f, node);
        continue;
      }
      JoinedStarts(b, stones, f, node);
      for edge := b.adjOff[node] to b.adjOff[node+1]
        invariant |f.root| == |stones| && Represents(f, parent[..], stones)
        invariant Sound(b, stones, f) && Joined(b, stones, f, node, edge)
      {
        ListedInRange(b, node, edge);
        var neighbour := b.adj[edge];
        if neighbour <= node || stones[neighbour] != colour {
          SkippedEdge(b, stones, f, node, edge);
          continue;
        }
        assert Joins(b, stones, node, edge) by { IsJoin(b, stones, node, edge); }
        f := Union(b, stones, parent, node, edge, f);
      }
      JoinedRow(b, stones, f, node);
    }
    JoinedIsGrouped(b, stones, f, parent[..]);
  }

  lemma SingleStones(b: Board, stones: seq<int>, f: Forest, parent: seq<int>)
    requires Shaped(b) && |stones| == b.n == |parent|
    requires f == Forest(seq(b.n, i => i), seq(b.n, i => 0), 0)
    requires forall u :: Stone(stones, u) ==> parent[u] == u
    ensures Represents(f, parent, stones) && Sound(b, stones, f) && Joined(b, stones, f, 0, 0)
  {
    forall u | Stone(stones, u)
      ensures SameGroup(b, stones, u, f.root[u])
    {
      ConnectedToSelf(Channel(b, stones), u);
    }
    forall u | Stone(stones, u)
      ensures Pointer(f, parent, stones, u)
    {
    }
  }

  lemma NothingToJoin(b: Board, stones: seq<int>, f: Forest, node: int)
    requires Shaped(b) && |f.root| == |stones| && Joined(b, stones, f, node, 0) && !Stone(stones, node)
    ensures Joined(b, stones, f, node + 1, 0)
  {
  }

  lemma JoinedStarts(b: Board, stones: seq<int>, f: Forest, node: int)
    requires Shaped(b) && |f.root| == |stones| && Joined(b, stones, f, node, 0) && 0 <= node < b.n
    ensures Joined(b, stones, f, node, b.adjOff[node])
  {
  }

  lemma SkippedEdge(b: Board, stones: seq<int>, f: Forest, node: int, edge: int)
    requires Shaped(b) && |f.root| == |stones| == b.n && Joined(b, stones, f, node, edge)
    requires Listed(b, node, edge) && 0 <= edge < |b.adj|
    requires b.adj[edge] <= node || stones[b.adj[edge]] != stones[node]
    ensures Joined(b, stones, f, node, edge + 1)
  {
  }

  lemma IsJoin(b: Board, stones: seq<int>, node: int, edge: int)
    requires Shaped(b) && |stones| == b.n && Listed(b, node, edge) && 0 <= edge < |b.adj|
    requires node < b.adj[edge] && stones[b.adj[edge]] == stones[node] != EMPTY
    ensures Joins(b, stones, node, edge)
  {
  }

  lemma JoinedRow(b: Board, stones: seq<int>, f: Forest, node: int)
    requires Shaped(b) && |f.root| == |stones| && 0 <= node < b.n && Joined(b, stones, f, node, b.adjOff[node+1])
    ensures Joined(b, stones, f, node + 1, 0)
  {
    forall u, e | Joins(b, stones, u, e) && (u < node + 1 || (u == node + 1 && e < 0))
      ensures f.root[u] == f.root[b.adj[e]]
    {
      assert b.adjOff[0] <= b.adjOff[u];
    }
  }

  /** Two stones have one root exactly when channels join them. */
  ghost predicate Grouped(b: Board, stones: seq<int>, root: seq<int>)
    requires Shaped(b)
  {
    |root| == |stones| &&
    (forall u :: Stone(stones, u) ==> Stone(stones, root[u]) && root[root[u]] == root[u]) &&
    (forall u, v :: Stone(stones, u) && Stone(stones, v) ==> (root[u] == root[v] <==> SameGroup(b, stones, u, v)))
  }

  lemma JoinedIsGrouped(b: Board, stones: seq<int>, f: Forest, parent: seq<int>)
    requires ValidBoard(b) && |stones| == b.n && Represents(f, parent, stones)
    requires Sound(b, stones, f) && Joined(b, stones, f, b.n, 0)
    ensures Grouped(b, stones, f.root)
  {
    forall u | Stone(stones, u)
      ensures Stone(stones, f.root[u]) && f.root[f.root[u]] == f.root[u]
    {
      assert Pointer(f, parent, stones, u);
    }
    forall u, v | Stone(stones, u) && Stone(stones, v)
      ensures f.root[u] == f.root[v] <==> SameGroup(b, stones, u, v)
    {
      if SameGroup(b, stones, u, v) { SameGroupSameRoot(b, stones, f, u, v); }
      if f.root[u] == f.root[v] { SameRootSameGroup(b, stones, f, u, v); }
    }
  }

  lemma SameRootSameGroup(b: Board, stones: seq<int>, f: Forest, u: int, v: int)
    requires ValidBoard(b) && Sound(b, stones, f) && Stone(stones, u) && Stone(stones, v) && f.root[u] == f.root[v]
    ensures SameGroup(b, stones, u, v)
  {
    ChannelSymmetric(b, stones);
    ConnectedBackwards(Channel(b, stones), v, f.root[v]);
    ConnectedTransitively(Channel(b, stones), u, f.root[u], v);
  }

  lemma SameGroupSameRoot(b: Board, stones: seq<int>, f: Forest, u: int, v: int)
    requires ValidBoard(b) && |stones| == b.n == |f.root| && Joined(b, stones, f, b.n, 0)
    requires Stone(stones, u) && Stone(stones, v) && SameGroup(b, stones, u, v)
    ensures f.root[u] == f.root[v]
  {
    var edge := Channel(b, stones);
    var holds := (x: int) => Stone(stones, x) && f.root[x] == f.root[u];
    forall x, y | holds(x) && edge(x, y)
      ensures holds(y)
    {
      ChannelJoined(b, stones, f, x, y);
    }
    var p :| Connects(edge, p, u, v);
    PreservedAlong(edge, holds, p);
    assert holds(v);
  }

  lemma ChannelJoined(b: Board, stones: seq<int>, f: Forest, x: int, y: int)
    requires ValidBoard(b) && |stones| == b.n == |f.root| && Joined(b, stones, f, b.n, 0)
    requires Channel(b, stones)(x, y)
    ensures f.root[x] == f.root[y]
  {
    if x < y {
      var e :| Listed(b, x, e) && 0 <= e < |b.adj| && b.adj[e] == y;
      assert Joins(b, stones, x, e);
    } else if y < x {
      assert Adjacent(b, y, x);
      var e :| Listed(b, y, e) && 0 <= e < |b.adj| && b.adj[e] == x;
      assert Joins(b, stones, y, e);
    }
  }

  // Sizes.

  /** The stones of a group among the first k nodes. */
  function Size(stones: seq<int>, root: seq<int>, r: int, k: nat): nat
    requires k <= |stones| == |root|
  {
    if k == 0 then 0
    else Size(stones, root, r, k - 1) + (if Stone(stones, k - 1) && root[k-1] == r then 1 else 0)
  }

  function Stones(stones: seq<int>, k: nat): nat
    requires k <= |stones|
  {
    if k == 0 then 0 else Stones(stones, k - 1) + (if Stone(stones, k - 1) then 1 else 0)
  }

  function SumOf(xs: seq<int>): int
  {
    if xs == [] then 0 else SumOf(xs[..|xs|-1]) + xs[|xs|-1]
  }

  ghost function Group(b: Board, stones: seq<int>, u: int): set<int>
    requires Shaped(b)
  {
    set v | 0 <= v < |stones| && Stone(stones, v) && SameGroup(b, stones, u, v)
  }

  /** A group's size is the number of stones connected to any of its members. */
  lemma SizeIsCardinality(b: Board, stones: seq<int>, root: seq<int>, u: int)
    requires Shaped(b) && Grouped(b, stones, root) && Stone(stones, u)
    ensures Size(stones, root, root[u], |stones|) == |Group(b, stones, u)|
  {
    SizeCounts(stones, root, root[u], |stones|);
    assert Group(b, stones, u) == set v | 0 <= v < |stones| && Stone(stones, v) && root[v] == root[u];
  }

  lemma {:induction false} SizeCounts(stones: seq<int>, root: seq<int>, r: int, k: nat)
    requires k <= |stones| == |root|
    ensures Size(stones, root, r, k) == |set v | 0 <= v < k && Stone(stones, v) && root[v] == r|
  {
    var all := set v | 0 <= v < k && Stone(stones, v) && root[v] == r;
    if k > 0 {
      SizeCounts(stones, root, r, k - 1);
      var before := set v | 0 <= v < k - 1 && Stone(stones, v) && root[v] == r;
      if Stone(stones, k - 1) && root[k-1] == r {
        assert all == before + {k - 1};
      } else {
        assert all == before;
      }
    } else {
      assert all == {};
    }
  }

  /** The sizes of all groups among the first k nodes. */
  function Sizes(stones: seq<int>, root: seq<int>, k: nat): (sizes: seq<int>)
    requires k <= |stones| == |root|
    ensures |sizes| == |stones| && forall r :: 0 <= r < |sizes| ==> sizes[r] == Size(stones, root, r, k)
  {
    seq(|stones|, r => Size(stones, root, r, k))
  }

  lemma {:induction false} SumUpdate(xs: seq<int>, i: nat, x: int)
    requires i < |xs|
    ensures SumOf(xs[i := x]) == SumOf(xs) + x - xs[i]
  {
    var m := |xs| - 1;
    if i == m {
      assert xs[i := x][..m] == xs[..m];
    } else {
      assert xs[i := x][..m] == xs[..m][i := x];
      SumUpdate(xs[..m], i, x);
    }
  }

  /** Every stone is counted in exactly one group. */
  lemma {:induction false} SizesCountStones(stones: seq<int>, root: seq<int>, k: nat)
    requires k <= |stones| == |root|
    requires forall u :: Stone(stones, u) ==> Stone(stones, root[u])
    ensures SumOf(Sizes(stones, root, k)) == Stones(stones, k)
  {
    if k == 0 {
      NoSizes(Sizes(stones, root, 0));
    } else {
      SizesCountStones(stones, root, k - 1);
      var before := Sizes(stones, root, k - 1);
      if Stone(stones, k - 1) {
        var r := root[k-1];
        SumUpdate(before, r, before[r] + 1);
        assert Sizes(stones, root, k) == before[r := before[r] + 1];
      } else {
        assert Sizes(stones, root, k) == before;
      }
    }
  }

  lemma {:induction false} NoSizes(xs: seq<int>)
    requires forall i :: 0 <= i < |xs| ==> xs[i] == 0
    ensures SumOf(xs) == 0
  {
    if xs != [] { NoSizes(xs[..|xs|-1]); }
  }

  /**
   The union-find half of the code. Two stones carry the same group number exactly when
   a path of adjacent stones of their colour joins them.
   */
  method BuildGroups(b: Board, stones: seq<int>) returns (groupOf: array<int>, groupSize: array<int>)
    requires ValidBoard(b) && |stones| == b.n
    ensures fresh(groupOf) && fresh(groupSize) && groupOf.Length == groupSize.Length == b.n
    ensures Grouped(b, stones, groupOf[..])
    ensures forall u :: 0 <= u < b.n && !Stone(stones, u) ==> groupOf[u] == -1
    ensures groupSize[..] == Sizes(stones, groupOf[..], b.n)
    ensures SumOf(groupSize[..]) == Stones(stones, b.n)
  {
    var parent := new int[b.n](_ => -1);
    for node := 0 to b.n
      invariant forall u :: 0 <= u < node && Stone(stones, u) ==> parent[u] == u
    {
      if stones[node] != EMPTY { parent[node] := node; }
    }
    ghost var f := JoinChannels(b, stones, parent);
    groupOf, groupSize := CountGroups(stones, parent, f);
    hide Grouped, Represents;
    GroupedSame(b, stones, f.root, groupOf[..]);
    assert groupSize[..] == Sizes(stones, groupOf[..], b.n);
    SizesCountStones(stones, groupOf[..], b.n);
  }

  method CountGroups(stones: seq<int>, parent: array<int>, ghost f: Forest) returns (groupOf: array<int>, groupSize: array<int>)
    requires Represents(f, parent[..], stones) && |f.root| == |stones| == parent.Length
    modifies parent
    ensures fresh(groupOf) && fresh(groupSize) && groupOf.Length == groupSize.Length == |stones|
    ensures forall u :: 0 <= u < |stones| ==> groupOf[u] == if Stone(stones, u) then f.root[u] else -1
    ensures forall r :: 0 <= r < |stones| ==> groupSize[r] == Size(stones, f.root, r, |stones|)
  {
    hide Represents;
    groupOf := new int[|stones|](_ => -1);
    groupSize := new int[|stones|](_ => 0);
    for node := 0 to |stones|
      invariant Represents(f, parent[..], stones)
      invariant forall u :: 0 <= u < |stones| ==> groupOf[u] == if u < node && Stone(stones, u) then f.root[u] else -1
      invariant forall r :: 0 <= r < |stones| ==> groupSize[r] == Size(stones, f.root, r, node)
    {
      if stones[node] == EMPTY { continue; }
      var root := Find(parent, node, stones, f);
      groupOf[node] := root;
      groupSize[root] := groupSize[root] + 1;
    }
  }

  /** Only the roots of stones matter. */
  lemma GroupedSame(b: Board, stones: seq<int>, root: seq<int>, groupOf: seq<int>)
    requires Shaped(b) && Grouped(b, stones, root) && |groupOf| == |stones|
    requires forall u :: Stone(stones, u) ==> groupOf[u] == root[u]
    ensures Grouped(b, stones, groupOf)
    ensures forall u :: Stone(stones, u) ==> Stone(stones, groupOf[u])
    ensures forall r :: Size(stones, groupOf, r, |stones|) == Size(stones, root, r, |stones|)
  {
    forall r
      ensures Size(stones, groupOf, r, |stones|) == Size(stones, root, r, |stones|)
    {
      SameSize(stones, root, groupOf, r, |stones|);
    }
  }

  lemma {:induction false} SameSize(stones: seq<int>, root: seq<int>, groupOf: seq<int>, r: int, k: nat)
    requires k <= |stones| == |root| == |groupOf|
    requires forall u :: Stone(stones, u) ==> groupOf[u] == root[u]
    ensures Size(stones, groupOf, r, k) == Size(stones, root, r, k)
  {
    if k > 0 { SameSize(stones, root, groupOf, r, k - 1); }
  }

  // The drawn channels.

  datatype Segment = Segment(from: int, to: int)

  /** The channel at position e is drawn: its stones have the same playing colour. */
  predicate Draws(b: Board, stones: seq<int>, u: int, e: int)
    requires Shaped(b)
  {
    Joins(b, stones, u, e) && stones[u] in {0, 1}
  }

  /** The segments drawn before the scan's position, in order. */
  function Drawn(b: Board, stones: seq<int>, node: nat, edge: int): (segments: seq<Segment>)
    requires Shaped(b) && node <= b.n && b.adjOff[node] <= edge <= (if node < b.n then b.adjOff[node+1] else edge)
    requires node == b.n ==> edge == b.adjOff[node]
    decreases node, edge
  {
    if edge > b.adjOff[node] then
      assert b.adjOff[0] <= b.adjOff[node];
      Drawn(b, stones, node, edge - 1) + (if Draws(b, stones, node, edge - 1) then [Segment(node, b.adj[edge-1])] else [])
    else if node > 0 then
      assert b.adjOff[node-1] <= b.adjOff[node];
      Drawn(b, stones, node - 1, edge)
    else []
  }

  function AllDrawn(b: Board, stones: seq<int>): seq<Segment>
    requires Shaped(b)
  {
    Drawn(b, stones, b.n, b.adjOff[b.n])
  }

  /** The drawn segments are the channels of stones of playing colour, lesser node first. */
  lemma {:induction false} DrawnAre(b: Board, stones: seq<int>, node: nat, edge: int)
    requires Shaped(b) && node <= b.n && b.adjOff[node] <= edge <= (if node < b.n then b.adjOff[node+1] else edge)
    requires node == b.n ==> edge == b.adjOff[node]
    ensures forall u, e :: Draws(b, stones, u, e) && (u < node || (u == node && e < edge)) ==>
      Segment(u, b.adj[e]) in Drawn(b, stones, node, edge)
    ensures forall s :: s in Drawn(b, stones, node, edge) ==>
      s.from < s.to && Channel(b, stones)(s.from, s.to) && stones[s.from] in {0, 1}
    decreases node, edge
  {
    if edge > b.adjOff[node] {
      assert b.adjOff[0] <= b.adjOff[node];
      DrawnAre(b, stones, node, edge - 1);
      if Draws(b, stones, node, edge - 1) {
        assert Adjacent(b, node, b.adj[edge-1]);
      }
    } else if node > 0 {
      assert b.adjOff[node-1] <= b.adjOff[node];
      DrawnAre(b, stones, node - 1, edge);
      forall u, e | Draws(b, stones, u, e) && (u < node || (u == node && e < edge))
        ensures u < node - 1 || (u == node - 1 && e < edge)
      {
        assert b.adjOff[u+1] <= b.adjOff[node];
      }
    }
  }

  function Select(segments: seq<Segment>, picks: Segment -> bool): (r: seq<Segment>)
  {
    if segments == [] then []
    else
      var k := |segments| - 1;
      Select(segments[..k], picks) + (if picks(segments[k]) then [segments[k]] else [])
  }

  lemma SelectAppend(segments: seq<Segment>, s: Segment, picks: Segment -> bool)
    ensures Select(segments + [s], picks) == Select(segments, picks) + (if picks(s) then [s] else [])
  {
    assert (segments + [s])[..|segments|] == segments;
  }

  /** A mark array that may be missing or too short marks nothing there. */
  predicate Marked(marks: Option<seq<int>>, u: int)
  {
    marks.Some? && 0 <= u < |marks.value| && marks.value[u] == 1
  }

  predicate Synthetic(marks: Option<seq<int>>, s: Segment)
  {
    Marked(marks, s.from) || Marked(marks, s.to)
  }

  predicate HasColour(stones: seq<int>, c: int, u: int)
  {
    0 <= u < |stones| && stones[u] == c
  }

  function PlainIn(stones: seq<int>, synthetic: Option<seq<int>>, c: int): Segment -> bool
  {
    (s: Segment) => HasColour(stones, c, s.from) && !Synthetic(synthetic, s)
  }

  function SyntheticIn(stones: seq<int>, synthetic: Option<seq<int>>, c: int): Segment -> bool
  {
    (s: Segment) => HasColour(stones, c, s.from) && Synthetic(synthetic, s)
  }

  function NetworkIn(stones: seq<int>, alive: Option<seq<int>>, synthetic: Option<seq<int>>, c: int): Segment -> bool
  {
    (s: Segment) => PlainIn(stones, synthetic, c)(s) && Marked(alive, s.from) && Marked(alive, s.to)
  }

  function InGroup(groupOf: seq<int>, g: int): Segment -> bool
  {
    (s: Segment) => HasColour(groupOf, g, s.from)
  }

  /** The four families of lists that the code fills. */
  datatype Lists = Lists(connections: seq<seq<Segment>>, network: seq<seq<Segment>>, synthetic: seq<seq<Segment>>,
                         groups: seq<seq<Segment>>)

  ghost predicate AreLists(lists: Lists, segments: seq<Segment>, stones: seq<int>, groupOf: seq<int>,
                           alive: Option<seq<int>>, synthetic: Option<seq<int>>)
  {
    && |lists.connections| == |lists.network| == |lists.synthetic| == 2 && |lists.groups| == |groupOf|
    && (forall c :: 0 <= c < 2 ==> lists.connections[c] == Select(segments, PlainIn(stones, synthetic, c)))
    && (forall c :: 0 <= c < 2 ==> lists.network[c] == Select(segments, NetworkIn(stones, alive, synthetic, c)))
    && (forall c :: 0 <= c < 2 ==> lists.synthetic[c] == Select(segments, SyntheticIn(stones, synthetic, c)))
    && (forall g :: 0 <= g < |groupOf| ==> lists.groups[g] == Select(segments, InGroup(groupOf, g)))
  }

  /** One drawn segment goes to its lists. */
  method Push(lists: Lists, s: Segment, color: int, stones: seq<int>, groupOf: seq<int>, alive: Option<seq<int>>,
              synthetic: Option<seq<int>>, ghost segments: seq<Segment>) returns (r: Lists)
    requires AreLists(lists, segments, stones, groupOf, alive, synthetic)
    requires |groupOf| == |stones| && Stone(stones, s.from) && stones[s.from] == color && color in {0, 1} && Stone(stones, groupOf[s.from])
    ensures AreLists(r, segments + [s], stones, groupOf, alive, synthetic)
  {
    r := lists;
    var isSynthetic := Synthetic(synthetic, s);
    if isSynthetic {
      r := r.(synthetic := r.synthetic[color := r.synthetic[color] + [s]]);
    } else {
      r := r.(connections := r.connections[color := r.connections[color] + [s]]);
    }
    if !isSynthetic && Marked(alive, s.from) && Marked(alive, s.to) {
      r := r.(network := r.network[color := r.network[color] + [s]]);
    }
    var g := groupOf[s.from];
    r := r.(groups := r.groups[g := r.groups[g] + [s]]);
    forall c | 0 <= c < 2
      ensures r.connections[c] == Select(segments + [s], PlainIn(stones, synthetic, c))
      ensures r.network[c] == Select(segments + [s], NetworkIn(stones, alive, synthetic, c))
      ensures r.synthetic[c] == Select(segments + [s], SyntheticIn(stones, synthetic, c))
    {
      SelectAppend(segments, s, PlainIn(stones, synthetic, c));
      SelectAppend(segments, s, NetworkIn(stones, alive, synthetic, c));
      SelectAppend(segments, s, SyntheticIn(stones, synthetic, c));
    }
    forall h | 0 <= h < |groupOf|
      ensures r.groups[h] == Select(segments + [s], InGroup(groupOf, h))
    {
      SelectAppend(segments, s, InGroup(groupOf, h));
    }
  }

  /** The second scan over the channels. */
  method ClassifyChannels(b: Board, stones: seq<int>, groupOf: seq<int>, alive: Option<seq<int>>, synthetic: Option<seq<int>>)
    returns (lists: Lists)
    requires ValidBoard(b) && |stones| == b.n == |groupOf| && Grouped(b, stones, groupOf)
    ensures AreLists(lists, AllDrawn(b, stones), stones, groupOf, alive, synthetic)
  {
    hide AreLists, Grouped;
    lists := Lists([[], []], [[], []], [[], []], seq(b.n, _ => []));
    assert AreLists(lists, [], stones, groupOf, alive, synthetic) by { EmptyLists(lists, stones, groupOf, alive, synthetic); }
    for node := 0 to b.n
      invariant AreLists(lists, Drawn(b, stones, node, b.adjOff[node]), stones, groupOf, alive, synthetic)
    {
      var color := stones[node];
      for edge := b.adjOff[node] to b.adjOff[node+1]
        invariant AreLists(lists, Drawn(b, stones, node, edge), stones, groupOf, alive, synthetic)
      {
        ListedInRange(b, node, edge);
        var neighbor := b.adj[edge];
        assert Drawn(b, stones, node, edge + 1) ==
          if Draws(b, stones, node, edge) then Drawn(b, stones, node, edge) + [Segment(node, neighbor)]
          else Drawn(b, stones, node, edge);
        if color in {0, 1} && neighbor > node && stones[neighbor] == color {
          assert Draws(b, stones, node, edge);
          assert Stone(stones, groupOf[node]) by { GroupIsStone(b, stones, groupOf, node); }
          lists := Push(lists, Segment(node, neighbor), color, stones, groupOf, alive, synthetic, Drawn(b, stones, node, edge));
        }
      }
    }
  }

  lemma EmptyLists(lists: Lists, stones: seq<int>, groupOf: seq<int>, alive: Option<seq<int>>, synthetic: Option<seq<int>>)
    requires lists.connections == [[], []] && lists.network == [[], []] && lists.synthetic == [[], []]
    requires |lists.groups| == |groupOf| && forall g :: 0 <= g < |groupOf| ==> lists.groups[g] == []
    ensures AreLists(lists, [], stones, groupOf, alive, synthetic)
  {
  }

  lemma GroupIsStone(b: Board, stones: seq<int>, groupOf: seq<int>, u: int)
    requires Shaped(b) && Grouped(b, stones, groupOf) && Stone(stones, u)
    ensures Stone(stones, groupOf[u])
  {
  }

  lemma {:induction false} SelectedAre(segments: seq<Segment>, picks: Segment -> bool)
    ensures forall s :: s in Select(segments, picks) <==> s in segments && picks(s)
  {
    if segments != [] {
      var k := |segments| - 1;
      SelectedAre(segments[..k], picks);
      assert segments == segments[..k] + [segments[k]];
    }
  }

  /** Segments of two disjoint kinds make up the segments of either kind. */
  lemma {:induction false} SelectSplits(segments: seq<Segment>, p: Segment -> bool, q: Segment -> bool, either: Segment -> bool)
    requires forall s :: s in segments ==> (either(s) <==> p(s) || q(s)) && !(p(s) && q(s))
    ensures multiset(Select(segments, either)) == multiset(Select(segments, p)) + multiset(Select(segments, q))
  {
    if segments != [] {
      var k := |segments| - 1;
      SelectSplits(segments[..k], p, q, either);
    }
  }

  lemma {:induction false} SelectAll(segments: seq<Segment>, p: Segment -> bool)
    requires forall s :: s in segments ==> p(s)
    ensures Select(segments, p) == segments
  {
    if segments != [] {
      SelectAll(segments[..|segments|-1], p);
      assert segments == segments[..|segments|-1] + [segments[|segments|-1]];
    }
  }

  /** Every drawn channel is drawn once: plain or synthetic, in one colour. */
  lemma DrawnOnce(b: Board, stones: seq<int>, synthetic: Option<seq<int>>)
    requires ValidBoard(b) && |stones| == b.n
    ensures var all := AllDrawn(b, stones);
      multiset(all) ==
        multiset(Select(all, PlainIn(stones, synthetic, 0))) + multiset(Select(all, PlainIn(stones, synthetic, 1))) +
        multiset(Select(all, SyntheticIn(stones, synthetic, 0))) + multiset(Select(all, SyntheticIn(stones, synthetic, 1)))
  {
    var all := AllDrawn(b, stones);
    DrawnAre(b, stones, b.n, b.adjOff[b.n]);
    var zero := (s: Segment) => HasColour(stones, 0, s.from);
    var one := (s: Segment) => HasColour(stones, 1, s.from);
    SelectSplits(all, PlainIn(stones, synthetic, 0), SyntheticIn(stones, synthetic, 0), zero);
    SelectSplits(all, PlainIn(stones, synthetic, 1), SyntheticIn(stones, synthetic, 1), one);
    SelectSplits(all, zero, one, s => true);
    SelectAll(all, s => true);
  }

  /** A group's list holds exactly the drawn channels inside the group. */
  lemma GroupListIsInside(b: Board, stones: seq<int>, groupOf: seq<int>, g: int, s: Segment)
    requires ValidBoard(b) && |stones| == b.n && Grouped(b, stones, groupOf)
    requires Stone(stones, g) && groupOf[g] == g
    ensures s in Select(AllDrawn(b, stones), InGroup(groupOf, g)) <==>
      s.from < s.to && Channel(b, stones)(s.from, s.to) && stones[s.from] in {0, 1}
      && SameGroup(b, stones, s.from, g) && SameGroup(b, stones, s.to, g)
  {
    DrawnAre(b, stones, b.n, b.adjOff[b.n]);
    SelectedAre(AllDrawn(b, stones), InGroup(groupOf, g));
    if s.from < s.to && Channel(b, stones)(s.from, s.to) && stones[s.from] in {0, 1} {
      var e :| Listed(b, s.from, e) && 0 <= e < |b.adj| && b.adj[e] == s.to;
      assert Draws(b, stones, s.from, e);
      assert s in AllDrawn(b, stones);
      ConnectedByEdge(Channel(b, stones), s.from, s.to);
      assert groupOf[s.from] == groupOf[s.to];
      assert groupOf[s.from] == groupOf[g] <==> SameGroup(b, stones, s.from, g);
      assert groupOf[s.to] == groupOf[g] <==> SameGroup(b, stones, s.to, g);
    }
  }

  /** The nodes that a mark array marks. */
  function Ones(marks: Option<seq<int>>): set<int>
  {
    if marks.None? then {} else set u | 0 <= u < |marks.value| && marks.value[u] == 1
  }

  /** By marks: a channel of a colour is synthetic if an end is, else plain, and plain ones between two living ends are the network's. */
  lemma ListsByMarks(lists: Lists, segments: seq<Segment>, stones: seq<int>, groupOf: seq<int>,
                     alive: Option<seq<int>>, synthetic: Option<seq<int>>, c: int, s: Segment)
    requires AreLists(lists, segments, stones, groupOf, alive, synthetic) && c in {0, 1}
    ensures s in lists.synthetic[c] <==> s in segments && HasColour(stones, c, s.from) && {s.from, s.to} * Ones(synthetic) != {}
    ensures s in lists.connections[c] <==> s in segments && HasColour(stones, c, s.from) && {s.from, s.to} !! Ones(synthetic)
    ensures s in lists.network[c] <==> s in lists.connections[c] && {s.from, s.to} <= Ones(alive)
  {
    SelectedAre(segments, SyntheticIn(stones, synthetic, c));
    SelectedAre(segments, PlainIn(stones, synthetic, c));
    SelectedAre(segments, NetworkIn(stones, alive, synthetic, c));
    var ends := {s.from, s.to} * Ones(synthetic);
    if Synthetic(synthetic, s) { assert s.from in ends || s.to in ends; }
    forall u | u in ends ensures Marked(synthetic, u) {}
    hide Select;
  }

  /** The code's function: groups first, then the drawn lists. */
  method BuildGroupPresentation(b: Board, stones: seq<int>, alive: Option<seq<int>>, synthetic: Option<seq<int>>)
    returns (groupOf: array<int>, groupSize: array<int>, lists: Lists)
    requires ValidBoard(b) && |stones| == b.n
    ensures groupOf.Length == groupSize.Length == b.n && Grouped(b, stones, groupOf[..])
    ensures forall u :: 0 <= u < b.n && !Stone(stones, u) ==> groupOf[u] == -1
    ensures forall u :: Stone(stones, u) ==> groupSize[groupOf[u]] == |Group(b, stones, u)|
    ensures SumOf(groupSize[..]) == Stones(stones, b.n)
    ensures AreLists(lists, AllDrawn(b, stones), stones, groupOf[..], alive, synthetic)
  {
    groupOf, groupSize := BuildGroups(b, stones);
    forall u | Stone(stones, u)
      ensures Stone(stones, groupOf[u]) && groupSize[groupOf[u]] == |Group(b, stones, u)|
    {
      SizeIsCardinality(b, stones, groupOf[..], u);
      assert Stone(stones, groupOf[..][u]);
      assert groupSize[..][groupOf[u]] == Size(stones, groupOf[..], groupOf[u], b.n);
    }
    lists := ClassifyChannels(b, stones, groupOf[..], alive, synthetic);
  }
}
