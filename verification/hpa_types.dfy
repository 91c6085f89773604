/** The abstraction's data (Node.cs, Edge.cs, Cluster.cs, Map.cs), stored as an arena:
    every Node lives at an index of one sequence, and edges, child links and cluster
    dictionaries hold indices into it instead of object references. */
module HpaTypes {
  import opened Wrappers
  import opened GridTiles

  /** `Mathf.Sqrt(2f)`; the proofs use only that it is positive. */
  const SQRT2: real := 1.41421354

  /** The search heuristic, supplied by the caller (the source uses Euclidean distance). */
  type Heuristic = (GridTile, GridTile) -> real

  datatype EdgeType = INTRA | INTER

  /** A directed edge between two arena nodes. `underlying` is the lower-level path an
      INTRA edge abstracts; it is empty for INTER edges. */
  datatype Edge = Edge(start: nat, end: nat, kind: EdgeType, weight: real, underlying: seq<Edge>)

  /** A node: its tile, its outgoing edges (in insertion order) and the optional node
      one level below that it stands for. */
  datatype Node = Node(pos: GridTile, edges: seq<Edge>, child: Option<nat>)

  /** An inclusive rectangle of tiles. */
  datatype Boundaries = Boundaries(min: GridTile, max: GridTile)

  /** `Contains(GridTile)`: inclusive rectangle membership. */
  predicate Contains(b: Boundaries, t: GridTile)
  {
    b.min.x <= t.x <= b.max.x && b.min.y <= t.y <= b.max.y
  }

  /** `Contains(Cluster)`: the other rectangle lies within this one. */
  predicate ContainsRect(outer: Boundaries, inner: Boundaries)
  {
    outer.min.x <= inner.min.x && inner.max.x <= outer.max.x &&
    outer.min.y <= inner.min.y && inner.max.y <= outer.max.y
  }

  /** A cluster: its rectangle, its clipped size, its border-node dictionary (keys in
      insertion order, as a C# Dictionary enumerates them) and, above level 0, the
      indices of the lower-level clusters it contains. */
  datatype Cluster = Cluster(
    bounds: Boundaries,
    width: int,
    height: int,
    nodes: map<GridTile, nat>,
    order: seq<GridTile>,
    clusters: seq<nat>)

  /** Every key listed in `order` (the dictionary's enumeration order) is a key. */
  predicate Listed(c: Cluster)
  {
    forall k :: 0 <= k < |c.order| ==> c.order[k] in c.nodes
  }

  /** The border-node dictionary's invariant: `order` lists each key once. */
  predicate DictOk(c: Cluster)
  {
    Listed(c) &&
    (forall g :: g in c.nodes ==> g in c.order) &&
    (forall i, j :: 0 <= i < j < |c.order| ==> c.order[i] != c.order[j])
  }

  /** `Nodes.Add(g, n)` on a dictionary without key g. */
  function AddBorder(c: Cluster, g: GridTile, n: nat): (r: Cluster)
    requires g !in c.nodes
    ensures r.nodes == c.nodes[g := n] && r.order == c.order + [g]
    ensures r.bounds == c.bounds && r.clusters == c.clusters
  {
    c.(nodes := c.nodes[g := n], order := c.order + [g])
  }

  /** Adding a new key keeps the enumeration order listing each key once. */
  lemma AddBorderDictOk(c: Cluster, g: GridTile, n: nat)
    requires g !in c.nodes && DictOk(c)
    ensures DictOk(AddBorder(c, g, n))
  {
    var r := AddBorder(c, g, n);
    forall t | t in r.nodes
      ensures t in r.order
    {
      if t != g {
        var i :| 0 <= i < |c.order| && c.order[i] == t;
        assert r.order[i] == t;
      }
    }
  }

  /** The map (external): `Obstacles[y][x]`. */
  datatype Map = Map(width: int, height: int, obstacles: seq<seq<bool>>, freeTiles: int)

  /** The obstacle grid has `height` rows of `width` cells. */
  predicate WellFormedMap(m: Map)
  {
    m.width >= 0 && m.height >= 0 && |m.obstacles| == m.height &&
    forall y :: 0 <= y < |m.obstacles| ==> |m.obstacles[y]| == m.width
  }

  /** `Map.IsFreeTile`: inside the map and not an obstacle. */
  predicate IsFreeTile(m: Map, t: GridTile)
    requires WellFormedMap(m)
  {
    0 <= t.x < m.width && 0 <= t.y < m.height && !m.obstacles[t.y][t.x]
  }

  /** Every index stored in an edge or a child link names a node of the arena, and every
      edge is stored in the node it starts from. */
  predicate ValidArena(arena: seq<Node>)
  {
    (forall i, k :: 0 <= i < |arena| && 0 <= k < |arena[i].edges| ==>
       arena[i].edges[k].start == i && arena[i].edges[k].end < |arena|) &&
    (forall i :: 0 <= i < |arena| && arena[i].child.Some? ==> arena[i].child.value < |arena|)
  }

  /** Sum of the weights of a path. */
  function SumWeights(path: seq<Edge>): real
  {
    if path == [] then 0.0 else SumWeights(path[..|path| - 1]) + path[|path| - 1].weight
  }

  function Reverse<T>(s: seq<T>): (r: seq<T>)
    ensures |r| == |s|
    ensures forall k :: 0 <= k < |s| ==> r[k] == s[|s| - 1 - k]
  {
    if s == [] then [] else [s[|s| - 1]] + Reverse(s[..|s| - 1])
  }

  /** Dropping the last element of a + b, for b non-empty, drops it from b. */
  lemma DropLastConcat<T>(a: seq<T>, b: seq<T>)
    requires b != []
    ensures (a + b)[..|a + b| - 1] == a + b[..|b| - 1] && (a + b)[|a + b| - 1] == b[|b| - 1]
  {
  }

  /** A non-empty sequence is its prefix followed by its last element. */
  lemma InitLast<T>(s: seq<T>)
    requires s != []
    ensures s[..|s| - 1] + [s[|s| - 1]] == s
  {
  }

  lemma ConcatAssoc<T>(a: seq<T>, b: seq<T>, c: seq<T>)
    ensures (a + b) + c == a + (b + c)
  {
  }

  lemma {:induction false} ReverseReverse<T>(s: seq<T>)
    ensures Reverse(Reverse(s)) == s
  {
    var r := Reverse(Reverse(s));
    assert |r| == |s|;
    forall k | 0 <= k < |s| ensures r[k] == s[k] {
      assert r[k] == Reverse(s)[|s| - 1 - k];
    }
  }

  /** Summing a path backwards, as ConnectNodes does, gives the same total. */
  lemma {:induction false} SumWeightsReverse(path: seq<Edge>)
    ensures SumWeights(Reverse(path)) == SumWeights(path)
  {
    if path != [] {
      var n := |path|;
      var last := path[n - 1];
      var r := Reverse(path);
      assert r == [last] + Reverse(path[..n - 1]);
      SumWeightsReverse(path[..n - 1]);
      SumWeightsCons(last, Reverse(path[..n - 1]));
    }
  }

  lemma {:induction false} SumWeightsCons(e: Edge, path: seq<Edge>)
    ensures SumWeights([e] + path) == e.weight + SumWeights(path)
    decreases |path|
  {
    if path != [] {
      var n := |path|;
      assert ([e] + path)[..n] == [e] + path[..n - 1];
      SumWeightsCons(e, path[..n - 1]);
    }
  }

  /** Weights are non-negative along the whole path. */
  lemma {:induction false} SumWeightsNonNegative(path: seq<Edge>)
    requires forall k :: 0 <= k < |path| ==> path[k].weight >= 0.0
    ensures SumWeights(path) >= 0.0
  {
    if path != [] {
      SumWeightsNonNegative(path[..|path| - 1]);
    }
  }
}
