/** The hierarchical graph (Assets/Scripts/GraphUtilities/Graph.cs): the map's node
    representation, the clusters of every abstraction level with their border nodes and
    edges, and the temporary start and destination nodes a query inserts and removes. */
module HpaGraph {
  import opened Wrappers
  import opened GridTiles
  import opened HpaTypes
  import opened GraphLayout
  import opened GraphMap
  import opened GraphArena
  import opened BorderLinks
  import opened AbstractLinks
  import opened LevelBuild
  import opened ConnectFold
  import opened QueryEntries
  import NodeSearch

  predicate OnMap(t: GridTile, width: int, height: int)
  {
    0 <= t.x < width && 0 <= t.y < height
  }

  /** Every tile of the map lies in some cluster of the level. */
  ghost predicate Covers(cs: seq<Cluster>, width: int, height: int)
  {
    forall t :: OnMap(t, width, height) ==> exists k :: 0 <= k < |cs| && Contains(cs[k].bounds, t)
  }

  /** The graph's invariant, on its fields. The map nodes and every level's border nodes
      lie in `base`, the arena as the last InsertNodes found it; border nodes stand at
      their keys inside their clusters over a child at the same tile; every level covers
      the map; and the arena differs from `base` only by the back edges of the tracked
      query nodes `added` (see BackEdges). */
  ghost predicate GraphOk(width: int, height: int, C: seq<seq<Cluster>>, nodes: map<GridTile, nat>,
                          arena: seq<Node>, base: seq<Node>, added: seq<nat>)
  {
    0 <= width && 0 <= height &&
    ValidArena(arena) && ValidArena(base) && BackEdges(base, arena, added) &&
    (forall t :: t in nodes ==> OnMap(t, width, height) && nodes[t] < |base| && arena[nodes[t]].pos == t) &&
    (forall i, k :: 0 <= i < |C| && 0 <= k < |C[i]| ==>
       BorderOk(arena, C[i][k]) && NodesIn(C[i][k], 0, |base|) && DictOk(C[i][k])) &&
    (forall i :: 0 <= i < |C| ==> Covers(C[i], width, height))
  }

  /** A level laid out on the grid covers the map. */
  lemma LayoutCovers(levels: seq<seq<Cluster>>, cs: seq<Cluster>, size: int, width: int, height: int)
    requires size > 0 && width >= 0 && height >= 0 && LevelLayout(levels, cs, size, width, height)
    ensures Covers(cs, width, height)
  {
    forall t | OnMap(t, width, height)
      ensures exists k :: 0 <= k < |cs| && Contains(cs[k].bounds, t)
    {
      GridCovers(cs, size, width, height, t);
    }
  }

  /** The graph the constructor leaves: map nodes for the free tiles of m, and the levels
      built over a valid arena, with nothing added yet. */
  lemma BuiltGraphOk(m: Map, nodes: map<GridTile, nat>, C: seq<seq<Cluster>>, built: seq<seq<Node>>,
                     arena: seq<Node>, clusterSize: int)
    requires WellFormedMap(m) && clusterSize > 0 && KeysAreFreeTiles(m, nodes)
    requires ValidArena(arena) && NodesAt(arena, nodes) && LevelsOk(arena, C)
    requires LevelsBuilt(nodes, C, built, arena, clusterSize, m.width, m.height)
    ensures GraphOk(m.width, m.height, C, nodes, arena, arena, [])
  {
    BackEdgesStart(arena);
    forall i | 0 <= i < |C|
      ensures Covers(C[i], m.width, m.height)
    {
      LayoutCovers(C[..i], C[i], LevelSize(clusterSize, i), m.width, m.height);
    }
    forall i, k | 0 <= i < |C| && 0 <= k < |C[i]|
      ensures BorderOk(arena, C[i][k]) && NodesIn(C[i][k], 0, |arena|) && DictOk(C[i][k])
    {
      assert LevelOk(arena, C[i]);
    }
  }

  /** Any change to the arena that keeps tiles and children and keeps BackEdges keeps
      the invariant. */
  lemma GraphOkStep(width: int, height: int, C: seq<seq<Cluster>>, nodes: map<GridTile, nat>,
                    arena: seq<Node>, arena2: seq<Node>, base: seq<Node>, added: seq<nat>, added2: seq<nat>)
    requires GraphOk(width, height, C, nodes, arena, base, added)
    requires Keeps(arena, arena2) && ValidArena(arena2) && BackEdges(base, arena2, added2)
    ensures GraphOk(width, height, C, nodes, arena2, base, added2)
  {
    forall i, k | 0 <= i < |C| && 0 <= k < |C[i]|
      ensures BorderOk(arena2, C[i][k])
    {
      BorderOkKept(arena, arena2, C[i][k]);
    }
  }

  /** The foreach over a level's clusters in InsertNodes: the cluster holding each tile,
      stopping once both are found. */
  method FindClusters(cs: seq<Cluster>, start: GridTile, dest: GridTile) returns (s: Option<nat>, d: Option<nat>)
    ensures s.Some? ==> s.value < |cs| && Contains(cs[s.value].bounds, start)
    ensures d.Some? ==> d.value < |cs| && Contains(cs[d.value].bounds, dest)
    ensures s.None? <==> forall k :: 0 <= k < |cs| ==> !Contains(cs[k].bounds, start)
    ensures d.None? <==> forall k :: 0 <= k < |cs| ==> !Contains(cs[k].bounds, dest)
  {
    s, d := None, None;
    var k := 0;
    while k < |cs|
      invariant 0 <= k <= |cs|
      invariant s.Some? ==> s.value < k && Contains(cs[s.value].bounds, start)
      invariant d.Some? ==> d.value < k && Contains(cs[d.value].bounds, dest)
      invariant s.None? ==> forall q :: 0 <= q < k ==> !Contains(cs[q].bounds, start)
      invariant d.None? ==> forall q :: 0 <= q < k ==> !Contains(cs[q].bounds, dest)
    {
      if Contains(cs[k].bounds, start) {
        s := Some(k);
      }
      if Contains(cs[k].bounds, dest) {
        d := Some(k);
      }
      if s.Some? && d.Some? {
        break;
      }
      k := k + 1;
    }
  }

  /** InsertNodes starts afresh from the current arena, tracking nothing. */
  lemma GraphOkRebase(width: int, height: int, C: seq<seq<Cluster>>, nodes: map<GridTile, nat>,
                      arena: seq<Node>, base: seq<Node>, added: seq<nat>)
    requires GraphOk(width, height, C, nodes, arena, base, added)
    ensures GraphOk(width, height, C, nodes, arena, arena, [])
  {
    BackEdgesStart(arena);
  }

  /** `e.end.edges.RemoveAll(ee => ee.end == n)` on node m. */
  function StripNode(arena: seq<Node>, m: nat, n: nat): (r: seq<Node>)
    requires m < |arena|
    ensures |r| == |arena| && r[m].edges == RemoveEndingAt(arena[m].edges, n)
    ensures r[m].pos == arena[m].pos && r[m].child == arena[m].child
    ensures forall k :: 0 <= k < |arena| && k != m ==> r[k] == arena[k]
  {
    arena[m := arena[m].(edges := RemoveEndingAt(arena[m].edges, n))]
  }

  /** The nodes of `base` once RemoveEdgesTo(n) has visited the ends in `hit`. */
  ghost predicate StrippedAt(a0: seq<Node>, a: seq<Node>, bound: nat, hit: set<nat>, n: nat)
  {
    |a| == |a0| && bound <= |a| &&
    (forall k :: bound <= k < |a| ==> a[k] == a0[k]) &&
    (forall p :: p in hit ==> p < bound) &&
    forall p :: 0 <= p < bound ==>
      a[p].pos == a0[p].pos && a[p].child == a0[p].child &&
      a[p].edges == (if p in hit then RemoveEndingAt(a0[p].edges, n) else a0[p].edges)
  }

  lemma {:induction false} StrippedAtStep(a0: seq<Node>, a: seq<Node>, bound: nat, hit: set<nat>, n: nat, m: nat)
    requires StrippedAt(a0, a, bound, hit, n) && m < bound
    ensures StrippedAt(a0, StripNode(a, m, n), bound, hit + {m}, n)
  {
    if m in hit {
      RemoveNothing(RemoveEndingAt(a0[m].edges, n), n);
    }
  }

  /** With the back edges gone and the query nodes untouched, the invariant holds again. */
  lemma {:induction false} RemovedValid(width: int, height: int, C: seq<seq<Cluster>>, nodes: map<GridTile, nat>,
                                        a0: seq<Node>, r: seq<Node>, base: seq<Node>, added: seq<nat>)
    requires GraphOk(width, height, C, nodes, a0, base, added)
    requires |r| == |a0| && r[..|base|] == base && forall k :: |base| <= k < |r| ==> r[k] == a0[k]
    ensures GraphOk(width, height, C, nodes, r, base, added)
  {
    forall p | 0 <= p < |base|
      ensures r[p] == base[p] && r[p].edges[..|base[p].edges|] == base[p].edges
    {
      assert r[p] == r[..|base|][p];
    }
    forall p | 0 <= p < |a0|
      ensures r[p].pos == a0[p].pos && r[p].child == a0[p].child
    {
      if p < |base| {
        assert r[p] == base[p];
      }
    }
    forall i, k | 0 <= i < |r| && 0 <= k < |r[i].edges|
      ensures r[i].edges[k].start == i && r[i].edges[k].end < |r|
    {
      if i < |base| {
        assert r[i] == base[i];
      }
    }
    GraphOkStep(width, height, C, nodes, a0, r, base, added, added);
  }

  /** The loop of ConnectNodes that walks the path from its last edge back to its first,
      building the reversed path and summing the weights. */
  method ReversePath(path: seq<Edge>) returns (back: seq<Edge>, weight: real)
    ensures back == Reverse(path) && weight == SumWeights(path)
  {
    back := [];
    weight := 0.0;
    var k := |path|;
    while k > 0
      invariant 0 <= k <= |path|
      invariant back == Reverse(path[k..])
      invariant weight == SumWeights(back)
    {
      k := k - 1;
      ReverseSuffix(path, k);
      assert (back + [path[k]])[..|back|] == back;
      back := back + [path[k]];
      weight := weight + path[k].weight;
    }
    assert path[0..] == path;
    SumWeightsReverse(path);
  }

  class Graph {
    /** Number of levels built. */
    var depth: int
    /** The clusters of every level built (levels at and above `depth` hold none). */
    var C: seq<seq<Cluster>>
    /** Map node of every free tile. */
    var nodes: map<GridTile, nat>
    var width: int
    var height: int
    /** Query nodes to remove after the search (AddedNodes). */
    var addedNodes: seq<nat>
    /** Every node, addressed by index. */
    var arena: seq<Node>
    /** The heuristic the bounded searches use. */
    const h: Heuristic
    /** The arena as InsertNodes found it. */
    ghost var base: seq<Node>
    /** The arena as it stood when each level's border nodes began to be linked. */
    ghost var built: seq<seq<Node>>
    /** The paths the intra-edge searches of each built level returned, cluster by cluster. */
    ghost var intra: seq<seq<seq<seq<Edge>>>>

    ghost predicate Valid()
      reads this
    {
      depth == |C| && GraphOk(width, height, C, nodes, arena, base, addedNodes)
    }

    /** Only the arena, the tracked nodes and `base` may change. */
    twostate predicate SameLevels()
      reads this
    {
      depth == old(depth) && C == old(C) && nodes == old(nodes) && width == old(width) && height == old(height) &&
      built == old(built) && intra == old(intra)
    }

    /** Builds the graph of map m: the map nodes, then up to maxLevel levels of clusters,
        clusterSize tiles wide at level 0 and three times wider at each level above,
        stopping at the first level that a single cluster would cover. */
    constructor (m: Map, maxLevel: int, clusterSize: int, heuristic: Heuristic)
      requires WellFormedMap(m) && maxLevel >= 0 && clusterSize != 0
      ensures Valid() && addedNodes == [] && width == m.width && height == m.height && KeysAreFreeTiles(m, nodes)
      ensures 0 <= depth <= maxLevel
      ensures clusterSize < 0 ==> depth == 0
      ensures clusterSize > 0 ==> LevelsBuilt(nodes, C, built, arena, clusterSize, width, height)
      ensures clusterSize > 0 && depth < maxLevel ==> SingleCluster(width, height, LevelSize(clusterSize, depth))
      ensures IntraBuilt(arena, C, intra)
    {
      h := heuristic;
      depth := maxLevel;
      addedNodes := [];
      var a, ns := CreateMapRepresentation(m);
      MapArenaValid(m, a, ns);
      arena, nodes := a, ns;
      width, height := m.width, m.height;
      C, built, base, intra := [], [], a, [];
      new;
      if clusterSize > 0 {
        BuildLevels(maxLevel, clusterSize);
      } else {
        // A negative size gives cluster counts of at most 0 on both axes, so the stop rule
        // ends the loop before level 0 is built.
        depth := 0;
      }
      Seal(m, clusterSize);
    }

    /** Takes the built graph as the one query nodes are later inserted into. */
    ghost method Seal(m: Map, clusterSize: int)
      requires WellFormedMap(m) && KeysAreFreeTiles(m, nodes) && addedNodes == []
      requires width == m.width && height == m.height && depth == |C|
      requires ValidArena(arena) && NodesAt(arena, nodes) && LevelsOk(arena, C)
      requires clusterSize > 0 ==> LevelsBuilt(nodes, C, built, arena, clusterSize, width, height)
      requires clusterSize <= 0 ==> C == []
      modifies this
      ensures Valid() && SameLevels() && arena == old(arena) && addedNodes == []
    {
      base := arena;
      if clusterSize > 0 {
        BuiltGraphOk(m, nodes, C, built, arena, clusterSize);
      } else {
        BackEdgesStart(arena);
      }
    }

    /** The level loop of the constructor. */
    method BuildLevels(maxLevel: int, clusterSize: int)
      requires maxLevel >= 0 && clusterSize > 0 && width >= 0 && height >= 0 && depth == maxLevel
      requires C == [] && built == [] && intra == [] && ValidArena(arena) && NodesAt(arena, nodes)
      modifies this
      ensures width == old(width) && height == old(height) && nodes == old(nodes) && addedNodes == old(addedNodes)
      ensures 0 <= depth <= maxLevel && |C| == depth
      ensures ValidArena(arena) && NodesAt(arena, nodes) && LevelsOk(arena, C)
      ensures LevelsBuilt(nodes, C, built, arena, clusterSize, width, height)
      ensures depth < maxLevel ==> SingleCluster(width, height, LevelSize(clusterSize, depth))
      ensures IntraBuilt(arena, C, intra)
    {
      var size := clusterSize;
      var i := 0;
      while i < maxLevel
        invariant 0 <= i <= maxLevel && |C| == i && depth == maxLevel
        invariant size == LevelSize(clusterSize, if i == 0 then 0 else i - 1)
        invariant width == old(width) && height == old(height) && nodes == old(nodes) && addedNodes == old(addedNodes)
        invariant ValidArena(arena) && NodesAt(arena, nodes) && LevelsOk(arena, C)
        invariant LevelsBuilt(nodes, C, built, arena, clusterSize, width, height)
        invariant IntraBuilt(arena, C, intra)
      {
        if i != 0 {
          size := size * 3;
        }
        assert size == LevelSize(clusterSize, i);
        var ch := CeilDiv(height, size);
        var cw := CeilDiv(width, size);
        if cw <= 1 && ch <= 1 {
          assert SingleCluster(width, height, size);
          depth := i;
          break;
        }
        assert !SingleCluster(width, height, size);
        BuildLevel(size, cw, ch, clusterSize);
        i := i + 1;
      }
    }

    /** Builds the level above the current top one, with clusters of the given size. */
    method BuildLevel(size: int, cw: int, ch: int, ghost clusterSize: int)
      requires clusterSize > 0 && size > 0 && width >= 0 && height >= 0
      requires cw == CeilDiv(width, size) && ch == CeilDiv(height, size)
      requires size == LevelSize(clusterSize, |C|) && !SingleCluster(width, height, size)
      requires ValidArena(arena) && NodesAt(arena, nodes) && LevelsOk(arena, C)
      requires LevelsBuilt(nodes, C, built, arena, clusterSize, width, height) && IntraBuilt(arena, C, intra)
      modifies this
      ensures width == old(width) && height == old(height) && nodes == old(nodes) && addedNodes == old(addedNodes)
      ensures depth == old(depth) && |C| == old(|C|) + 1
      ensures ValidArena(arena) && NodesAt(arena, nodes) && LevelsOk(arena, C)
      ensures LevelsBuilt(nodes, C, built, arena, clusterSize, width, height)
      ensures IntraBuilt(arena, C, intra)
    {
      ghost var a0, built0 := arena, built;
      built := built + [arena];
      var cs, mid, level := BuildClusters(size, cw, ch);
      LevelsBuiltStep(nodes, C, built0, a0, arena, cs, clusterSize, width, height);
      IntraBuiltStep(a0, arena, C, intra, cs, level);
      C, intra := C + [cs], intra + [level];
    }

    /** Searches, inside c, a path between the children of n1 and n2; if there is one,
        adds the INTRA edge n1 -> n2 over it and the INTRA edge n2 -> n1 over it reversed,
        both weighing the path's total. */
    method ConnectNodes(n1: nat, n2: nat, c: Cluster) returns (connected: bool, ghost path: seq<Edge>)
      requires ValidArena(arena) && n1 < |arena| && n2 < |arena|
      requires arena[n1].child.Some? && arena[n2].child.Some?
      modifies this
      ensures SameLevels() && addedNodes == old(addedNodes) && base == old(base)
      ensures connected <==> path != []
      ensures connected ==> n1 != n2
      ensures connected ==> Bridge(old(arena), path, n1, n2, c.bounds) && arena == Connect(old(arena), n1, n2, path)
      ensures !connected ==> arena == old(arena)
    {
      var a := arena;
      var c1 := a[n1].child.value;
      var c2 := a[n2].child.value;
      var found := NodeSearch.FindPath(a, c1, c2, Some(c.bounds), h);
      path := found;
      connected := |found| > 0;
      if connected {
        var back, weight := ReversePath(found);
        forall q | 0 <= q < |found|
          ensures found[q].end < |a| && Contains(c.bounds, a[found[q].end].pos)
        {
          NodeSearch.OutOfGridIsNotContains(a[found[q].end].pos, c.bounds);
        }
        a := AddEdge(a, n1, Edge(n1, n2, INTRA, weight, found));
        arena := AddEdge(a, n2, Edge(n2, n1, INTRA, weight, back));
      }
    }

    /** The inner loop of GenerateIntraEdges: ConnectNodes between border node i of c and
        each later one in turn, the searches returning `paths`. */
    method ConnectFrom(c: Cluster, i: nat) returns (ghost paths: seq<seq<Edge>>)
      requires i < |c.order| && ValidArena(arena) && BorderOk(arena, c) && Listed(c)
      modifies this
      ensures SameLevels() && addedNodes == old(addedNodes) && base == old(base) && ValidArena(arena)
      ensures RowRun(old(arena), arena, c, BorderNodes(c), i, |c.order|, paths)
    {
      ghost var ns, a0 := BorderNodes(c), arena;
      BorderNodesAt(arena, c);
      RowStart(arena, c, i);
      var n1 := c.nodes[c.order[i]];
      paths := [];
      var j := i + 1;
      while j < |c.order|
        invariant SameLevels() && addedNodes == old(addedNodes) && base == old(base)
        invariant ValidArena(arena) && RowRun(a0, arena, c, ns, i, j, paths)
      {
        var n2 := c.nodes[c.order[j]];
        var connected;
        ghost var path;
        ghost var before := arena;
        connected, path := ConnectNodes(n1, n2, c);
        RowStep(a0, before, arena, c, ns, i, j, paths, path);
        paths := paths + [path];
        j := j + 1;
      }
    }

    /** Runs ConnectNodes on every pair i < j of border nodes of c, in enumeration order,
        the searches returning `paths`; the pairs whose search found a path gain the INTRA
        pair. */
    method GenerateIntraEdges(c: Cluster) returns (ghost paths: seq<seq<Edge>>)
      requires ValidArena(arena) && BorderOk(arena, c) && Listed(c)
      modifies this
      ensures SameLevels() && addedNodes == old(addedNodes) && base == old(base) && ValidArena(arena)
      ensures IntraRun(old(arena), arena, c, BorderNodes(c), |c.order|, paths)
    {
      ghost var ns, a0 := BorderNodes(c), arena;
      IntraStart(arena, c);
      paths := [];
      for i := 0 to |c.order|
        invariant SameLevels() && addedNodes == old(addedNodes) && base == old(base)
        invariant ValidArena(arena) && IntraRun(a0, arena, c, ns, i, paths)
      {
        paths := ConnectRow(c, i, a0, paths);
      }
    }

    /** One round of GenerateIntraEdges' outer loop: ConnectFrom(c, i), the searches
        returning `row`, extends the run to `paths + row`. */
    method ConnectRow(c: Cluster, i: nat, ghost a0: seq<Node>, ghost paths: seq<seq<Edge>>)
      returns (ghost extended: seq<seq<Edge>>)
      requires i < |c.order| && Listed(c) && ValidArena(arena) && IntraRun(a0, arena, c, BorderNodes(c), i, paths)
      modifies this
      ensures SameLevels() && addedNodes == old(addedNodes) && base == old(base) && ValidArena(arena)
      ensures IntraRun(a0, arena, c, BorderNodes(c), i + 1, extended)
    {
      ghost var row := ConnectFrom(c, i);
      IntraLoopStep(a0, old(arena), arena, c, BorderNodes(c), i, paths, row);
      extended := paths + row;
    }

    /** One ConnectNodes of ConnectToBorder: the tracked query node n and border node
        c.nodes[g]. */
    method LinkToBorder(n: nat, g: GridTile, c: Cluster, ghost tracked: seq<nat>) returns (ghost path: seq<Edge>)
      requires GraphOk(width, height, C, nodes, arena, base, tracked) && n in tracked
      requires n < |arena| && arena[n].child.Some? && g in c.nodes
      requires BorderOk(arena, c) && NodesIn(c, 0, |base|)
      requires forall e :: e in arena[n].edges ==> EntryEdge(arena, c, e)
      modifies this
      ensures SameLevels() && base == old(base) && addedNodes == old(addedNodes)
      ensures GraphOk(width, height, C, nodes, arena, base, tracked) && BorderOk(arena, c)
      ensures Grows(old(arena), arena) && |arena| == |old(arena)|
      ensures forall e :: e in arena[n].edges ==> EntryEdge(arena, c, e)
      ensures arena == ConnectIf(old(arena), n, c.nodes[g], path)
      ensures path != [] ==> n != c.nodes[g] && Bridge(old(arena), path, n, c.nodes[g], c.bounds)
      ensures forall k :: 0 <= k < |arena| && k != n && k != c.nodes[g] ==> arena[k] == old(arena)[k]
    {
      var b := c.nodes[g];
      ghost var before := arena;
      var connected;
      connected, path := ConnectNodes(n, b, c);
      if connected {
        ConnectGrows(before, n, b, path);
        BackEdgesConnectTracked(base, before, tracked, n, b, path);
        GrowsKeeps(before, arena);
        GraphOkStep(width, height, C, nodes, before, arena, base, tracked, tracked);
        BorderOkKept(before, arena, c);
        EntryEdgesConnect(before, c, n, b, path);
      } else {
        IntraAddedNone(arena, c);
      }
    }

    /** Returns c's border node at pos if there is one. Otherwise creates a node at pos
        over `child`, runs ConnectNodes from it to every border node of c, in enumeration
        order, and tracks it for removal; the border nodes whose search found a path gain
        the INTRA pair with it. */
    method ConnectToBorder(pos: GridTile, c: Cluster, child: nat) returns (n: nat, ghost paths: seq<seq<Edge>>)
      requires Valid() && BorderOk(arena, c) && Listed(c) && NodesIn(c, 0, |base|) && child < |arena|
      modifies this
      ensures Valid() && SameLevels() && base == old(base) && Keeps(old(arena), arena)
      ensures n < |arena| && arena[n].pos == pos
      ensures pos in c.nodes ==> n == c.nodes[pos] && arena == old(arena) && addedNodes == old(addedNodes)
      ensures pos !in c.nodes ==>
        n == |old(arena)| && arena[n].child == Some(child) && addedNodes == old(addedNodes) + [n]
      ensures pos !in c.nodes ==> forall e :: e in arena[n].edges ==> EntryEdge(arena, c, e)
      ensures Attached(arena, addedNodes, |base|, c, pos, child, n)
      ensures Grows(old(arena), arena) && FreshKept(|base|, old(arena), arena)
      ensures pos !in c.nodes ==>
        |paths| == |c.order| && Within(Fan(n, BorderNodes(c)), |old(arena)| + 1) &&
        arena == ConnectAll(old(arena) + [Node(pos, [], Some(child))], Fan(n, BorderNodes(c)), paths) &&
        Bridges(arena, Fan(n, BorderNodes(c)), paths, c.bounds)
    {
      if pos in c.nodes {
        GrowsSelf(arena);
        return c.nodes[pos], [];
      }
      n, paths := AttachNew(pos, c, child);
    }

    /** ConnectToBorder on a tile that is not a border node: a fresh tracked node over
        `child`, linked to every border node of c. */
    method AttachNew(pos: GridTile, c: Cluster, child: nat) returns (n: nat, ghost paths: seq<seq<Edge>>)
      requires Valid() && BorderOk(arena, c) && Listed(c) && NodesIn(c, 0, |base|) && child < |arena|
      requires pos !in c.nodes
      modifies this
      ensures Valid() && SameLevels() && base == old(base) && Keeps(old(arena), arena)
      ensures n == |old(arena)| && n < |arena| && arena[n].pos == pos && arena[n].child == Some(child)
      ensures addedNodes == old(addedNodes) + [n]
      ensures forall e :: e in arena[n].edges ==> EntryEdge(arena, c, e)
      ensures Attached(arena, addedNodes, |base|, c, pos, child, n)
      ensures Grows(old(arena), arena) && FreshKept(|base|, old(arena), arena)
      ensures |paths| == |c.order| && Within(Fan(n, BorderNodes(c)), |old(arena)| + 1)
      ensures arena == ConnectAll(old(arena) + [Node(pos, [], Some(child))], Fan(n, BorderNodes(c)), paths)
      ensures Bridges(arena, Fan(n, BorderNodes(c)), paths, c.bounds)
    {
      n := AddTrackedNode(pos, c, child);
      ghost var a1, tracked := arena, addedNodes + [n];
      paths := LinkToAll(n, c, tracked);
      EntryDone(a1, arena, c, n, paths);
      AppendedThenLinked(old(arena), a1, arena, n, |base|);
      addedNodes := addedNodes + [n];
    }

    /** `new Node(pos) { child = child }` in ConnectToBorder: appended, and about to be
        tracked in addedNodes. */
    method AddTrackedNode(pos: GridTile, c: Cluster, child: nat) returns (n: nat)
      requires Valid() && BorderOk(arena, c) && child < |arena|
      modifies this
      ensures SameLevels() && base == old(base) && addedNodes == old(addedNodes)
      ensures n == |old(arena)| && arena == old(arena) + [Node(pos, [], Some(child))]
      ensures GraphOk(width, height, C, nodes, arena, base, addedNodes + [n]) && BorderOk(arena, c)
      ensures Grows(old(arena), arena)
    {
      n := |arena|;
      var node := Node(pos, [], Some(child));
      BackEdgesNewNode(base, arena, addedNodes, node, true);
      AppendNode(arena, node);
      GraphOkStep(width, height, C, nodes, arena, arena + [node], base, addedNodes, addedNodes + [n]);
      BorderOkKept(arena, arena + [node], c);
      arena := arena + [node];
    }

    /** The loop of ConnectToBorder: ConnectNodes between the new tracked node n and each
        border node of c in enumeration order, the searches returning `paths`. */
    method LinkToAll(n: nat, c: Cluster, ghost tracked: seq<nat>) returns (ghost paths: seq<seq<Edge>>)
      requires GraphOk(width, height, C, nodes, arena, base, tracked) && n in tracked
      requires n < |arena| && arena[n].child.Some? && arena[n].edges == []
      requires BorderOk(arena, c) && Listed(c) && NodesIn(c, 0, |base|)
      modifies this
      ensures SameLevels() && base == old(base) && addedNodes == old(addedNodes)
      ensures GraphOk(width, height, C, nodes, arena, base, tracked)
      ensures Grows(old(arena), arena) && |arena| == |old(arena)|
      ensures forall k :: |base| <= k < |arena| && k != n ==> arena[k] == old(arena)[k]
      ensures forall e :: e in arena[n].edges ==> EntryEdge(arena, c, e)
      ensures EntryRun(old(arena), arena, c, n, BorderNodes(c), |c.order|, paths)
    {
      ghost var a1, ns := arena, BorderNodes(c);
      EntryStart(a1, c, n);
      paths := [];
      var q := 0;
      while q < |c.order|
        invariant 0 <= q <= |c.order|
        invariant SameLevels() && base == old(base) && addedNodes == old(addedNodes)
        invariant GraphOk(width, height, C, nodes, arena, base, tracked) && BorderOk(arena, c)
        invariant n < |arena| && arena[n].child.Some?
        invariant forall e :: e in arena[n].edges ==> EntryEdge(arena, c, e)
        invariant EntryRun(a1, arena, c, n, ns, q, paths)
      {
        ghost var before := arena;
        ghost var path := LinkToBorder(n, c.order[q], c, tracked);
        EntryStep(a1, before, arena, c, n, ns, q, paths, path);
        paths := paths + [path];
        q := q + 1;
      }
      EntryRunFrame(a1, arena, c, n, paths, |base|);
    }

    /** `new Node(pos) { child = child }`, not tracked. */
    method AddNode(pos: GridTile, child: nat) returns (n: nat)
      requires Valid() && child < |arena|
      modifies this
      ensures Valid() && SameLevels() && base == old(base) && addedNodes == old(addedNodes)
      ensures n == |old(arena)| && arena == old(arena) + [Node(pos, [], Some(child))]
      ensures Keeps(old(arena), arena)
    {
      n := |arena|;
      var node := Node(pos, [], Some(child));
      BackEdgesNewNode(base, arena, addedNodes, node, false);
      AppendNode(arena, node);
      GraphOkStep(width, height, C, nodes, arena, arena + [node], base, addedNodes, addedNodes);
      arena := arena + [node];
    }

    /** The same-cluster case of InsertNodes: fresh nodes ns and nd over nStart and nDest,
        then ConnectNodes between them inside c, whose search returned `path`. The fresh
        nodes are not tracked. */
    method ConnectInCluster(start: GridTile, dest: GridTile, nStart: nat, nDest: nat, c: Cluster)
      returns (connected: bool, ns: nat, nd: nat, ghost path: seq<Edge>)
      requires Valid() && nStart < |arena| && nDest < |arena|
      modifies this
      ensures Valid() && SameLevels() && base == old(base) && addedNodes == old(addedNodes)
      ensures Keeps(old(arena), arena) && Grows(old(arena), arena) && FreshKept(0, old(arena), arena)
      ensures ns == |old(arena)| && nd == ns + 1 && (connected <==> path != [])
      ensures arena == ConnectIf(old(arena) + [Node(start, [], Some(nStart)), Node(dest, [], Some(nDest))], ns, nd, path)
      ensures connected ==>
        Bridge(old(arena) + [Node(start, [], Some(nStart)), Node(dest, [], Some(nDest))], path, ns, nd, c.bounds)
    {
      ghost var n1, n2 := Node(start, [], Some(nStart)), Node(dest, [], Some(nDest));
      var newStart := AddNode(start, nStart);
      ghost var mid := arena;
      var newDest := AddNode(dest, nDest);
      KeepsTrans(old(arena), mid, arena);
      assert arena == old(arena) + [n1] + [n2] == old(arena) + [n1, n2];
      ghost var before := arena;
      connected, path := ConnectNodes(newStart, newDest, c);
      ns, nd := newStart, newDest;
      assert arena == ConnectIf(old(arena) + [n1, n2], ns, nd, path);
      FreshPairKept(old(arena), before, arena, path);
      if connected {
        ConnectGrows(before, newStart, newDest, path);
        BackEdgesConnectFresh(base, before, addedNodes, newStart, newDest, path);
        GrowsKeeps(before, arena);
        GraphOkStep(width, height, C, nodes, before, arena, base, addedNodes, addedNodes);
        KeepsTrans(old(arena), before, arena);
      }
    }

    /** One iteration of InsertNodes' level loop: the entry `e` of level i, built on the
        entry nodes nStart and nDest of the level below. */
    method InsertAtLevel(i: nat, start: GridTile, dest: GridTile, nStart: nat, nDest: nat)
      returns (ns: nat, nd: nat, ghost e: Entry)
      requires Valid() && i < |C| && OnMap(start, width, height) && OnMap(dest, width, height)
      requires nStart < |arena| && arena[nStart].pos == start && nDest < |arena| && arena[nDest].pos == dest
      modifies this
      ensures Valid() && SameLevels() && base == old(base) && Keeps(old(arena), arena)
      ensures ns < |arena| && arena[ns].pos == start && nd < |arena| && arena[nd].pos == dest
      ensures e.ns == ns && e.nd == nd && EntryOk(arena, addedNodes, |base|, C[i], start, dest, (nStart, nDest), e)
      ensures Grows(old(arena), arena) && FreshKept(|base|, old(arena), arena)
      ensures forall x :: x in old(addedNodes) ==> x in addedNodes
    {
      var cs, cd := FindClusters(C[i], start, dest);
      assert cs.Some? && cd.Some? by {
        assert Covers(C[i], width, height);
      }
      var ks, kd := cs.value, cd.value;
      if ks == kd {
        ns, nd, e := InsertInCluster(i, ks, start, dest, nStart, nDest);
      } else {
        ns, nd := AttachPair(i, ks, kd, start, dest, nStart, nDest);
        AttachedEntry(arena, addedNodes, |base|, C[i], start, dest, (nStart, nDest), ks, kd, ns, nd, []);
        e := Entry(false, ks, kd, ns, nd, []);
      }
    }

    /** InsertNodes on level i when cluster k holds both start and dest: the fresh pair of
        JoinInCluster if its search joins them, else each tile attached to k. */
    method InsertInCluster(i: nat, k: nat, start: GridTile, dest: GridTile, nStart: nat, nDest: nat)
      returns (ns: nat, nd: nat, ghost e: Entry)
      requires Valid() && i < |C| && k < |C[i]| && Contains(C[i][k].bounds, start) && Contains(C[i][k].bounds, dest)
      requires nStart < |arena| && arena[nStart].pos == start && nDest < |arena| && arena[nDest].pos == dest
      modifies this
      ensures Valid() && SameLevels() && base == old(base) && Keeps(old(arena), arena)
      ensures ns < |arena| && arena[ns].pos == start && nd < |arena| && arena[nd].pos == dest
      ensures e.ns == ns && e.nd == nd && EntryOk(arena, addedNodes, |base|, C[i], start, dest, (nStart, nDest), e)
      ensures Grows(old(arena), arena) && FreshKept(|base|, old(arena), arena)
      ensures forall x :: x in old(addedNodes) ==> x in addedNodes
    {
      var connected;
      connected, ns, nd, e := JoinInCluster(i, k, start, dest, nStart, nDest);
      if !connected {
        ns, nd, e := AttachInCluster(i, k, start, dest, nStart, nDest, old(arena), e.path);
      }
    }

    /** The block of InsertNodes for start and dest in one cluster k: ConnectInCluster's
        fresh pair, which is the entry of level i when its search joined them. */
    method JoinInCluster(i: nat, k: nat, start: GridTile, dest: GridTile, nStart: nat, nDest: nat)
      returns (connected: bool, ns: nat, nd: nat, ghost e: Entry)
      requires Valid() && i < |C| && k < |C[i]| && Contains(C[i][k].bounds, start) && Contains(C[i][k].bounds, dest)
      requires nStart < |arena| && nDest < |arena|
      modifies this
      ensures Valid() && SameLevels() && base == old(base) && addedNodes == old(addedNodes)
      ensures Keeps(old(arena), arena) && Grows(old(arena), arena) && FreshKept(|base|, old(arena), arena)
      ensures !connected ==> arena == old(arena) + [Node(start, [], Some(nStart)), Node(dest, [], Some(nDest))]
      ensures connected ==> ns < |arena| && arena[ns].pos == start && nd < |arena| && arena[nd].pos == dest
      ensures connected ==>
        e.ns == ns && e.nd == nd && EntryOk(arena, addedNodes, |base|, C[i], start, dest, (nStart, nDest), e)
    {
      ghost var path;
      connected, ns, nd, path := ConnectInCluster(start, dest, nStart, nDest, C[i][k]);
      e := Entry(connected, k, k, ns, nd, path);
      FreshPairEntry(old(arena), arena, addedNodes, |base|, C[i], k, start, dest, nStart, nDest, path);
    }

    /** InsertInCluster when the fresh pair was not joined: each tile attached to cluster
        k, which holds both. The arena a0 is the one before the fresh pair. */
    method AttachInCluster(i: nat, k: nat, start: GridTile, dest: GridTile, nStart: nat, nDest: nat,
                           ghost a0: seq<Node>, ghost path: seq<Edge>)
      returns (ns: nat, nd: nat, ghost e: Entry)
      requires Valid() && i < |C| && k < |C[i]| && Contains(C[i][k].bounds, start) && Contains(C[i][k].bounds, dest)
      requires nStart < |arena| && nDest < |arena|
      requires Keeps(a0, arena) && Grows(a0, arena) && FreshKept(|base|, a0, arena)
      modifies this
      ensures Valid() && SameLevels() && base == old(base) && Keeps(a0, arena)
      ensures ns < |arena| && arena[ns].pos == start && nd < |arena| && arena[nd].pos == dest
      ensures e.ns == ns && e.nd == nd && EntryOk(arena, addedNodes, |base|, C[i], start, dest, (nStart, nDest), e)
      ensures Grows(a0, arena) && FreshKept(|base|, a0, arena)
      ensures forall x :: x in old(addedNodes) ==> x in addedNodes
    {
      ns, nd := AttachPair(i, k, k, start, dest, nStart, nDest);
      KeptTrans(|base|, a0, old(arena), arena);
      AttachedEntry(arena, addedNodes, |base|, C[i], start, dest, (nStart, nDest), k, k, ns, nd, path);
      e := Entry(false, k, k, ns, nd, path);
    }

    /** The other case of InsertNodes on level i: start and dest each attached to its own
        cluster, ks and kd, by ConnectToBorder. */
    method AttachPair(i: nat, ks: nat, kd: nat, start: GridTile, dest: GridTile, nStart: nat, nDest: nat)
      returns (ns: nat, nd: nat)
      requires Valid() && i < |C| && ks < |C[i]| && kd < |C[i]| && nStart < |arena| && nDest < |arena|
      modifies this
      ensures Valid() && SameLevels() && base == old(base)
      ensures Keeps(old(arena), arena) && Grows(old(arena), arena) && FreshKept(|base|, old(arena), arena)
      ensures forall x :: x in old(addedNodes) ==> x in addedNodes
      ensures Attached(arena, addedNodes, |base|, C[i][ks], start, nStart, ns)
      ensures Attached(arena, addedNodes, |base|, C[i][kd], dest, nDest, nd)
    {
      ghost var ps;
      ns, ps := ConnectToBorder(start, C[i][ks], nStart);
      ghost var mid, added1 := arena, addedNodes;
      nd, ps := ConnectToBorder(dest, C[i][kd], nDest);
      AttachedKept(mid, arena, added1, addedNodes, |base|, C[i][ks], start, nStart, ns);
      KeptTrans(|base|, old(arena), mid, arena);
    }

    /** Finds, on every level, the entry nodes of start and dest: a fresh pair joined
        inside their common cluster, or else nodes connected to the border nodes of their
        clusters. Fails when a tile has no map node, leaving the graph as it was. */
    method InsertNodes(start: GridTile, dest: GridTile) returns (r: Result<(nat, nat)>, ghost entries: seq<Entry>)
      requires Valid()
      modifies this
      ensures Valid() && SameLevels()
      ensures r.Failure? <==> start !in nodes || dest !in nodes
      ensures r.Failure? ==>
        r.error == KeyNotFound && arena == old(arena) && addedNodes == old(addedNodes) && base == old(base)
      ensures r.Success? ==> base == old(arena) && Keeps(old(arena), arena)
      ensures r.Success? ==>
        r.value.0 < |arena| && arena[r.value.0].pos == start && r.value.1 < |arena| && arena[r.value.1].pos == dest
      ensures r.Success? ==>
        |entries| == depth && EntriesOk(arena, addedNodes, |base|, C, start, dest, nodes[start], nodes[dest], entries) &&
        r.value == Top(entries, nodes[start], nodes[dest])
    {
      entries := [];
      if start !in nodes || dest !in nodes {
        return Failure(KeyNotFound), entries;
      }
      var nStart: nat := nodes[start];
      var nDest: nat := nodes[dest];
      GraphOkRebase(width, height, C, nodes, arena, base, addedNodes);
      addedNodes := [];
      base := arena;
      var i := 0;
      while i < depth
        invariant 0 <= i <= depth
        invariant Valid() && SameLevels() && base == old(arena) && Keeps(base, arena)
        invariant nStart < |arena| && arena[nStart].pos == start && nDest < |arena| && arena[nDest].pos == dest
        invariant |entries| == i && EntriesOk(arena, addedNodes, |base|, C, start, dest, nodes[start], nodes[dest], entries)
        invariant (nStart, nDest) == Top(entries, nodes[start], nodes[dest])
      {
        nStart, nDest, entries := InsertNextLevel(i, start, dest, nStart, nDest, entries);
        i := i + 1;
      }
      return Success((nStart, nDest)), entries;
    }

    /** One round of InsertNodes' loop: InsertAtLevel on level i extends the entries of
        the levels below by the entry of level i. */
    method InsertNextLevel(i: nat, start: GridTile, dest: GridTile, nStart: nat, nDest: nat, ghost entries: seq<Entry>)
      returns (ns: nat, nd: nat, ghost extended: seq<Entry>)
      requires i < depth && Valid() && Keeps(base, arena) && start in nodes && dest in nodes
      requires nStart < |arena| && arena[nStart].pos == start && nDest < |arena| && arena[nDest].pos == dest
      requires |entries| == i && EntriesOk(arena, addedNodes, |base|, C, start, dest, nodes[start], nodes[dest], entries)
      requires (nStart, nDest) == Top(entries, nodes[start], nodes[dest])
      modifies this
      ensures Valid() && SameLevels() && base == old(base) && Keeps(base, arena)
      ensures ns < |arena| && arena[ns].pos == start && nd < |arena| && arena[nd].pos == dest
      ensures |extended| == i + 1 && EntriesOk(arena, addedNodes, |base|, C, start, dest, nodes[start], nodes[dest], extended)
      ensures (ns, nd) == Top(extended, nodes[start], nodes[dest])
    {
      ghost var e;
      ns, nd, e := InsertAtLevel(i, start, dest, nStart, nDest);
      KeepsTrans(base, old(arena), arena);
      EntriesStep(old(arena), arena, old(addedNodes), addedNodes, |base|, C, start, dest, nodes[start], nodes[dest], entries, e);
      extended := entries + [e];
    }

    /** The inner loop of RemoveAddedNodes: every node an edge of n ends at loses its
        edges towards n. */
    method RemoveEdgesTo(n: nat)
      requires |base| <= n < |arena| && forall e :: e in arena[n].edges ==> e.end < |base|
      modifies this
      ensures SameLevels() && addedNodes == old(addedNodes) && base == old(base)
      ensures StripStep(base, old(arena), n, arena)
    {
      var es := arena[n].edges;
      ghost var hit: set<nat> := {};
      var j := 0;
      while j < |es|
        invariant 0 <= j <= |es|
        invariant SameLevels() && addedNodes == old(addedNodes) && base == old(base)
        invariant StrippedAt(old(arena), arena, |base|, hit, n)
        invariant forall q :: 0 <= q < j ==> es[q].end in hit
      {
        var m := es[j].end;
        StrippedAtStep(old(arena), arena, |base|, hit, n, m);
        arena := StripNode(arena, m, n);
        hit := hit + {m};
        j := j + 1;
      }

    }

    /** Removes from every node the edges towards the tracked query nodes, which restores
        the arena InsertNodes started from. */
    method RemoveAddedNodes()
      requires Valid()
      modifies this
      ensures Valid() && SameLevels() && addedNodes == old(addedNodes) && base == old(base)
      ensures |arena| == |old(arena)| && arena[..|base|] == base
      ensures forall k :: |base| <= k < |arena| ==> arena[k] == old(arena)[k]
    {
      StrippedUpToNone(base, arena, addedNodes);
      var i := 0;
      while i < |addedNodes|
        invariant 0 <= i <= |addedNodes|
        invariant SameLevels() && addedNodes == old(addedNodes) && base == old(base)
        invariant StrippedUpTo(base, old(arena), addedNodes, i, arena)
      {
        ghost var before := arena;
        assert addedNodes[i] in addedNodes;
        RemoveEdgesTo(addedNodes[i]);
        RemoveStep(base, old(arena), addedNodes, i, before, arena);
        i := i + 1;
      }
      RemoveFinal(base, old(arena), addedNodes, arena);
      RemovedValid(width, height, C, nodes, old(arena), arena, base, addedNodes);
    }

    /** The body of both linking steps: the border node at g1 of c1, created over k1 if
        c1 has none there, and the one at g2 of c2 over k2, each get an INTER edge of
        weight 1 to the other. */
    method TieBorders(c1: Cluster, c2: Cluster, g1: GridTile, k1: nat, g2: GridTile, k2: nat) returns (r1: Cluster, r2: Cluster)
      requires NodesIn(c1, 0, |arena|) && NodesIn(c2, 0, |arena|)
      modifies this
      ensures SameLevels() && addedNodes == old(addedNodes) && base == old(base)
      ensures Sides(arena, r1, r2) == TieUp(Sides(old(arena), c1, c2), Tie(g1, k1, g2, k2))
    {
      var (a1, q1, n1) := FindOrAddBorder(arena, c1, g1, k1);
      var (a2, q2, n2) := FindOrAddBorder(a1, c2, g2, k2);
      r1, r2 := q1, q2;
      arena := AddEdge(AddEdge(a2, n1, Edge(n1, n2, INTER, 1.0, [])), n2, Edge(n2, n1, INTER, 1.0, []));
    }

    /** Links the facing tiles at border index i of c1 (lower) and c2, creating the
        border node of either cluster over its map node when the cluster has none there. */
    method CreateConcreteInterEdge(c1: Cluster, c2: Cluster, x: bool, i: int) returns (r1: Cluster, r2: Cluster)
      requires BothFree(nodes, c1.bounds, c2.bounds, x, i)
      requires NodesIn(c1, 0, |arena|) && NodesIn(c2, 0, |arena|)
      modifies this
      ensures SameLevels() && addedNodes == old(addedNodes) && base == old(base)
      ensures Sides(arena, r1, r2) == TieUp(Sides(old(arena), c1, c2), ConcreteTie(nodes, c1.bounds, c2.bounds, x, i))
    {
      var g1, g2;
      if x {
        g1, g2 := GridTile(c1.bounds.max.x, i), GridTile(c2.bounds.min.x, i);
      } else {
        g1, g2 := GridTile(i, c1.bounds.max.y), GridTile(i, c2.bounds.min.y);
      }
      r1, r2 := TieBorders(c1, c2, g1, nodes[g1], g2, nodes[g2]);
    }

    /** Flushes the run of lineSize free border indices that ends just before index i:
        one link in its middle when it is at most 5 long, one at each end otherwise. */
    method CreateConcreteInterEdges(c1: Cluster, c2: Cluster, x: bool, lineSize: nat, i: int)
      returns (r1: Cluster, r2: Cluster, rest: nat)
      requires forall p :: p in Flush(i, lineSize) ==> BothFree(nodes, c1.bounds, c2.bounds, x, p)
      requires NodesIn(c1, 0, |arena|) && NodesIn(c2, 0, |arena|)
      modifies this
      ensures SameLevels() && addedNodes == old(addedNodes) && base == old(base)
      ensures rest == 0
      ensures Sides(arena, r1, r2) == TieAll(Sides(old(arena), c1, c2), ConcreteTies(nodes, c1.bounds, c2.bounds, x, Flush(i, lineSize)))
    {
      ghost var s := Sides(arena, c1, c2);
      r1, r2, rest := c1, c2, lineSize;
      if lineSize > 0 {
        if lineSize <= 5 {
          var p := i - (lineSize / 2 + 1);
          assert Flush(i, lineSize) == [p] && p in Flush(i, lineSize);
          ghost var t := ConcreteTie(nodes, c1.bounds, c2.bounds, x, p);
          assert ConcreteTies(nodes, c1.bounds, c2.bounds, x, Flush(i, lineSize)) == [t];
          r1, r2 := CreateConcreteInterEdge(c1, c2, x, p);
          TieAllOne(s, t);
        } else {
          assert Flush(i, lineSize) == [i - lineSize, i - 1];
          assert i - lineSize in Flush(i, lineSize) && i - 1 in Flush(i, lineSize);
          ghost var t1 := ConcreteTie(nodes, c1.bounds, c2.bounds, x, i - lineSize);
          ghost var t2 := ConcreteTie(nodes, c1.bounds, c2.bounds, x, i - 1);
          assert ConcreteTies(nodes, c1.bounds, c2.bounds, x, Flush(i, lineSize)) == [t1, t2];
          var q1, q2 := CreateConcreteInterEdge(c1, c2, x, i - lineSize);
          ghost var m := Sides(arena, q1, q2);
          assert m == TieUp(s, t1);
          TieUpNodesIn(s, t1);
          r1, r2 := CreateConcreteInterEdge(q1, q2, x, i - 1);
          assert Sides(arena, r1, r2) == TieUp(m, t2);
          TieAllTwo(s, t1, t2);
        }
        rest := 0;
      }
    }

    /** Scans the border of c1 (lower) with c2, a row of c1 when x and a column
        otherwise, and flushes every maximal run of indices whose facing tiles are both
        free, the last one after the scan. */
    method CreateConcreteBorderNodes(c1: Cluster, c2: Cluster, x: bool) returns (r1: Cluster, r2: Cluster)
      requires NodesIn(c1, 0, |arena|) && NodesIn(c2, 0, |arena|)
      modifies this
      ensures SameLevels() && addedNodes == old(addedNodes) && base == old(base)
      ensures Sides(arena, r1, r2) == TieAll(Sides(old(arena), c1, c2), BorderTies(nodes, c1, c2, x))
    {
      var iMin, iMax;
      if x {
        iMin := c1.bounds.min.y;
        iMax := iMin + c1.height;
      } else {
        iMin := c1.bounds.min.x;
        iMax := iMin + c1.width;
      }
      ghost var s0 := Sides(arena, c1, c2);
      ghost var ns := nodes;
      ghost var open := BorderLine(nodes, c1, c2, x);
      ghost var placed: seq<int> := [];
      var lineSize: nat := 0;
      r1, r2 := c1, c2;
      var i := iMin;
      ScanStart(ns, c1.bounds, c2.bounds, x, open, iMin);
      while i < iMax
        invariant ScanAt(ns, c1.bounds, c2.bounds, x, open, iMin, i, lineSize, placed)
        invariant nodes == ns && SameLevels() && addedNodes == old(addedNodes) && base == old(base)
        invariant Sides(arena, r1, r2) == TieAll(s0, ConcreteTies(ns, c1.bounds, c2.bounds, x, placed))
      {
        ghost var i0, L0, placed0, mid := i, lineSize, placed, Sides(arena, r1, r2);
        var free := (x && GridTile(c1.bounds.max.x, i) in nodes && GridTile(c2.bounds.min.x, i) in nodes) ||
                    (!x && GridTile(i, c1.bounds.max.y) in nodes && GridTile(i, c2.bounds.min.y) in nodes);
        ghost var f := if free then [] else Flush(i, lineSize);
        ScanRun(ns, c1.bounds, c2.bounds, x, open, iMin, i, lineSize, placed);
        if free {
          lineSize := lineSize + 1;
          assert Sides(arena, r1, r2) == TieAll(mid, ConcreteTies(ns, c1.bounds, c2.bounds, x, f));
        } else {
          TieAllNodesIn(s0, ConcreteTies(ns, c1.bounds, c2.bounds, x, placed));
          r1, r2, lineSize := CreateConcreteInterEdges(r1, r2, x, lineSize, i);
        }
        placed := placed + f;
        i := i + 1;
        BorderStep(s0, ns, c1, c2, x, open, iMin, i0, L0, placed0, free, i, lineSize, placed, mid, Sides(arena, r1, r2));
      }
      ScanEnd(ns, c1.bounds, c2.bounds, x, open, iMin, i, lineSize, placed);
      ghost var f := Flush(i, lineSize);
      TieAllNodesIn(s0, ConcreteTies(ns, c1.bounds, c2.bounds, x, placed));
      r1, r2, lineSize := CreateConcreteInterEdges(r1, r2, x, lineSize, i);
      ConcreteTiesStep(s0, ns, c1.bounds, c2.bounds, x, placed, f, placed + f, Sides(arena, r1, r2));
    }

    /** One collecting loop of CreateAbstractInterEdges: the INTER edges of c's border
        nodes, in dictionary order, that end inside b. */
    method CollectInterEdges(c: Cluster, b: Boundaries) returns (es: seq<Edge>)
      requires ValidArena(arena) && Listed(c) && NodesIn(c, 0, |arena|)
      ensures es == InterEdges(arena, c, b, |c.order|)
    {
      es := [];
      var q := 0;
      while q < |c.order|
        invariant 0 <= q <= |c.order|
        invariant es == InterEdges(arena, c, b, q)
      {
        var g := c.order[q];
        var out := arena[c.nodes[g]].edges;
        assert InterEdges(arena, c, b, q + 1) == es + InterOut(arena, out, b);
        ghost var before := es;
        var j := 0;
        while j < |out|
          invariant 0 <= j <= |out|
          invariant es == before + InterOut(arena, out[..j], b)
        {
          var e := out[j];
          ghost var io := InterOut(arena, out[..j], b);
          InterOutSnoc(arena, out, b, j);
          if e.kind == INTER && Contains(b, arena[e.end].pos) {
            es := es + [e];
            assert es == before + (io + [e]);
          } else {
            assert InterOut(arena, out[..j + 1], b) == io;
          }
          j := j + 1;
        }
        assert out[..j] == out;
        q := q + 1;
      }
    }

    /** One edge e1 of the pair loop of CreateAbstractInterEdges: when e2s holds its twin,
        links the parents' border nodes at the tiles of its two ends, as arena a0 has them. */
    method LiftTwinEdge(p1: Cluster, p2: Cluster, a0: seq<Node>, e1: Edge, e2s: seq<Edge>) returns (r1: Cluster, r2: Cluster)
      requires e1.start < |a0| && e1.end < |a0| && NodesIn(p1, 0, |arena|) && NodesIn(p2, 0, |arena|)
      modifies this
      ensures SameLevels() && addedNodes == old(addedNodes) && base == old(base)
      ensures NodesIn(r1, 0, |arena|) && NodesIn(r2, 0, |arena|)
      ensures Sides(arena, r1, r2) ==
        if HasTwin(e2s, e1) then TieUp(Sides(old(arena), p1, p2), TwinTie(a0, e1)) else Sides(old(arena), p1, p2)
    {
      r1, r2 := p1, p2;
      var found, j := FindTwin(e1, e2s);
      if found {
        var e2 := e2s[j];
        r1, r2 := TieBorders(p1, p2, a0[e1.start].pos, e1.start, a0[e2.start].pos, e2.start);
        TieUpNodesIn(Sides(old(arena), p1, p2), TwinTie(a0, e1));
      }
    }

    /** The pair loop of CreateAbstractInterEdges: every edge of e1s that has a twin in
        e2s (an edge back from the node it ends at) links the parents' border nodes at the
        tiles of its two ends, created over those ends if missing. */
    method LiftTwinEdges(p1: Cluster, p2: Cluster, e1s: seq<Edge>, e2s: seq<Edge>) returns (r1: Cluster, r2: Cluster)
      requires EdgesIn(arena, e1s) && NodesIn(p1, 0, |arena|) && NodesIn(p2, 0, |arena|)
      modifies this
      ensures SameLevels() && addedNodes == old(addedNodes) && base == old(base)
      ensures Sides(arena, r1, r2) == TieAll(Sides(old(arena), p1, p2), AbstractTies(old(arena), e1s, e2s))
    {
      var a0 := arena;
      ghost var s0 := Sides(arena, p1, p2);
      r1, r2 := p1, p2;
      var i := 0;
      while i < |e1s|
        invariant 0 <= i <= |e1s|
        invariant SameLevels() && addedNodes == old(addedNodes) && base == old(base)
        invariant NodesIn(r1, 0, |arena|) && NodesIn(r2, 0, |arena|)
        invariant Sides(arena, r1, r2) == TieAll(s0, AbstractTies(a0, e1s[..i], e2s))
      {
        ghost var mid := Sides(arena, r1, r2);
        r1, r2 := LiftTwinEdge(r1, r2, a0, e1s[i], e2s);
        i := i + 1;
        LiftStep(s0, a0, e1s, e2s, i, HasTwin(e2s, e1s[i - 1]), mid, Sides(arena, r1, r2));
      }
      assert e1s[..i] == e1s;
    }

    /** Lifts into parents p1 and p2 every twin pair of INTER edges between their lower
        clusters c1 and c2. */
    method CreateAbstractInterEdges(p1: Cluster, p2: Cluster, c1: Cluster, c2: Cluster) returns (r1: Cluster, r2: Cluster)
      requires ValidArena(arena) && Listed(c1) && Listed(c2)
      requires NodesIn(c1, 0, |arena|) && NodesIn(c2, 0, |arena|) && NodesIn(p1, 0, |arena|) && NodesIn(p2, 0, |arena|)
      modifies this
      ensures SameLevels() && addedNodes == old(addedNodes) && base == old(base)
      ensures Sides(arena, r1, r2) == LiftPair(Sides(old(arena), p1, p2), c1, c2)
    {
      var edges1 := CollectInterEdges(c1, c2.bounds);
      var edges2 := CollectInterEdges(c2, c1.bounds);
      InterEdgesIn(arena, c1, c2.bounds);
      r1, r2 := LiftTwinEdges(p1, p2, edges1, edges2);
    }

    /** The inner loop of CreateAbstractBorderNodes: lower cluster c1 of p1 against the
        lower clusters ks of p2, lifting the pairs that touch along x. */
    method CreateAbstractBorderRow(p1: Cluster, p2: Cluster, c1: Cluster, ks: seq<nat>, x: bool) returns (r1: Cluster, r2: Cluster)
      requires |C| > 0 && RowReady(Sides(arena, p1, p2), C[|C| - 1], c1, ks)
      modifies this
      ensures SameLevels() && addedNodes == old(addedNodes) && base == old(base)
      ensures RowLifted(Sides(old(arena), p1, p2), C[|C| - 1], c1, ks, |ks|, x, Sides(arena, r1, r2))
    {
      ghost var s0 := Sides(arena, p1, p2);
      var lower := C[|C| - 1];
      ExtendsSelf(s0);
      r1, r2 := p1, p2;
      var q := 0;
      while q < |ks|
        invariant q <= |ks| && SameLevels() && addedNodes == old(addedNodes) && base == old(base)
        invariant RowLifted(s0, lower, c1, ks, q, x, Sides(arena, r1, r2))
      {
        ghost var m := Sides(arena, r1, r2);
        RowReadyAt(s0, lower, c1, ks, q, m);
        var c2 := lower[ks[q]];
        if (x && c1.bounds.min.y == c2.bounds.min.y && c1.bounds.max.x + 1 == c2.bounds.min.x) ||
           (!x && c1.bounds.min.x == c2.bounds.min.x && c1.bounds.max.y + 1 == c2.bounds.min.y) {
          r1, r2 := CreateAbstractInterEdges(r1, r2, c1, c2);
        }
        RowLiftedStep(s0, lower, c1, ks, q, x, m, Sides(arena, r1, r2));
        q := q + 1;
      }
      assert s0 == Sides(old(arena), p1, p2) && lower == C[|C| - 1] && q == |ks|;
    }

    /** Lifts into p1 and p2 the twin pairs between every lower cluster of p1 and every
        lower cluster of p2 that it touches along x. */
    method CreateAbstractBorderNodes(p1: Cluster, p2: Cluster, x: bool) returns (r1: Cluster, r2: Cluster)
      requires |C| > 0 && SidesGood(Sides(arena, p1, p2))
      requires LowerOk(arena, C[|C| - 1], p1) && LowerOk(arena, C[|C| - 1], p2)
      modifies this
      ensures SameLevels() && addedNodes == old(addedNodes) && base == old(base)
      ensures GridLifted(Sides(old(arena), p1, p2), C[|C| - 1], p1.clusters, |p1.clusters|, p2.clusters, x, Sides(arena, r1, r2))
    {
      ghost var s0 := Sides(arena, p1, p2);
      var lower := C[|C| - 1];
      var ks1, ks2 := p1.clusters, p2.clusters;
      assert GridReady(s0, lower, ks1, ks2);
      ExtendsSelf(s0);
      r1, r2 := p1, p2;
      var q := 0;
      while q < |ks1|
        invariant q <= |ks1| && SameLevels() && addedNodes == old(addedNodes) && base == old(base)
        invariant GridLifted(s0, lower, ks1, q, ks2, x, Sides(arena, r1, r2))
      {
        ghost var m := Sides(arena, r1, r2);
        GridRowReady(s0, lower, ks1, ks2, q, m);
        r1, r2 := CreateAbstractBorderRow(r1, r2, lower[ks1[q]], ks2, x);
        GridLiftedStep(s0, lower, ks1, ks2, q, x, m, Sides(arena, r1, r2));
        q := q + 1;
      }
    }

    /** The CreateBorderNodes delegate BuildClusters passes: concrete border nodes at
        level 0, lifted ones above. */
    method CreateBorderNodes(c1: Cluster, c2: Cluster, x: bool) returns (r1: Cluster, r2: Cluster)
      requires NodesIn(c1, 0, |arena|) && NodesIn(c2, 0, |arena|)
      requires |C| > 0 ==>
        SidesGood(Sides(arena, c1, c2)) && LowerOk(arena, C[|C| - 1], c1) && LowerOk(arena, C[|C| - 1], c2)
      modifies this
      ensures SameLevels() && addedNodes == old(addedNodes) && base == old(base)
      ensures Bordered(nodes, C, Sides(old(arena), c1, c2), x, Sides(arena, r1, r2))
    {
      if |C| == 0 {
        r1, r2 := CreateConcreteBorderNodes(c1, c2, x);
      } else {
        r1, r2 := CreateAbstractBorderNodes(c1, c2, x);
      }
    }

    /** Links c1 and c2 if they are adjacent, passing the lower one first. */
    method DetectAdjacentClusters(c1: Cluster, c2: Cluster) returns (r1: Cluster, r2: Cluster)
      requires NodesIn(c1, 0, |arena|) && NodesIn(c2, 0, |arena|)
      requires |C| > 0 ==>
        SidesGood(Sides(arena, c1, c2)) && LowerOk(arena, C[|C| - 1], c1) && LowerOk(arena, C[|C| - 1], c2)
      modifies this
      ensures SameLevels() && addedNodes == old(addedNodes) && base == old(base)
      ensures Detected(nodes, C, old(arena), c1, c2, arena, r1, r2)
    {
      r1, r2 := c1, c2;
      if c1.bounds.min.x == c2.bounds.min.x {
        if c1.bounds.max.y + 1 == c2.bounds.min.y {
          r1, r2 := CreateBorderNodes(c1, c2, false);
        } else if c2.bounds.max.y + 1 == c1.bounds.min.y {
          r2, r1 := CreateBorderNodes(c2, c1, false);
        }
      } else if c1.bounds.min.y == c2.bounds.min.y {
        if c1.bounds.max.x + 1 == c2.bounds.min.x {
          r1, r2 := CreateBorderNodes(c1, c2, true);
        } else if c2.bounds.max.x + 1 == c1.bounds.min.x {
          r2, r1 := CreateBorderNodes(c2, c1, true);
        }
      }
    }

    /** The lower clusters (of the last level built) that lie inside b, in level order. */
    method ContainedClusters(b: Boundaries) returns (ks: seq<nat>)
      requires |C| > 0
      ensures ks == Inside(C[|C| - 1], b, |C[|C| - 1]|)
    {
      var lower := C[|C| - 1];
      ks := [];
      var k := 0;
      while k < |lower|
        invariant k <= |lower| && ks == Inside(lower, b, k)
      {
        if ContainsRect(b, lower[k].bounds) {
          ks := ks + [k];
        }
        k := k + 1;
      }
    }

    /** The first loop of BuildClusters: ch rows of cw clusters of the given size, each
        listing the lower clusters inside it. */
    method CreateLevelClusters(size: int, cw: int, ch: int) returns (cs: seq<Cluster>)
      requires size > 0 && width >= 0 && height >= 0 && cw == CeilDiv(width, size) && ch == CeilDiv(height, size)
      ensures LevelLayout(C, cs, size, width, height)
      ensures forall k :: 0 <= k < |cs| ==> cs[k].nodes == map[] && cs[k].order == []
    {
      cs := [];
      var i := 0;
      while i < ch
        invariant 0 <= i <= ch && |cs| == i * cw && Fresh(C, cs, cw, size, width, height)
      {
        var j := 0;
        while j < cw
          invariant 0 <= j <= cw && |cs| == i * cw + j && Fresh(C, cs, cw, size, width, height)
        {
          var c := LevelCluster(i, j, size);
          LayoutProper(i, j, size, width, height);
          FreshStep(C, cs, c, i, j, cw, size, width, height);
          cs := cs + [c];
          j := j + 1;
        }
        i := i + 1;
      }
      FreshLayout(C, cs, size, width, height);
    }

    /** Cluster (i, j) of the level above the last one built: its rectangle, and the
        lower clusters inside it when there is a lower level. */
    method LevelCluster(i: int, j: int, size: int) returns (c: Cluster)
      ensures c == NewCluster(C, i, j, size, width, height)
    {
      var b := Boundaries(GridTile(j * size, i * size),
                          GridTile(Min(j * size + size - 1, width - 1), Min(i * size + size - 1, height - 1)));
      var lower: seq<nat> := [];
      if |C| > 0 {
        lower := ContainedClusters(b);
      }
      c := Cluster(b, b.max.x - b.min.x + 1, b.max.y - b.min.y + 1, map[], [], lower);
    }

    /** The second loop of BuildClusters: every pair (i, j), i < j, of the level's clusters
        goes through DetectAdjacentClusters, and the linked clusters replace the pair. */
    method LinkAdjacentClusters(cs: seq<Cluster>, ghost size: int, ghost cw: int) returns (ds: seq<Cluster>)
      requires LevelReady(nodes, C, arena, cs, size, cw, width, height)
      modifies this
      ensures SameLevels() && addedNodes == old(addedNodes) && base == old(base)
      ensures LevelReady(nodes, C, arena, ds, size, cw, width, height) && Grows(old(arena), arena) && SameShapes(cs, ds)
      ensures AllPairsDone(nodes, C, old(arena), arena, ds)
    {
      ghost var a0 := arena;
      GrowsSelf(arena);
      ds := cs;
      var i := 0;
      while i < |ds|
        invariant SameLevels() && addedNodes == old(addedNodes) && base == old(base)
        invariant LevelReady(nodes, C, arena, ds, size, cw, width, height) && Grows(a0, arena) && SameShapes(cs, ds)
        invariant PairsDone(nodes, C, a0, arena, ds, i, i + 1)
      {
        var j := i + 1;
        while j < |ds|
          invariant i < j <= |ds| || (j == i + 1 && j > |ds|)
          invariant SameLevels() && addedNodes == old(addedNodes) && base == old(base)
          invariant LevelReady(nodes, C, arena, ds, size, cw, width, height) && Grows(a0, arena) && SameShapes(cs, ds)
          invariant PairsDone(nodes, C, a0, arena, ds, i, j)
        {
          ghost var a := arena;
          PairReadyFrom(nodes, C, arena, ds, size, cw, width, height, i, j);
          var r1, r2 := DetectAdjacentClusters(ds[i], ds[j]);
          DetectedGood(nodes, C, a0, a, ds[i], ds[j], arena, r1, r2);
          LinkStepReady(nodes, C, a, ds, size, cw, width, height, i, j, arena, r1, r2);
          LinkStepDone(nodes, C, a0, a, ds, i, j, arena, r1, r2);
          GrowsTrans(a0, a, arena);
          SameShapesTrans(cs, ds, ds[i := r1][j := r2]);
          ds := ds[i := r1][j := r2];
          j := j + 1;
        }
        PairsDoneRow(nodes, C, a0, arena, ds, i);
        i := i + 1;
      }
      PairsDoneAll(nodes, C, a0, arena, ds, i);
    }

    /** The last loop of BuildClusters: the intra edges of every cluster of the level,
        cluster q's searches returning `paths[q]`. */
    method GenerateLevelIntraEdges(cs: seq<Cluster>) returns (ghost paths: seq<seq<seq<Edge>>>)
      requires ValidArena(arena) && LevelOk(arena, cs)
      modifies this
      ensures SameLevels() && addedNodes == old(addedNodes) && base == old(base)
      ensures ValidArena(arena) && IntraLevel(old(arena), arena, cs)
      ensures |paths| == |cs| && forall q :: 0 <= q < |cs| ==> IntraJoined(arena, cs[q], paths[q])
    {
      IntraLevelNone(arena, cs);
      paths := [];
      var k := 0;
      while k < |cs|
        invariant k <= |cs| && SameLevels() && addedNodes == old(addedNodes) && base == old(base)
        invariant ValidArena(arena) && LevelOk(arena, cs) && IntraLevel(old(arena), arena, cs)
        invariant LevelJoined(arena, cs, paths, k)
      {
        ghost var a := arena;
        ghost var ps := GenerateIntraEdges(cs[k]);
        IntraLevelStep(old(arena), a, arena, cs, k);
        GrowsKeeps(a, arena);
        LevelOkKept(a, arena, cs);
        IntraJoinedRun(a, arena, cs[k], ps);
        LevelJoinedStep(a, arena, cs, paths, k, ps);
        paths := paths + [ps];
        k := k + 1;
      }
    }

    /** BuildClusters for the level above those built, with clusters `size` tiles wide:
        the clusters laid out on the grid, every adjacent pair linked, then the intra
        edges; `mid` is the arena once the pairs are linked. */
    method BuildClusters(size: int, cw: int, ch: int)
      returns (cs: seq<Cluster>, ghost mid: seq<Node>, ghost paths: seq<seq<seq<Edge>>>)
      requires size > 0 && width >= 0 && height >= 0 && cw == CeilDiv(width, size) && ch == CeilDiv(height, size)
      requires ValidArena(arena) && NodesAt(arena, nodes) && LevelsOk(arena, C)
      modifies this
      ensures SameLevels() && addedNodes == old(addedNodes) && base == old(base)
      ensures LevelLayout(C, cs, size, width, height) && LevelOk(arena, cs) && LevelsOk(arena, C)
      ensures ValidArena(arena) && NodesAt(arena, nodes) && Grows(old(arena), arena)
      ensures AllPairsDone(nodes, C, old(arena), arena, cs)
      ensures Grows(old(arena), mid) && IntraLevel(mid, arena, cs)
      ensures |paths| == |cs| && forall q :: 0 <= q < |cs| ==> IntraJoined(arena, cs[q], paths[q])
    {
      var laid := CreateLevelClusters(size, cw, ch);
      FreshReady(nodes, C, arena, laid, size, width, height);
      cs := LinkAdjacentClusters(laid, size, cw);
      LayoutKept(C, laid, cs, size, width, height);
      mid := arena;
      paths := GenerateLevelIntraEdges(cs);
      GrowsKeeps(mid, arena);
      LevelOkKept(mid, arena, cs);
      LevelsOkKept(mid, arena, C);
      AllPairsDoneKept(nodes, C, old(arena), mid, arena, cs);
      GrowsTrans(old(arena), mid, arena);
    }
  }
}
