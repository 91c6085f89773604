/** Facts about the shared node arena that the Graph class (Assets/Scripts/GraphUtilities/
    Graph.cs) relies on: how it grows while levels are built, what a cluster's border-node
    dictionary guarantees, what ConnectNodes adds, and how RemoveAddedNodes undoes what the
    query nodes added. */
module GraphArena {
  import opened Wrappers
  import opened GridTiles
  import opened HpaTypes
  import NodeSearch

  /** `later` keeps every node of `earlier` at its tile with its child, and only appends to
      its edge list. */
  ghost predicate Grows(earlier: seq<Node>, later: seq<Node>)
  {
    |earlier| <= |later| &&
    forall k :: 0 <= k < |earlier| ==>
      later[k].pos == earlier[k].pos && later[k].child == earlier[k].child &&
      |earlier[k].edges| <= |later[k].edges| && later[k].edges[..|earlier[k].edges|] == earlier[k].edges
  }

  lemma GrowsSelf(a: seq<Node>)
    ensures Grows(a, a)
  {
    forall k | 0 <= k < |a|
      ensures a[k].edges[..|a[k].edges|] == a[k].edges
    {
    }
  }

  lemma {:induction false} GrowsTrans(a: seq<Node>, b: seq<Node>, c: seq<Node>)
    requires Grows(a, b) && Grows(b, c)
    ensures Grows(a, c)
  {
    forall k | 0 <= k < |a|
      ensures c[k].edges[..|a[k].edges|] == a[k].edges
    {
      assert c[k].edges[..|a[k].edges|] == c[k].edges[..|b[k].edges|][..|a[k].edges|];
    }
  }

  /** An edge stays in a node's list as the arena grows. */
  lemma EdgeStays(a: seq<Node>, b: seq<Node>, k: nat, e: Edge)
    requires Grows(a, b) && k < |a| && e in a[k].edges
    ensures e in b[k].edges
  {
    var i :| 0 <= i < |a[k].edges| && a[k].edges[i] == e;
    assert b[k].edges[..|a[k].edges|][i] == e;
  }

  /** Every border node of cluster c is in the arena, stands at its key inside the
      cluster, and has a child node standing at the same tile. */
  ghost predicate BorderOk(arena: seq<Node>, c: Cluster)
  {
    forall g :: g in c.nodes ==>
      c.nodes[g] < |arena| && arena[c.nodes[g]].pos == g && Contains(c.bounds, g) &&
      arena[c.nodes[g]].child.Some? && arena[c.nodes[g]].child.value < |arena| &&
      arena[arena[c.nodes[g]].child.value].pos == g
  }

  /** `later` keeps every node of `earlier` at its tile with its child. */
  ghost predicate Keeps(earlier: seq<Node>, later: seq<Node>)
  {
    |earlier| <= |later| &&
    forall k :: 0 <= k < |earlier| ==> later[k].pos == earlier[k].pos && later[k].child == earlier[k].child
  }

  lemma BorderOkKept(a: seq<Node>, b: seq<Node>, c: Cluster)
    requires BorderOk(a, c) && Keeps(a, b)
    ensures BorderOk(b, c)
  {
  }

  /** The border nodes of c all lie in [lo, hi) of the arena. */
  ghost predicate NodesIn(c: Cluster, lo: nat, hi: nat)
  {
    forall g :: g in c.nodes ==> lo <= c.nodes[g] < hi
  }

  /** Cluster c2 keeps every border node of c1 under the same key. */
  ghost predicate DictGrows(c1: Cluster, c2: Cluster)
  {
    forall g :: g in c1.nodes ==> g in c2.nodes && c2.nodes[g] == c1.nodes[g]
  }

  /** Same rectangle, size and lower-level cluster list: only the border nodes differ. */
  predicate SameShape(c1: Cluster, c2: Cluster)
  {
    c2.bounds == c1.bounds && c2.width == c1.width && c2.height == c1.height && c2.clusters == c1.clusters
  }

  /** `n.edges.Add(e)`. */
  function AddEdge(arena: seq<Node>, n: nat, e: Edge): (r: seq<Node>)
    requires n < |arena|
    ensures |r| == |arena| && r[n].edges == arena[n].edges + [e]
    ensures r[n].pos == arena[n].pos && r[n].child == arena[n].child
    ensures forall k :: 0 <= k < |arena| && k != n ==> r[k] == arena[k]
  {
    arena[n := arena[n].(edges := arena[n].edges + [e])]
  }

  lemma AddEdgeGrows(arena: seq<Node>, n: nat, e: Edge)
    requires n < |arena|
    ensures Grows(arena, AddEdge(arena, n, e))
  {
    var r := AddEdge(arena, n, e);
    assert r[n].edges[..|arena[n].edges|] == arena[n].edges;
  }

  lemma AddEdgeValid(arena: seq<Node>, n: nat, e: Edge)
    requires ValidArena(arena) && n < |arena| && e.start == n && e.end < |arena|
    ensures ValidArena(AddEdge(arena, n, e))
  {
    var r := AddEdge(arena, n, e);
    forall i, k | 0 <= i < |r| && 0 <= k < |r[i].edges|
      ensures r[i].edges[k].start == i && r[i].edges[k].end < |r|
    {
      if i == n && k == |arena[n].edges| {
        assert r[i].edges[k] == e;
      } else if i == n {
        assert r[i].edges[k] == arena[i].edges[k];
      }
    }
  }

  lemma AppendGrows(arena: seq<Node>, extra: seq<Node>)
    ensures Grows(arena, arena + extra)
  {
    var r := arena + extra;
    forall k | 0 <= k < |arena|
      ensures r[k].edges[..|arena[k].edges|] == arena[k].edges
    {
      assert r[k] == arena[k];
    }
  }

  /** The arena after ConnectNodes(n1, n2) found `path`: an INTRA edge n1 -> n2 over the
      path and an INTRA edge n2 -> n1 over the reversed path, both weighing the path's total. */
  function Connect(arena: seq<Node>, n1: nat, n2: nat, path: seq<Edge>): (r: seq<Node>)
    requires n1 < |arena| && n2 < |arena|
    ensures |r| == |arena|
  {
    var w := SumWeights(path);
    AddEdge(AddEdge(arena, n1, Edge(n1, n2, INTRA, w, path)), n2, Edge(n2, n1, INTRA, w, Reverse(path)))
  }

  lemma ConnectGrows(arena: seq<Node>, n1: nat, n2: nat, path: seq<Edge>)
    requires n1 < |arena| && n2 < |arena|
    ensures Grows(arena, Connect(arena, n1, n2, path))
    ensures ValidArena(arena) ==> ValidArena(Connect(arena, n1, n2, path))
    ensures forall k :: 0 <= k < |arena| && k != n1 && k != n2 ==> Connect(arena, n1, n2, path)[k] == arena[k]
  {
    var w := SumWeights(path);
    var a1 := AddEdge(arena, n1, Edge(n1, n2, INTRA, w, path));
    AddEdgeGrows(arena, n1, Edge(n1, n2, INTRA, w, path));
    AddEdgeGrows(a1, n2, Edge(n2, n1, INTRA, w, Reverse(path)));
    GrowsTrans(arena, a1, Connect(arena, n1, n2, path));
    if ValidArena(arena) {
      AddEdgeValid(arena, n1, Edge(n1, n2, INTRA, w, path));
      AddEdgeValid(a1, n2, Edge(n2, n1, INTRA, w, Reverse(path)));
    }
  }

  /** `path` is what a bounded search between the children of n1 and n2 may return: a
      chain of arena edges from n1's child's tile to n2's child's tile that never leaves b. */
  ghost predicate Bridge(arena: seq<Node>, path: seq<Edge>, n1: nat, n2: nat, b: Boundaries)
  {
    n1 < |arena| && n2 < |arena| && arena[n1].child.Some? && arena[n2].child.Some? &&
    arena[n1].child.value < |arena| && arena[n2].child.value < |arena| &&
    NodeSearch.IsChain(arena, path, arena[arena[n1].child.value].pos, arena[arena[n2].child.value].pos) &&
    forall k :: 0 <= k < |path| ==>
      path[k].start < |arena| && path[k] in arena[path[k].start].edges &&
      path[k].end < |arena| && Contains(b, arena[path[k].end].pos)
  }

  lemma BridgeGrows(a: seq<Node>, b: seq<Node>, path: seq<Edge>, n1: nat, n2: nat, bounds: Boundaries)
    requires Bridge(a, path, n1, n2, bounds) && Grows(a, b)
    ensures Bridge(b, path, n1, n2, bounds)
  {
    forall k | 0 <= k < |path|
      ensures path[k] in b[path[k].start].edges
    {
      EdgeStays(a, b, path[k].start, path[k]);
    }
  }

  /** An INTRA edge generated inside cluster c: between two of its border nodes, weighing
      its underlying path, which bridges the two nodes forwards (the n1 -> n2 edge) or,
      read backwards, the other way (the n2 -> n1 edge). */
  ghost predicate IntraOk(arena: seq<Node>, c: Cluster, e: Edge)
  {
    e.kind == INTRA && e.start in c.nodes.Values && e.end in c.nodes.Values &&
    e.weight == SumWeights(e.underlying) &&
    (Bridge(arena, e.underlying, e.start, e.end, c.bounds) ||
     Bridge(arena, Reverse(e.underlying), e.end, e.start, c.bounds))
  }

  lemma IntraOkGrows(a: seq<Node>, b: seq<Node>, c: Cluster, e: Edge)
    requires IntraOk(a, c, e) && Grows(a, b)
    ensures IntraOk(b, c, e)
  {
    if Bridge(a, e.underlying, e.start, e.end, c.bounds) {
      BridgeGrows(a, b, e.underlying, e.start, e.end, c.bounds);
    } else {
      BridgeGrows(a, b, Reverse(e.underlying), e.end, e.start, c.bounds);
    }
  }

  /** Both edges ConnectNodes adds are IntraOk. */
  lemma {:induction false} ConnectIntraOk(arena: seq<Node>, c: Cluster, n1: nat, n2: nat, path: seq<Edge>)
    requires Bridge(arena, path, n1, n2, c.bounds)
    requires n1 in c.nodes.Values && n2 in c.nodes.Values
    ensures var r := Connect(arena, n1, n2, path);
      IntraOk(r, c, r[n1].edges[|r[n1].edges| - 1]) && IntraOk(r, c, r[n2].edges[|r[n2].edges| - 1])
  {
    var w := SumWeights(path);
    var r := Connect(arena, n1, n2, path);
    ConnectGrows(arena, n1, n2, path);
    BridgeGrows(arena, r, path, n1, n2, c.bounds);
    var e1 := Edge(n1, n2, INTRA, w, path);
    var e2 := Edge(n2, n1, INTRA, w, Reverse(path));
    assert r[n2].edges[|r[n2].edges| - 1] == e2;
    ReverseReverse(path);
    SumWeightsReverse(path);
    assert IntraOk(r, c, e2);
    if n1 != n2 {
      assert r[n1].edges[|r[n1].edges| - 1] == e1;
      assert IntraOk(r, c, e1);
    }
  }

  /** Some edge of node n ends at p. */
  ghost predicate PointsTo(arena: seq<Node>, n: nat, p: nat)
  {
    n < |arena| && exists e :: e in arena[n].edges && e.end == p
  }

  /** The state between InsertNodes and RemoveAddedNodes. `base` is the arena as InsertNodes
      found it and `added` the tracked query nodes (AddedNodes). Every node of `base` keeps
      its tile, child and edges, and may only have gained edges towards tracked nodes that
      point back at it; tracked nodes are new and point only into `base`. */
  ghost predicate BackEdges(base: seq<Node>, arena: seq<Node>, added: seq<nat>)
  {
    |base| <= |arena| &&
    (forall n :: n in added ==> |base| <= n < |arena| && forall e :: e in arena[n].edges ==> e.end < |base|) &&
    forall p :: 0 <= p < |base| ==>
      arena[p].pos == base[p].pos && arena[p].child == base[p].child &&
      |base[p].edges| <= |arena[p].edges| && arena[p].edges[..|base[p].edges|] == base[p].edges &&
      forall j :: |base[p].edges| <= j < |arena[p].edges| ==>
        arena[p].edges[j].end in added && PointsTo(arena, arena[p].edges[j].end, p)
  }

  lemma BackEdgesStart(arena: seq<Node>)
    ensures BackEdges(arena, arena, [])
  {
    forall p | 0 <= p < |arena|
      ensures arena[p].edges[..|arena[p].edges|] == arena[p].edges
    {
    }
  }

  /** Creating a node at the end of the arena keeps the state, whether or not it is tracked. */
  lemma {:induction false} BackEdgesNewNode(base: seq<Node>, arena: seq<Node>, added: seq<nat>, node: Node, track: bool)
    requires BackEdges(base, arena, added) && node.edges == []
    ensures BackEdges(base, arena + [node], if track then added + [|arena|] else added)
  {
    var r := arena + [node];
    var added' := if track then added + [|arena|] else added;
    forall p | 0 <= p < |base|
      ensures forall j :: |base[p].edges| <= j < |r[p].edges| ==>
        r[p].edges[j].end in added' && PointsTo(r, r[p].edges[j].end, p)
    {
      forall j | |base[p].edges| <= j < |r[p].edges|
        ensures r[p].edges[j].end in added' && PointsTo(r, r[p].edges[j].end, p)
      {
        var n := arena[p].edges[j].end;
        assert PointsTo(arena, n, p);
        var e :| e in arena[n].edges && e.end == p;
        assert r[n] == arena[n];
      }
    }
    forall n | n in added'
      ensures |base| <= n < |r| && forall e :: e in r[n].edges ==> e.end < |base|
    {
      if n != |arena| {
        assert r[n] == arena[n];
      }
    }
  }

  /** Connecting two untracked nodes outside `base` keeps the state. */
  lemma {:induction false} BackEdgesConnectFresh(base: seq<Node>, arena: seq<Node>, added: seq<nat>, n1: nat, n2: nat, path: seq<Edge>)
    requires BackEdges(base, arena, added)
    requires |base| <= n1 < |arena| && |base| <= n2 < |arena| && n1 !in added && n2 !in added
    ensures BackEdges(base, Connect(arena, n1, n2, path), added)
  {
    var r := Connect(arena, n1, n2, path);
    ConnectGrows(arena, n1, n2, path);
    forall p | 0 <= p < |base|
      ensures forall j :: |base[p].edges| <= j < |r[p].edges| ==>
        r[p].edges[j].end in added && PointsTo(r, r[p].edges[j].end, p)
    {
      assert r[p] == arena[p];
      forall j | |base[p].edges| <= j < |r[p].edges|
        ensures PointsTo(r, r[p].edges[j].end, p)
      {
        var n := arena[p].edges[j].end;
        assert PointsTo(arena, n, p);
        assert r[n] == arena[n];
      }
    }
    forall n | n in added
      ensures forall e :: e in r[n].edges ==> e.end < |base|
    {
      assert r[n] == arena[n];
    }
  }

  /** Connecting tracked node n with node b of `base` keeps the state: b's new edge ends at
      n, and n's new edge points back at b. */
  lemma {:induction false} BackEdgesConnectTracked(base: seq<Node>, arena: seq<Node>, added: seq<nat>, n: nat, b: nat, path: seq<Edge>)
    requires BackEdges(base, arena, added)
    requires n in added && b < |base|
    ensures BackEdges(base, Connect(arena, n, b, path), added)
  {
    var w := SumWeights(path);
    var r := Connect(arena, n, b, path);
    ConnectGrows(arena, n, b, path);
    var e1 := Edge(n, b, INTRA, w, path);
    assert r[n].edges == arena[n].edges + [e1];
    assert r[b].edges == arena[b].edges + [Edge(b, n, INTRA, w, Reverse(path))];
    assert PointsTo(r, n, b) by { assert e1 in r[n].edges; }
    forall p | 0 <= p < |base|
      ensures r[p].edges[..|base[p].edges|] == base[p].edges
      ensures forall j :: |base[p].edges| <= j < |r[p].edges| ==>
        r[p].edges[j].end in added && PointsTo(r, r[p].edges[j].end, p)
    {
      assert r[p].edges[..|base[p].edges|] == r[p].edges[..|arena[p].edges|][..|base[p].edges|];
      forall j | |base[p].edges| <= j < |r[p].edges|
        ensures r[p].edges[j].end in added && PointsTo(r, r[p].edges[j].end, p)
      {
        if p == b && j == |arena[b].edges| {
        } else {
          assert r[p].edges[j] == arena[p].edges[j];
          var m := arena[p].edges[j].end;
          assert PointsTo(arena, m, p);
          var e :| e in arena[m].edges && e.end == p;
          EdgeStays(arena, r, m, e);
        }
      }
    }
    forall m | m in added
      ensures forall e :: e in r[m].edges ==> e.end < |base|
    {
      if m != n {
        assert r[m] == arena[m];
      }
    }
  }

  /** `edges.RemoveAll(ee => ee.end == n)`. */
  function RemoveEndingAt(es: seq<Edge>, n: nat): (r: seq<Edge>)
    ensures forall e :: e in r <==> e in es && e.end != n
  {
    if es == [] then []
    else RemoveEndingAt(es[..|es| - 1], n) + (if es[|es| - 1].end == n then [] else [es[|es| - 1]])
  }

  /** Removing edges that end at n from a list without any changes nothing. */
  lemma {:induction false} RemoveNothing(es: seq<Edge>, n: nat)
    requires forall e :: e in es ==> e.end != n
    ensures RemoveEndingAt(es, n) == es
  {
    if es != [] {
      RemoveNothing(es[..|es| - 1], n);
      assert es[|es| - 1] in es;
      InitLast(es);
    }
  }

  lemma {:induction false} RemoveConcat(a: seq<Edge>, b: seq<Edge>, n: nat)
    ensures RemoveEndingAt(a + b, n) == RemoveEndingAt(a, n) + RemoveEndingAt(b, n)
    decreases |b|
  {
    if b != [] {
      DropLastConcat(a, b);
      RemoveConcat(a, b[..|b| - 1], n);
    } else {
      assert a + b == a;
    }
  }

  /** The edges left after RemoveAll for each node of `ns` in turn. */
  function Strip(es: seq<Edge>, ns: seq<nat>): (r: seq<Edge>)
    ensures forall e :: e in r <==> e in es && e.end !in ns
  {
    if ns == [] then es else RemoveEndingAt(Strip(es, ns[..|ns| - 1]), ns[|ns| - 1])
  }

  lemma {:induction false} StripNothing(es: seq<Edge>, ns: seq<nat>)
    requires forall e :: e in es ==> e.end !in ns
    ensures Strip(es, ns) == es
  {
    if ns != [] {
      StripNothing(es, ns[..|ns| - 1]);
      RemoveNothing(es, ns[|ns| - 1]);
    }
  }

  lemma {:induction false} StripConcat(a: seq<Edge>, b: seq<Edge>, ns: seq<nat>)
    ensures Strip(a + b, ns) == Strip(a, ns) + Strip(b, ns)
  {
    if ns != [] {
      StripConcat(a, b, ns[..|ns| - 1]);
      RemoveConcat(Strip(a, ns[..|ns| - 1]), Strip(b, ns[..|ns| - 1]), ns[|ns| - 1]);
    }
  }

  lemma HeadIsIn(s: seq<Edge>)
    ensures |s| > 0 ==> s[0] in s
  {
  }

  /** Stripping the tracked nodes from a node of `base` leaves exactly its old edges. */
  lemma StripRestores(old_: seq<Edge>, extra: seq<Edge>, ns: seq<nat>)
    requires forall e :: e in old_ ==> e.end !in ns
    requires forall e :: e in extra ==> e.end in ns
    ensures Strip(old_ + extra, ns) == old_
  {
    StripConcat(old_, extra, ns);
    StripNothing(old_, ns);
    HeadIsIn(Strip(extra, ns));
  }

  lemma GrowsKeeps(a: seq<Node>, b: seq<Node>)
    requires Grows(a, b)
    ensures Keeps(a, b)
  {
  }

  /** `new Node(pos) { child = ... }`: a node without edges appended to the arena. */
  lemma AppendNode(arena: seq<Node>, node: Node)
    requires ValidArena(arena) && node.edges == []
    requires node.child.Some? ==> node.child.value < |arena|
    ensures ValidArena(arena + [node]) && Grows(arena, arena + [node]) && Keeps(arena, arena + [node])
  {
    AppendGrows(arena, [node]);
    var r := arena + [node];
    forall i | 0 <= i < |arena|
      ensures r[i] == arena[i]
    {
    }
  }

  /** Reading a suffix backwards: its last element, ..., down to its first. */
  lemma ReverseSuffix<T>(s: seq<T>, k: nat)
    requires k < |s|
    ensures Reverse(s[k..]) == Reverse(s[k + 1..]) + [s[k]]
  {
    var a := Reverse(s[k..]);
    var b := Reverse(s[k + 1..]) + [s[k]];
    forall i | 0 <= i < |a|
      ensures a[i] == b[i]
    {
      if i < |a| - 1 {
        assert b[i] == Reverse(s[k + 1..])[i];
      }
    }
  }

  /** The edges appended from `a` to `b` (same nodes) are all IntraOk for cluster c, and
      only border nodes of c changed. */
  ghost predicate IntraAdded(a: seq<Node>, b: seq<Node>, c: Cluster)
  {
    Grows(a, b) && |a| == |b| &&
    (forall k :: 0 <= k < |a| && k !in c.nodes.Values ==> b[k] == a[k]) &&
    forall k, j :: 0 <= k < |a| && |a[k].edges| <= j < |b[k].edges| ==> IntraOk(b, c, b[k].edges[j])
  }

  lemma IntraAddedNone(a: seq<Node>, c: Cluster)
    ensures IntraAdded(a, a, c)
  {
    forall k | 0 <= k < |a|
      ensures a[k].edges[..|a[k].edges|] == a[k].edges
    {
    }
  }

  /** ConnectNodes between two distinct border nodes of c adds only INTRA edges of c. */
  lemma {:induction false} ConnectIntraAdded(b: seq<Node>, c: Cluster, n1: nat, n2: nat, path: seq<Edge>)
    requires n1 != n2 && Bridge(b, path, n1, n2, c.bounds) && n1 in c.nodes.Values && n2 in c.nodes.Values
    ensures IntraAdded(b, Connect(b, n1, n2, path), c)
  {
    var r := Connect(b, n1, n2, path);
    ConnectGrows(b, n1, n2, path);
    ConnectIntraOk(b, c, n1, n2, path);
    var a1 := AddEdge(b, n1, Edge(n1, n2, INTRA, SumWeights(path), path));
    assert |r[n1].edges| == |b[n1].edges| + 1 && |r[n2].edges| == |b[n2].edges| + 1;
    forall k, j | 0 <= k < |b| && |b[k].edges| <= j < |r[k].edges|
      ensures IntraOk(r, c, r[k].edges[j])
    {
      assert k == n1 || k == n2;
      assert j == |r[k].edges| - 1;
    }
  }

  /** ConnectNodes between two distinct border nodes of c keeps IntraAdded. */
  lemma {:induction false} IntraAddedConnect(a: seq<Node>, b: seq<Node>, c: Cluster, n1: nat, n2: nat, path: seq<Edge>)
    requires IntraAdded(a, b, c) && n1 != n2
    requires Bridge(b, path, n1, n2, c.bounds) && n1 in c.nodes.Values && n2 in c.nodes.Values
    ensures IntraAdded(a, Connect(b, n1, n2, path), c)
  {
    ConnectIntraAdded(b, c, n1, n2, path);
    IntraAddedTrans(a, b, Connect(b, n1, n2, path), c);
  }

  lemma {:induction false} IntraAddedTrans(a: seq<Node>, b: seq<Node>, r: seq<Node>, c: Cluster)
    requires IntraAdded(a, b, c) && IntraAdded(b, r, c)
    ensures IntraAdded(a, r, c)
  {
    GrowsTrans(a, b, r);
    forall k, j | 0 <= k < |a| && |a[k].edges| <= j < |r[k].edges|
      ensures IntraOk(r, c, r[k].edges[j])
    {
      if j < |b[k].edges| {
        assert r[k].edges[j] == r[k].edges[..|b[k].edges|][j];
        IntraOkGrows(b, r, c, b[k].edges[j]);
      }
    }
  }

  /** An edge of a `base` node that ends at a node outside `base` is a back edge, so that
      node points back. */
  lemma BackEdgeSource(base: seq<Node>, arena: seq<Node>, added: seq<nat>, p: nat, e: Edge)
    requires BackEdges(base, arena, added) && ValidArena(base)
    requires p < |base| && e in arena[p].edges && e.end >= |base|
    ensures PointsTo(arena, e.end, p)
  {
    var j :| 0 <= j < |arena[p].edges| && arena[p].edges[j] == e;
  }

  lemma KeepsTrans(a: seq<Node>, b: seq<Node>, c: seq<Node>)
    requires Keeps(a, b) && Keeps(b, c)
    ensures Keeps(a, c)
  {
  }

  /** One round of RemoveAddedNodes' outer loop, for node p of `base`: once the edges
      towards n == added[i] are gone from p (or p had none, as n does not point to p),
      p holds its edges with those towards added[..i + 1] stripped. */
  lemma {:induction false} RemoveStepAt(base: seq<Node>, a0: seq<Node>, added: seq<nat>, i: nat, ai: seq<Node>, x: Node, p: nat)
    requires BackEdges(base, a0, added) && ValidArena(base) && i < |added| && p < |base|
    requires |ai| == |a0| && added[i] < |a0| && ai[added[i]] == a0[added[i]]
    requires ai[p] == a0[p].(edges := Strip(a0[p].edges, added[..i]))
    requires x.pos == ai[p].pos && x.child == ai[p].child
    requires x.edges == RemoveEndingAt(ai[p].edges, added[i]) ||
             (x.edges == ai[p].edges && !PointsTo(ai, added[i], p))
    ensures x == a0[p].(edges := Strip(a0[p].edges, added[..i + 1]))
  {
    var n := added[i];
    assert added[..i + 1][..i] == added[..i];
    var S := Strip(a0[p].edges, added[..i]);
    if x.edges != RemoveEndingAt(S, n) {
      forall e | e in S
        ensures e.end != n
      {
        if e.end >= |base| {
          BackEdgeSource(base, a0, added, p, e);
        }
      }
      RemoveNothing(S, n);
    }
  }

  /** The arena a0 after the first i tracked nodes are stripped: the nodes of `base`
      lose their edges towards them, the others are untouched. */
  ghost predicate StrippedUpTo(base: seq<Node>, a0: seq<Node>, added: seq<nat>, i: nat, ai: seq<Node>)
  {
    i <= |added| && |base| <= |a0| && |ai| == |a0| && (forall k :: |base| <= k < |ai| ==> ai[k] == a0[k]) &&
    forall p :: 0 <= p < |base| ==> ai[p] == a0[p].(edges := Strip(a0[p].edges, added[..i]))
  }

  /** What RemoveEdgesTo(n) does to ai: each node of `base` loses its edges towards n,
      or keeps them all when it has none; the others are untouched. */
  ghost predicate StripStep(base: seq<Node>, ai: seq<Node>, n: nat, ai2: seq<Node>)
  {
    |base| <= |ai| && |ai2| == |ai| && (forall k :: |base| <= k < |ai| ==> ai2[k] == ai[k]) &&
    forall p :: 0 <= p < |base| ==>
      ai2[p].pos == ai[p].pos && ai2[p].child == ai[p].child &&
      (ai2[p].edges == RemoveEndingAt(ai[p].edges, n) || (ai2[p].edges == ai[p].edges && !PointsTo(ai, n, p)))
  }

  lemma StrippedUpToNone(base: seq<Node>, a0: seq<Node>, added: seq<nat>)
    requires |base| <= |a0|
    ensures StrippedUpTo(base, a0, added, 0, a0)
  {
    forall p | 0 <= p < |base|
      ensures a0[p] == a0[p].(edges := Strip(a0[p].edges, added[..0]))
    {
      assert added[..0] == [];
    }
  }

  lemma RemoveStep(base: seq<Node>, a0: seq<Node>, added: seq<nat>, i: nat, ai: seq<Node>, ai2: seq<Node>)
    requires BackEdges(base, a0, added) && ValidArena(base) && i < |added|
    requires StrippedUpTo(base, a0, added, i, ai) && StripStep(base, ai, added[i], ai2)
    ensures StrippedUpTo(base, a0, added, i + 1, ai2)
  {
    assert added[i] in added;
    forall p | 0 <= p < |base|
      ensures ai2[p] == a0[p].(edges := Strip(a0[p].edges, added[..i + 1]))
    {
      RemoveStepAt(base, a0, added, i, ai, ai2[p], p);
    }
  }

  /** Once every tracked node is stripped, each node of `base` is as it was. */
  lemma {:induction false} RemoveFinal(base: seq<Node>, a0: seq<Node>, added: seq<nat>, r: seq<Node>)
    requires BackEdges(base, a0, added) && ValidArena(base)
    requires StrippedUpTo(base, a0, added, |added|, r)
    ensures r[..|base|] == base
  {
    assert added[..|added|] == added;
    forall p | 0 <= p < |base|
      ensures r[p] == base[p]
    {
      var b := base[p].edges;
      var all := a0[p].edges;
      assert all == b + all[|b|..];
      forall e | e in all[|b|..]
        ensures e.end in added
      {
        var j :| 0 <= j < |all[|b|..]| && all[|b|..][j] == e;
        assert all[|b| + j] == e;
      }
      forall e | e in b
        ensures e.end !in added
      {
        var j :| 0 <= j < |b| && b[j] == e;
      }
      StripRestores(b, all[|b|..], added);
    }
  }

  /** Every map node stands at its key. */
  ghost predicate NodesAt(arena: seq<Node>, nodes: map<GridTile, nat>)
  {
    forall t :: t in nodes ==> nodes[t] < |arena| && arena[nodes[t]].pos == t
  }

  /** The cluster's Width and Height as BuildClusters sets them from its rectangle. */
  predicate Sized(c: Cluster)
  {
    c.width == c.bounds.max.x - c.bounds.min.x + 1 && c.height == c.bounds.max.y - c.bounds.min.y + 1
  }

  predicate Disjoint(b1: Boundaries, b2: Boundaries)
  {
    b1.max.x < b2.min.x || b2.max.x < b1.min.x || b1.max.y < b2.min.y || b2.max.y < b1.min.y
  }

  /** Border nodes at g1 in c1 and at g2 in c2, joined both ways by INTER edges of weight 1. */
  ghost predicate Paired(arena: seq<Node>, c1: Cluster, c2: Cluster, g1: GridTile, g2: GridTile)
  {
    g1 in c1.nodes && g2 in c2.nodes && c1.nodes[g1] < |arena| && c2.nodes[g2] < |arena| &&
    Edge(c1.nodes[g1], c2.nodes[g2], INTER, 1.0, []) in arena[c1.nodes[g1]].edges &&
    Edge(c2.nodes[g2], c1.nodes[g1], INTER, 1.0, []) in arena[c2.nodes[g2]].edges
  }

  lemma PairedGrows(a: seq<Node>, b: seq<Node>, c1: Cluster, d1: Cluster, c2: Cluster, d2: Cluster, g1: GridTile, g2: GridTile)
    requires Paired(a, c1, c2, g1, g2) && Grows(a, b) && DictGrows(c1, d1) && DictGrows(c2, d2)
    ensures Paired(b, d1, d2, g1, g2)
  {
    var n1 := c1.nodes[g1];
    var n2 := c2.nodes[g2];
    EdgeStays(a, b, n1, Edge(n1, n2, INTER, 1.0, []));
    EdgeStays(a, b, n2, Edge(n2, n1, INTER, 1.0, []));
  }

  /** An INTER edge of a border node of cluster a that ends inside cluster b. */
  ghost predicate InterInto(arena: seq<Node>, a: Cluster, b: Cluster, e: Edge)
  {
    e.kind == INTER && e.start in a.nodes.Values && e.start < |arena| && e in arena[e.start].edges &&
    e.end < |arena| && Contains(b.bounds, arena[e.end].pos)
  }

  lemma InterIntoGrows(a: seq<Node>, b: seq<Node>, c1: Cluster, c2: Cluster, e: Edge)
    requires InterInto(a, c1, c2, e) && Grows(a, b)
    ensures InterInto(b, c1, c2, e)
  {
    EdgeStays(a, b, e.start, e);
  }

  /** Every twin pair of INTER edges between c1 and c2 in arena `a0` (an edge e1 out of c1
      and an edge e2 out of c2 that starts where e1 ends) is lifted: r1 and r2 hold border
      nodes at the two end tiles, paired. */
  ghost predicate Lifted(arena: seq<Node>, r1: Cluster, r2: Cluster, c1: Cluster, c2: Cluster, a0: seq<Node>)
  {
    forall e1, e2 :: InterInto(a0, c1, c2, e1) && InterInto(a0, c2, c1, e2) && e2.start == e1.end ==>
      Paired(arena, r1, r2, a0[e1.start].pos, a0[e1.end].pos)
  }

  lemma LiftedGrows(arena: seq<Node>, r1: Cluster, r2: Cluster, c1: Cluster, c2: Cluster, a0: seq<Node>,
                    arena2: seq<Node>, s1: Cluster, s2: Cluster)
    requires Lifted(arena, r1, r2, c1, c2, a0) && Grows(arena, arena2) && DictGrows(r1, s1) && DictGrows(r2, s2)
    ensures Lifted(arena2, s1, s2, c1, c2, a0)
  {
    forall e1, e2 | InterInto(a0, c1, c2, e1) && InterInto(a0, c2, c1, e2) && e2.start == e1.end
      ensures Paired(arena2, s1, s2, a0[e1.start].pos, a0[e1.end].pos)
    {
      PairedGrows(arena, arena2, r1, s1, r2, s2, a0[e1.start].pos, a0[e1.end].pos);
    }
  }

  /** A statement about the twins of a later arena covers those of an earlier one. */
  lemma LiftedEarlier(arena: seq<Node>, r1: Cluster, r2: Cluster, c1: Cluster, c2: Cluster, a0: seq<Node>, a1: seq<Node>)
    requires Lifted(arena, r1, r2, c1, c2, a1) && Grows(a0, a1)
    ensures Lifted(arena, r1, r2, c1, c2, a0)
  {
    forall e1, e2 | InterInto(a0, c1, c2, e1) && InterInto(a0, c2, c1, e2) && e2.start == e1.end
      ensures Paired(arena, r1, r2, a0[e1.start].pos, a0[e1.end].pos)
    {
      InterIntoGrows(a0, a1, c1, c2, e1);
      InterIntoGrows(a0, a1, c2, c1, e2);
    }
  }

  /** The clusters of cs keep their shapes in ds and only gain border nodes. */
  ghost predicate SameShapes(cs: seq<Cluster>, ds: seq<Cluster>)
  {
    |cs| == |ds| && forall k :: 0 <= k < |cs| ==> SameShape(cs[k], ds[k]) && DictGrows(cs[k], ds[k])
  }

  lemma SameShapesTrans(cs: seq<Cluster>, ds: seq<Cluster>, es: seq<Cluster>)
    requires SameShapes(cs, ds) && SameShapes(ds, es)
    ensures SameShapes(cs, es)
  {
  }

  /** New border nodes CreateConcreteInterEdge appends: one at g over k unless the cluster has one. */
  function NewBorder(exists_: bool, g: GridTile, k: nat): seq<Node>
  {
    if exists_ then [] else [Node(g, [], Some(k))]
  }

  /** The cluster after `TryGetValue(g)` failed and the new border node numbered n was
      added, or the cluster itself when it already had a border node at g. */
  function BorderOf(c: Cluster, g: GridTile, n: nat): (r: Cluster)
    ensures SameShape(c, r) && g in r.nodes
    ensures g in c.nodes ==> r.nodes[g] == c.nodes[g]
    ensures g !in c.nodes ==> r.nodes[g] == n
    ensures DictGrows(c, r)
  {
    if g in c.nodes then c else AddBorder(c, g, n)
  }

  /** `TryGetValue(g)` on the border dictionary of c, adding a new border node over
      child k numbered |arena| when it fails: the arena, the cluster and the node after. */
  function FindOrAddBorder(arena: seq<Node>, c: Cluster, g: GridTile, k: nat): (r: (seq<Node>, Cluster, nat))
    ensures r.0 == arena + NewBorder(g in c.nodes, g, k) && r.1 == BorderOf(c, g, |arena|)
    ensures r.2 == r.1.nodes[g]
  {
    if g in c.nodes then (arena, c, c.nodes[g])
    else (arena + [Node(g, [], Some(k))], AddBorder(c, g, |arena|), |arena|)
  }

  lemma BorderOfDictOk(c: Cluster, g: GridTile, n: nat)
    ensures DictOk(c) ==> DictOk(BorderOf(c, g, n))
  {
    if DictOk(c) && g !in c.nodes {
      AddBorderDictOk(c, g, n);
    }
  }

  /** Appending the border node over child k as node n (when c has none at g) keeps the
      arena valid, and c with that node is a correct border dictionary. */
  lemma BorderAdded(arena: seq<Node>, c: Cluster, g: GridTile, k: nat, n: nat)
    requires ValidArena(arena) && BorderOk(arena, c) && Contains(c.bounds, g) && k < |arena| && arena[k].pos == g
    requires n == |arena|
    ensures ValidArena(arena + NewBorder(g in c.nodes, g, k))
    ensures Grows(arena, arena + NewBorder(g in c.nodes, g, k)) && Keeps(arena, arena + NewBorder(g in c.nodes, g, k))
    ensures BorderOk(arena + NewBorder(g in c.nodes, g, k), BorderOf(c, g, n))
  {
    if g in c.nodes {
      assert arena + NewBorder(g in c.nodes, g, k) == arena;
      IntraAddedNone(arena, c);
      GrowsKeeps(arena, arena);
    } else {
      var a := arena + [Node(g, [], Some(k))];
      assert arena + NewBorder(g in c.nodes, g, k) == a;
      AppendNode(arena, Node(g, [], Some(k)));
      BorderOkKept(arena, a, c);
      var r := AddBorder(c, g, n);
      forall t | t in r.nodes
        ensures r.nodes[t] < |a| && a[r.nodes[t]].pos == t && Contains(r.bounds, t)
        ensures a[r.nodes[t]].child.Some? && a[r.nodes[t]].child.value < |a| && a[a[r.nodes[t]].child.value].pos == t
      {
        if t == g {
          assert a[n] == Node(g, [], Some(k));
        }
      }
    }
  }

  /** The two INTER edges of weight 1 that join border nodes n1 and n2. */
  function Link(arena: seq<Node>, n1: nat, n2: nat): (r: seq<Node>)
    requires n1 < |arena| && n2 < |arena|
    ensures |r| == |arena|
  {
    AddEdge(AddEdge(arena, n1, Edge(n1, n2, INTER, 1.0, [])), n2, Edge(n2, n1, INTER, 1.0, []))
  }

  /** Linking two border nodes keeps the arena valid and the border dictionaries
      correct, and pairs their tiles. */
  lemma LinkOk(arena: seq<Node>, c1: Cluster, c2: Cluster, g1: GridTile, g2: GridTile)
    requires ValidArena(arena) && BorderOk(arena, c1) && BorderOk(arena, c2) && g1 in c1.nodes && g2 in c2.nodes
    ensures ValidArena(Link(arena, c1.nodes[g1], c2.nodes[g2])) && Grows(arena, Link(arena, c1.nodes[g1], c2.nodes[g2]))
    ensures BorderOk(Link(arena, c1.nodes[g1], c2.nodes[g2]), c1) && BorderOk(Link(arena, c1.nodes[g1], c2.nodes[g2]), c2)
    ensures Paired(Link(arena, c1.nodes[g1], c2.nodes[g2]), c1, c2, g1, g2)
  {
    var n1, n2 := c1.nodes[g1], c2.nodes[g2];
    var e1, e2 := Edge(n1, n2, INTER, 1.0, []), Edge(n2, n1, INTER, 1.0, []);
    var a1 := AddEdge(arena, n1, e1);
    AddEdgeValid(arena, n1, e1);
    AddEdgeGrows(arena, n1, e1);
    AddEdgeValid(a1, n2, e2);
    AddEdgeGrows(a1, n2, e2);
    var r := AddEdge(a1, n2, e2);
    GrowsTrans(arena, a1, r);
    GrowsKeeps(arena, r);
    BorderOkKept(arena, r, c1);
    BorderOkKept(arena, r, c2);
    EdgeStays(a1, r, n1, e1);
    assert e2 in r[n2].edges;
  }

  /** The arena after CreateConcreteInterEdge: the missing border nodes appended, then linked. */
  function Linked(arena: seq<Node>, c1: Cluster, g1: GridTile, k1: nat, c2: Cluster, g2: GridTile, k2: nat): (r: seq<Node>)
  {
    var a2 := arena + NewBorder(g1 in c1.nodes, g1, k1) + NewBorder(g2 in c2.nodes, g2, k2);
    var n1 := BorderOf(c1, g1, |arena|).nodes[g1];
    var n2 := BorderOf(c2, g2, |arena| + |NewBorder(g1 in c1.nodes, g1, k1)|).nodes[g2];
    if n1 < |a2| && n2 < |a2| then Link(a2, n1, n2) else arena
  }

  /** Both appends of CreateConcreteInterEdge, before the edges are added. */
  lemma BothAdded(arena: seq<Node>, c1: Cluster, g1: GridTile, k1: nat, c2: Cluster, g2: GridTile, k2: nat, n2: nat)
    requires ValidArena(arena) && k1 < |arena| && k2 < |arena| && arena[k1].pos == g1 && arena[k2].pos == g2
    requires BorderOk(arena, c1) && BorderOk(arena, c2) && Contains(c1.bounds, g1) && Contains(c2.bounds, g2)
    requires n2 == |arena| + |NewBorder(g1 in c1.nodes, g1, k1)|
    ensures ValidArena(arena + NewBorder(g1 in c1.nodes, g1, k1) + NewBorder(g2 in c2.nodes, g2, k2))
    ensures Grows(arena, arena + NewBorder(g1 in c1.nodes, g1, k1) + NewBorder(g2 in c2.nodes, g2, k2))
    ensures BorderOk(arena + NewBorder(g1 in c1.nodes, g1, k1) + NewBorder(g2 in c2.nodes, g2, k2), BorderOf(c1, g1, |arena|))
    ensures BorderOk(arena + NewBorder(g1 in c1.nodes, g1, k1) + NewBorder(g2 in c2.nodes, g2, k2), BorderOf(c2, g2, n2))
  {
    var a1 := arena + NewBorder(g1 in c1.nodes, g1, k1);
    BorderAdded(arena, c1, g1, k1, |arena|);
    BorderOkKept(arena, a1, c2);
    BorderAdded(a1, c2, g2, k2, n2);
    BorderOkKept(a1, a1 + NewBorder(g2 in c2.nodes, g2, k2), BorderOf(c1, g1, |arena|));
    GrowsTrans(arena, a1, a1 + NewBorder(g2 in c2.nodes, g2, k2));
  }

  /** The arena after CreateConcreteInterEdge is valid and grown, and pairs g1 with g2. */
  lemma LinkedPairs(arena: seq<Node>, c1: Cluster, g1: GridTile, k1: nat, c2: Cluster, g2: GridTile, k2: nat, n2: nat)
    requires ValidArena(arena) && k1 < |arena| && k2 < |arena| && arena[k1].pos == g1 && arena[k2].pos == g2
    requires BorderOk(arena, c1) && BorderOk(arena, c2) && Contains(c1.bounds, g1) && Contains(c2.bounds, g2)
    requires n2 == |arena| + |NewBorder(g1 in c1.nodes, g1, k1)|
    ensures ValidArena(Linked(arena, c1, g1, k1, c2, g2, k2)) && Grows(arena, Linked(arena, c1, g1, k1, c2, g2, k2))
    ensures Paired(Linked(arena, c1, g1, k1, c2, g2, k2), BorderOf(c1, g1, |arena|), BorderOf(c2, g2, n2), g1, g2)
  {
    var r1, r2 := BorderOf(c1, g1, |arena|), BorderOf(c2, g2, n2);
    var a2 := arena + NewBorder(g1 in c1.nodes, g1, k1) + NewBorder(g2 in c2.nodes, g2, k2);
    BothAdded(arena, c1, g1, k1, c2, g2, k2, n2);
    LinkOk(a2, r1, r2, g1, g2);
    GrowsTrans(arena, a2, Link(a2, r1.nodes[g1], r2.nodes[g2]));
    LinkedIsLink(arena, c1, g1, k1, c2, g2, k2, n2);
  }

  /** Once both border nodes exist, Linked is the Link of the two. */
  lemma LinkedIsLink(arena: seq<Node>, c1: Cluster, g1: GridTile, k1: nat, c2: Cluster, g2: GridTile, k2: nat, n2: nat)
    requires n2 == |arena| + |NewBorder(g1 in c1.nodes, g1, k1)|
    requires BorderOk(arena + NewBorder(g1 in c1.nodes, g1, k1) + NewBorder(g2 in c2.nodes, g2, k2), BorderOf(c1, g1, |arena|))
    requires BorderOk(arena + NewBorder(g1 in c1.nodes, g1, k1) + NewBorder(g2 in c2.nodes, g2, k2), BorderOf(c2, g2, n2))
    ensures Linked(arena, c1, g1, k1, c2, g2, k2) ==
      Link(arena + NewBorder(g1 in c1.nodes, g1, k1) + NewBorder(g2 in c2.nodes, g2, k2),
           BorderOf(c1, g1, |arena|).nodes[g1], BorderOf(c2, g2, n2).nodes[g2])
  {
  }

  /** In the arena after CreateConcreteInterEdge both border dictionaries are correct. */
  lemma LinkedBorders(arena: seq<Node>, c1: Cluster, g1: GridTile, k1: nat, c2: Cluster, g2: GridTile, k2: nat, n2: nat)
    requires ValidArena(arena) && k1 < |arena| && k2 < |arena| && arena[k1].pos == g1 && arena[k2].pos == g2
    requires BorderOk(arena, c1) && BorderOk(arena, c2) && Contains(c1.bounds, g1) && Contains(c2.bounds, g2)
    requires n2 == |arena| + |NewBorder(g1 in c1.nodes, g1, k1)|
    ensures BorderOk(Linked(arena, c1, g1, k1, c2, g2, k2), BorderOf(c1, g1, |arena|))
    ensures BorderOk(Linked(arena, c1, g1, k1, c2, g2, k2), BorderOf(c2, g2, n2))
  {
    var r1, r2 := BorderOf(c1, g1, |arena|), BorderOf(c2, g2, n2);
    var a2 := arena + NewBorder(g1 in c1.nodes, g1, k1) + NewBorder(g2 in c2.nodes, g2, k2);
    BothAdded(arena, c1, g1, k1, c2, g2, k2, n2);
    LinkOk(a2, r1, r2, g1, g2);
    LinkedIsLink(arena, c1, g1, k1, c2, g2, k2, n2);
  }
}
