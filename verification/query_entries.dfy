/** The entry nodes InsertNodes (Assets/Scripts/GraphUtilities/Graph.cs) gives a query's
    start and destination tiles on each level: either a fresh pair joined inside their
    common cluster, or, for each tile, its cluster's border node or a query node linked to
    that cluster's border nodes. */
module QueryEntries {
  import opened Wrappers
  import opened GridTiles
  import opened HpaTypes
  import opened GraphArena
  import opened ConnectFold

  /** An edge from a query node `e.start` into cluster c: an INTRA edge to one of c's
      border nodes over a path inside c from the query node's child to the border node's
      child, weighing that path. */
  ghost predicate EntryEdge(arena: seq<Node>, c: Cluster, e: Edge)
  {
    e.kind == INTRA && e.end in c.nodes.Values && e.weight == SumWeights(e.underlying) &&
    Bridge(arena, e.underlying, e.start, e.end, c.bounds)
  }

  /** The edge ConnectNodes adds from query node n to border node b keeps every edge of n
      an EntryEdge. */
  lemma {:induction false} EntryEdgesConnect(arena: seq<Node>, c: Cluster, n: nat, b: nat, path: seq<Edge>)
    requires n != b && b in c.nodes.Values && Bridge(arena, path, n, b, c.bounds)
    requires forall e :: e in arena[n].edges ==> EntryEdge(arena, c, e)
    ensures forall e :: e in Connect(arena, n, b, path)[n].edges ==> EntryEdge(Connect(arena, n, b, path), c, e)
  {
    var r := Connect(arena, n, b, path);
    ConnectGrows(arena, n, b, path);
    assert r[n].edges == arena[n].edges + [Edge(n, b, INTRA, SumWeights(path), path)];
    forall e | e in r[n].edges
      ensures EntryEdge(r, c, e)
    {
      BridgeGrows(arena, r, e.underlying, e.start, e.end, c.bounds);
    }
  }

  /** Nodes from index lo on, which only query insertion creates, are left as they were. */
  ghost predicate FreshKept(lo: nat, a: seq<Node>, b: seq<Node>)
  {
    |a| <= |b| && forall k :: lo <= k < |a| ==> b[k] == a[k]
  }

  /** A node appended to a and then given edges, while no other node from lo on changed:
      the nodes of a kept, those from lo on as they were. */
  lemma AppendedThenLinked(a: seq<Node>, a1: seq<Node>, r: seq<Node>, n: nat, lo: nat)
    requires n == |a| && |a1| == n + 1 && a1[..n] == a && lo <= n
    requires Grows(a1, r) && |r| == |a1| && forall k :: lo <= k < |r| && k != n ==> r[k] == a1[k]
    ensures Grows(a, r) && Keeps(a, r) && FreshKept(lo, a, r)
  {
    assert a1 == a + a1[n..];
    AppendGrows(a, a1[n..]);
    GrowsTrans(a, a1, r);
  }

  /** Node n stands for tile pos in cluster c: c's own border node at pos if it has one,
      otherwise a tracked query node from index lo on, over `child`, whose every edge is an
      EntryEdge into c. */
  ghost predicate Attached(arena: seq<Node>, added: seq<nat>, lo: nat, c: Cluster, pos: GridTile, child: nat, n: nat)
  {
    n < |arena| && arena[n].pos == pos &&
    (pos in c.nodes ==> n == c.nodes[pos]) &&
    (pos !in c.nodes ==>
       lo <= n && n in added && arena[n].child == Some(child) &&
       forall e :: e in arena[n].edges ==> EntryEdge(arena, c, e))
  }

  /** ns and nd are query nodes from index lo on, over below.0 and below.1 at tiles start
      and dest, whose only edges are the INTRA pair over `path`: a path inside c between
      their children. */
  ghost predicate JoinedPair(arena: seq<Node>, lo: nat, c: Cluster, start: GridTile, dest: GridTile,
                             below: (nat, nat), ns: nat, nd: nat, path: seq<Edge>)
  {
    path != [] && lo <= ns < |arena| && lo <= nd < |arena| && ns != nd &&
    arena[ns] == Node(start, [Edge(ns, nd, INTRA, SumWeights(path), path)], Some(below.0)) &&
    arena[nd] == Node(dest, [Edge(nd, ns, INTRA, SumWeights(path), Reverse(path))], Some(below.1)) &&
    Bridge(arena, path, ns, nd, c.bounds)
  }

  /** What one level of InsertNodes made of start and dest: the clusters ks and kd that
      hold them, the entry nodes ns and nd, and whether these are a fresh pair joined
      inside a common cluster over `path`. */
  datatype Entry = Entry(joined: bool, ks: nat, kd: nat, ns: nat, nd: nat, path: seq<Edge>)

  /** Entry e is what level cs made of start and dest, whose entry nodes on the level
      below are `below`: the fresh pair joined inside their common cluster, or else each
      tile attached to its own cluster. */
  ghost predicate EntryOk(arena: seq<Node>, added: seq<nat>, lo: nat, cs: seq<Cluster>, start: GridTile,
                          dest: GridTile, below: (nat, nat), e: Entry)
  {
    e.ks < |cs| && Contains(cs[e.ks].bounds, start) && e.kd < |cs| && Contains(cs[e.kd].bounds, dest) &&
    (e.joined ==> e.ks == e.kd && JoinedPair(arena, lo, cs[e.ks], start, dest, below, e.ns, e.nd, e.path)) &&
    (!e.joined ==>
       Attached(arena, added, lo, cs[e.ks], start, below.0, e.ns) &&
       Attached(arena, added, lo, cs[e.kd], dest, below.1, e.nd))
  }

  /** A fresh pair joined inside the cluster k holding both tiles is an entry. */
  lemma JoinedEntry(arena: seq<Node>, added: seq<nat>, lo: nat, cs: seq<Cluster>, start: GridTile, dest: GridTile,
                    below: (nat, nat), k: nat, ns: nat, nd: nat, path: seq<Edge>)
    requires k < |cs| && Contains(cs[k].bounds, start) && Contains(cs[k].bounds, dest)
    requires JoinedPair(arena, lo, cs[k], start, dest, below, ns, nd, path)
    ensures EntryOk(arena, added, lo, cs, start, dest, below, Entry(true, k, k, ns, nd, path))
    ensures ns < |arena| && arena[ns].pos == start && nd < |arena| && arena[nd].pos == dest
  {
  }

  /** Start attached to its cluster ks and dest to its cluster kd is an entry. */
  lemma AttachedEntry(arena: seq<Node>, added: seq<nat>, lo: nat, cs: seq<Cluster>, start: GridTile, dest: GridTile,
                      below: (nat, nat), ks: nat, kd: nat, ns: nat, nd: nat, path: seq<Edge>)
    requires ks < |cs| && Contains(cs[ks].bounds, start) && kd < |cs| && Contains(cs[kd].bounds, dest)
    requires Attached(arena, added, lo, cs[ks], start, below.0, ns) && Attached(arena, added, lo, cs[kd], dest, below.1, nd)
    ensures EntryOk(arena, added, lo, cs, start, dest, below, Entry(false, ks, kd, ns, nd, path))
    ensures ns < |arena| && arena[ns].pos == start && nd < |arena| && arena[nd].pos == dest
  {
  }

  lemma AttachedKept(a: seq<Node>, b: seq<Node>, added: seq<nat>, added2: seq<nat>, lo: nat, c: Cluster,
                     pos: GridTile, child: nat, n: nat)
    requires Attached(a, added, lo, c, pos, child, n) && Grows(a, b) && FreshKept(lo, a, b)
    requires forall x :: x in added ==> x in added2
    ensures Attached(b, added2, lo, c, pos, child, n)
  {
    if pos !in c.nodes {
      forall e | e in b[n].edges
        ensures EntryEdge(b, c, e)
      {
        BridgeGrows(a, b, e.underlying, e.start, e.end, c.bounds);
      }
    }
  }

  /** Later levels, which only add nodes and edges and leave the query nodes already made
      as they were, keep an entry. */
  lemma EntryKept(a: seq<Node>, b: seq<Node>, added: seq<nat>, added2: seq<nat>, lo: nat, cs: seq<Cluster>,
                  start: GridTile, dest: GridTile, below: (nat, nat), e: Entry)
    requires EntryOk(a, added, lo, cs, start, dest, below, e) && Grows(a, b) && FreshKept(lo, a, b)
    requires forall x :: x in added ==> x in added2
    ensures EntryOk(b, added2, lo, cs, start, dest, below, e)
  {
    if e.joined {
      BridgeGrows(a, b, e.path, e.ns, e.nd, cs[e.ks].bounds);
    } else {
      AttachedKept(a, b, added, added2, lo, cs[e.ks], start, below.0, e.ns);
      AttachedKept(a, b, added, added2, lo, cs[e.kd], dest, below.1, e.nd);
    }
  }

  lemma FreshKeptTrans(lo: nat, a: seq<Node>, b: seq<Node>, c: seq<Node>)
    requires FreshKept(lo, a, b) && FreshKept(lo, b, c)
    ensures FreshKept(lo, a, c)
  {
  }

  /** Two insertion steps in a row keep the nodes before them. */
  lemma KeptTrans(lo: nat, a: seq<Node>, b: seq<Node>, c: seq<Node>)
    requires Keeps(a, b) && Grows(a, b) && FreshKept(lo, a, b)
    requires Keeps(b, c) && Grows(b, c) && FreshKept(lo, b, c)
    ensures Keeps(a, c) && Grows(a, c) && FreshKept(lo, a, c)
  {
    KeepsTrans(a, b, c);
    GrowsTrans(a, b, c);
  }

  /** The fresh pair ConnectInCluster appends and then perhaps joins leaves the nodes
      before it as they were. */
  lemma FreshPairKept(a: seq<Node>, a2: seq<Node>, r: seq<Node>, path: seq<Edge>)
    requires |a2| == |a| + 2 && a2[..|a|] == a && r == ConnectIf(a2, |a|, |a| + 1, path)
    ensures Grows(a, r) && FreshKept(0, a, r)
  {
    assert a2 == a + a2[|a|..];
    AppendGrows(a, a2[|a|..]);
    if path != [] {
      ConnectGrows(a2, |a|, |a| + 1, path);
      GrowsTrans(a, a2, r);
    }
  }

  /** The pair ConnectInCluster makes when its search finds `path` is a joined pair. */
  lemma FreshPairJoined(a: seq<Node>, lo: nat, c: Cluster, start: GridTile, dest: GridTile, nStart: nat, nDest: nat,
                        path: seq<Edge>)
    requires lo <= |a| && path != []
    requires Bridge(a + [Node(start, [], Some(nStart)), Node(dest, [], Some(nDest))], path, |a|, |a| + 1, c.bounds)
    ensures JoinedPair(ConnectIf(a + [Node(start, [], Some(nStart)), Node(dest, [], Some(nDest))], |a|, |a| + 1, path),
                       lo, c, start, dest, (nStart, nDest), |a|, |a| + 1, path)
  {
    var a2 := a + [Node(start, [], Some(nStart)), Node(dest, [], Some(nDest))];
    ConnectGrows(a2, |a|, |a| + 1, path);
    BridgeGrows(a2, Connect(a2, |a|, |a| + 1, path), path, |a|, |a| + 1, c.bounds);
  }

  /** What ConnectInCluster leaves: the fresh pair appended to a, and joined over `path`
      when its search found one, in which case it is the entry of the level. */
  lemma FreshPairEntry(a: seq<Node>, r: seq<Node>, added: seq<nat>, lo: nat, cs: seq<Cluster>, k: nat,
                       start: GridTile, dest: GridTile, nStart: nat, nDest: nat, path: seq<Edge>)
    requires lo <= |a| && k < |cs| && Contains(cs[k].bounds, start) && Contains(cs[k].bounds, dest)
    requires r == ConnectIf(a + [Node(start, [], Some(nStart)), Node(dest, [], Some(nDest))], |a|, |a| + 1, path)
    requires path != [] ==> Bridge(a + [Node(start, [], Some(nStart)), Node(dest, [], Some(nDest))], path, |a|, |a| + 1, cs[k].bounds)
    requires FreshKept(0, a, r)
    ensures FreshKept(lo, a, r)
    ensures path == [] ==> r == a + [Node(start, [], Some(nStart)), Node(dest, [], Some(nDest))]
    ensures path != [] ==> |a| + 1 < |r| && r[|a|].pos == start && r[|a| + 1].pos == dest
    ensures path != [] ==> EntryOk(r, added, lo, cs, start, dest, (nStart, nDest), Entry(true, k, k, |a|, |a| + 1, path))
  {
    if path != [] {
      FreshPairJoined(a, lo, cs[k], start, dest, nStart, nDest, path);
      JoinedEntry(r, added, lo, cs, start, dest, (nStart, nDest), k, |a|, |a| + 1, path);
    }
  }

  /** The entry nodes InsertNodes has reached: the map nodes s0 and d0 before any level,
      else those of the last level visited. */
  function Top(entries: seq<Entry>, s0: nat, d0: nat): (nat, nat)
  {
    if entries == [] then (s0, d0) else (entries[|entries| - 1].ns, entries[|entries| - 1].nd)
  }

  /** Each of the levels InsertNodes has visited has its entry, level 0's built on the map
      nodes s0 and d0 and every other on the entry of the level below. */
  ghost predicate EntriesOk(arena: seq<Node>, added: seq<nat>, lo: nat, C: seq<seq<Cluster>>, start: GridTile,
                            dest: GridTile, s0: nat, d0: nat, entries: seq<Entry>)
    decreases |entries|
  {
    |entries| <= |C| &&
    (entries != [] ==>
       var n := |entries| - 1;
       EntriesOk(arena, added, lo, C, start, dest, s0, d0, entries[..n]) &&
       EntryOk(arena, added, lo, C[n], start, dest, Top(entries[..n], s0, d0), entries[n]))
  }

  /** Later levels keep the entries of the levels before them. */
  lemma {:induction false} EntriesKept(a: seq<Node>, b: seq<Node>, added: seq<nat>, added2: seq<nat>, lo: nat,
                                       C: seq<seq<Cluster>>, start: GridTile, dest: GridTile, s0: nat, d0: nat,
                                       entries: seq<Entry>)
    requires EntriesOk(a, added, lo, C, start, dest, s0, d0, entries)
    requires Grows(a, b) && FreshKept(lo, a, b) && forall x :: x in added ==> x in added2
    ensures EntriesOk(b, added2, lo, C, start, dest, s0, d0, entries)
    decreases |entries|
  {
    if entries != [] {
      var n := |entries| - 1;
      EntriesKept(a, b, added, added2, lo, C, start, dest, s0, d0, entries[..n]);
      EntryKept(a, b, added, added2, lo, C[n], start, dest, Top(entries[..n], s0, d0), entries[n]);
    }
  }

  /** One more level of InsertNodes, which leaves the earlier query nodes as they were,
      adds its entry on top of those already made. */
  lemma EntriesStep(a: seq<Node>, b: seq<Node>, added: seq<nat>, added2: seq<nat>, lo: nat, C: seq<seq<Cluster>>,
                    start: GridTile, dest: GridTile, s0: nat, d0: nat, entries: seq<Entry>, e: Entry)
    requires EntriesOk(a, added, lo, C, start, dest, s0, d0, entries) && |entries| < |C|
    requires Grows(a, b) && FreshKept(lo, a, b) && forall x :: x in added ==> x in added2
    requires EntryOk(b, added2, lo, C[|entries|], start, dest, Top(entries, s0, d0), e)
    ensures EntriesOk(b, added2, lo, C, start, dest, s0, d0, entries + [e])
  {
    EntriesKept(a, b, added, added2, lo, C, start, dest, s0, d0, entries);
    assert (entries + [e])[..|entries|] == entries;
  }
}
