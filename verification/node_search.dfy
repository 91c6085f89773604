/** A* over the node/edge graph, optionally bounded by a rectangle, and the rebuilding of
    its path from the Parent dictionary (Assets/Scripts/Pathfinder.cs, FindPath(Node, Node,
    Boundaries) and RebuildPath(Dictionary<GridTile, Edge>, Node)). */
module NodeSearch {
  import opened Wrappers
  import opened GridTiles
  import opened HpaTypes
  import opened PriorityQueue

  /** `IsOutOfGrid(pos, boundaries)`: outside the inclusive rectangle on some axis. */
  predicate IsOutOfGrid(pos: GridTile, b: Boundaries)
  {
    (pos.x < b.min.x || pos.x > b.max.x) || (pos.y < b.min.y || pos.y > b.max.y)
  }

  lemma OutOfGridIsNotContains(pos: GridTile, b: Boundaries)
    ensures IsOutOfGrid(pos, b) <==> !Contains(b, pos)
  {
  }

  /** The search's mutable state: Visited, Parent, gScore and the priority queue. */
  datatype Search = Search(
    visited: set<GridTile>,
    parent: map<GridTile, Edge>,
    g: map<GridTile, real>,
    pq: seq<QEntry<nat>>)

  /** The edge `e` leaves the bounds when bounds are given. */
  predicate Blocked(arena: seq<Node>, e: Edge, bounds: Option<Boundaries>)
    requires e.end < |arena|
  {
    bounds.Some? && IsOutOfGrid(arena[e.end].pos, bounds.value)
  }

  /** Relaxing `e` from `cur` can no longer change anything. */
  predicate Settled(arena: seq<Node>, s: Search, cur: nat, e: Edge, bounds: Option<Boundaries>)
    requires cur < |arena| && e.end < |arena| && arena[cur].pos in s.g
  {
    var q := arena[e.end].pos;
    Blocked(arena, e, bounds) || q in s.visited || (q in s.g && s.g[arena[cur].pos] + e.weight >= s.g[q])
  }

  /** One iteration of the loop over `current.edges`. */
  function RelaxEdge(arena: seq<Node>, s: Search, cur: nat, e: Edge, destPos: GridTile,
                     bounds: Option<Boundaries>, h: Heuristic): (r: Search)
    requires cur < |arena| && e.end < |arena| && arena[cur].pos in s.g && arena[cur].pos in s.visited
    ensures r.visited == s.visited
    ensures Settled(arena, s, cur, e, bounds) ==> r == s
    ensures !Settled(arena, s, cur, e, bounds) ==>
              var q := arena[e.end].pos;
              var t := s.g[arena[cur].pos] + e.weight;
              && q !in s.visited && !Blocked(arena, e, bounds)
              && (q in s.g ==> t < s.g[q])
              && r.parent == s.parent[q := e] && r.g == s.g[q := t]
              && r.pq == s.pq + [QEntry(e.end, t + h(q, destPos))]
    ensures Settled(arena, r, cur, e, bounds)
  {
    var q := arena[e.end].pos;
    if bounds.Some? && IsOutOfGrid(q, bounds.value) then s
    else if q in s.visited then s
    else
      var t := s.g[arena[cur].pos] + e.weight;
      if q in s.g && t >= s.g[q] then s
      else s.(parent := s.parent[q := e], g := s.g[q := t], pq := s.pq + [QEntry(e.end, t + h(q, destPos))])
  }

  /** s2 is a later state than s: Visited only grows, gScore only decreases, and the
      gScore of a visited position is final. */
  predicate Later(s: Search, s2: Search)
  {
    s.visited <= s2.visited &&
    (forall p :: p in s.g ==> p in s2.g && s2.g[p] <= s.g[p]) &&
    (forall p :: p in s.visited && p in s.g ==> s2.g[p] == s.g[p])
  }

  lemma {:induction false} RelaxIsLater(arena: seq<Node>, s: Search, cur: nat, e: Edge, destPos: GridTile,
                                        bounds: Option<Boundaries>, h: Heuristic)
    requires cur < |arena| && e.end < |arena| && arena[cur].pos in s.g && arena[cur].pos in s.visited
    ensures Later(s, RelaxEdge(arena, s, cur, e, destPos, bounds, h))
  {
  }

  lemma SettledStaysSettled(arena: seq<Node>, s: Search, s2: Search, c: nat, e: Edge, bounds: Option<Boundaries>)
    requires c < |arena| && e.end < |arena| && arena[c].pos in s.visited && arena[c].pos in s.g
    requires Later(s, s2) && Settled(arena, s, c, e, bounds)
    ensures arena[c].pos in s2.g && Settled(arena, s2, c, e, bounds)
  {
  }

  /** Every edge of every expanded node is settled. */
  predicate ExpandedSettled(arena: seq<Node>, s: Search, expanded: set<nat>, bounds: Option<Boundaries>)
    requires ValidArena(arena)
  {
    forall c :: c in expanded ==>
      c < |arena| && arena[c].pos in s.visited && arena[c].pos in s.g &&
      forall k :: 0 <= k < |arena[c].edges| ==> Settled(arena, s, c, arena[c].edges[k], bounds)
  }

  lemma ExpandedSettledLater(arena: seq<Node>, s: Search, s2: Search, expanded: set<nat>, bounds: Option<Boundaries>)
    requires ValidArena(arena) && ExpandedSettled(arena, s, expanded, bounds) && Later(s, s2)
    ensures ExpandedSettled(arena, s2, expanded, bounds)
  {
    forall c | c in expanded
      ensures c < |arena| && arena[c].pos in s2.visited && arena[c].pos in s2.g
      ensures forall k :: 0 <= k < |arena[c].edges| ==> Settled(arena, s2, c, arena[c].edges[k], bounds)
    {
      forall k | 0 <= k < |arena[c].edges|
        ensures Settled(arena, s2, c, arena[c].edges[k], bounds)
      {
        SettledStaysSettled(arena, s, s2, c, arena[c].edges[k], bounds);
      }
    }
  }

  /** The Parent dictionary can be followed back without a cycle: each parent edge ends at
      its key and starts at a position visited earlier (by `rank`) than the key. */
  predicate ParentChainOk(arena: seq<Node>, parent: map<GridTile, Edge>, rank: map<GridTile, nat>, time: nat)
  {
    (forall p :: p in rank ==> rank[p] < time) &&
    forall q :: q in parent ==>
      parent[q].start < |arena| && parent[q].end < |arena| &&
      arena[parent[q].end].pos == q && arena[parent[q].start].pos in rank &&
      (q in rank ==> rank[arena[parent[q].start].pos] < rank[q])
  }

  /** Consecutive edges meet: each edge ends at the tile where the next one starts. */
  predicate Linked(arena: seq<Node>, path: seq<Edge>)
  {
    (forall k :: 0 <= k < |path| ==> path[k].start < |arena| && path[k].end < |arena|) &&
    forall k :: 0 <= k < |path| - 1 ==> arena[path[k].end].pos == arena[path[k + 1].start].pos
  }

  /** A non-empty linked path from tile `from` to tile `to`. */
  predicate IsChain(arena: seq<Node>, path: seq<Edge>, from: GridTile, to: GridTile)
  {
    |path| > 0 && Linked(arena, path) &&
    arena[path[0].start].pos == from && arena[path[|path| - 1].end].pos == to
  }

  /** Each edge of the path is the Parent entry of the tile it ends at. */
  predicate FromParent(arena: seq<Node>, parent: map<GridTile, Edge>, path: seq<Edge>)
    requires Linked(arena, path)
  {
    forall k :: 0 <= k < |path| ==> arena[path[k].end].pos in parent && parent[arena[path[k].end].pos] == path[k]
  }

  /** RebuildPath(Parent, dest): follow Parent back from dest, prepending each edge. */
  method RebuildPath(arena: seq<Node>, parent: map<GridTile, Edge>, dest: nat,
                     ghost rank: map<GridTile, nat>, ghost time: nat) returns (res: seq<Edge>)
    requires dest < |arena| && ParentChainOk(arena, parent, rank, time)
    ensures res == [] <==> arena[dest].pos !in parent
    ensures Linked(arena, res) && FromParent(arena, parent, res)
    ensures res != [] ==> arena[res[|res| - 1].end].pos == arena[dest].pos && arena[res[0].start].pos !in parent
  {
    res := [];
    var current := arena[dest].pos;
    while current in parent
      invariant Linked(arena, res) && FromParent(arena, parent, res)
      invariant res == [] ==> current == arena[dest].pos
      invariant res != [] ==> current == arena[res[0].start].pos && current in rank
      invariant res != [] ==> arena[res[|res| - 1].end].pos == arena[dest].pos
      decreases if current in rank then rank[current] else time
    {
      var e := parent[current];
      res := [e] + res;
      current := arena[e.start].pos;
    }
  }

  /** The loop invariant of FindPath (besides the settled-edge bookkeeping). */
  predicate SearchInv(arena: seq<Node>, start: nat, dest: nat, bounds: Option<Boundaries>,
                      s: Search, rank: map<GridTile, nat>, time: nat)
    requires ValidArena(arena) && start < |arena| && dest < |arena|
  {
    var sp := arena[start].pos;
    var dp := arena[dest].pos;
    && ParentChainOk(arena, s.parent, rank, time)
    && rank.Keys == s.visited
    && sp in s.g && sp !in s.parent && dp !in s.visited
    && (s.parent != map[] ==> sp in s.visited)
    && (sp == dp ==> s.parent == map[])
    && (forall p :: p in s.visited ==> p in s.g && (p == sp || p in s.parent))
    && (forall k :: 0 <= k < |s.pq| ==>
          s.pq[k].item < |arena| && arena[s.pq[k].item].pos in s.g &&
          (arena[s.pq[k].item].pos == sp || arena[s.pq[k].item].pos in s.parent))
    && (forall q :: q in s.parent ==>
          q in s.g && s.parent[q].start < |arena| && s.parent[q] in arena[s.parent[q].start].edges &&
          !Blocked(arena, s.parent[q], bounds))
  }

  /** The start node is the only node queued at its tile, and every parent edge that
      leaves that tile leaves the start node. */
  predicate StartFirst(arena: seq<Node>, start: nat, s: Search)
    requires start < |arena|
  {
    var sp := arena[start].pos;
    (forall k :: 0 <= k < |s.pq| && s.pq[k].item < |arena| && arena[s.pq[k].item].pos == sp ==>
       s.pq[k].item == start) &&
    (forall q :: q in s.parent && s.parent[q].start < |arena| && arena[s.parent[q].start].pos == sp ==>
       s.parent[q].start == start)
  }

  /** The start tile is visited before any edge is relaxed, so relaxing an edge of the
      node just visited queues no other node at that tile, and a parent edge it records
      leaves the start node when it leaves the start tile. */
  lemma RelaxStartFirst(arena: seq<Node>, start: nat, s: Search, cur: nat, e: Edge, destPos: GridTile,
                        bounds: Option<Boundaries>, h: Heuristic)
    requires start < |arena| && StartFirst(arena, start, s) && arena[start].pos in s.visited
    requires cur < |arena| && e.end < |arena| && arena[cur].pos in s.g && arena[cur].pos in s.visited
    requires e.start == cur && (arena[cur].pos == arena[start].pos ==> cur == start)
    ensures StartFirst(arena, start, RelaxEdge(arena, s, cur, e, destPos, bounds, h))
  {
  }

  /** Dequeuing an entry keeps StartFirst. */
  lemma DequeueStartFirst(arena: seq<Node>, start: nat, s: Search, k: nat, visited: set<GridTile>)
    requires start < |arena| && StartFirst(arena, start, s) && k < |s.pq|
    ensures StartFirst(arena, start, s.(pq := RemoveAt(s.pq, k), visited := visited))
  {
  }

  /** Recording e as the parent of the tile it ends at, with any cost and priority, keeps
      the invariant when that tile is not visited yet and e leaves a visited node. */
  lemma RecordKeepsInv(arena: seq<Node>, start: nat, dest: nat, bounds: Option<Boundaries>,
                       s: Search, rank: map<GridTile, nat>, time: nat, e: Edge, t: real, pr: real)
    requires ValidArena(arena) && start < |arena| && dest < |arena|
    requires SearchInv(arena, start, dest, bounds, s, rank, time)
    requires e.start < |arena| && e in arena[e.start].edges && arena[e.start].pos in s.visited
    requires e.end < |arena| && arena[e.end].pos !in s.visited && !Blocked(arena, e, bounds)
    ensures SearchInv(arena, start, dest, bounds,
                      Search(s.visited, s.parent[arena[e.end].pos := e], s.g[arena[e.end].pos := t],
                             s.pq + [QEntry(e.end, pr)]), rank, time)
  {
    var q := arena[e.end].pos;
    assert arena[e.start].pos in rank && q !in rank && q != arena[start].pos;
    ParentChainRecord(arena, s.parent, rank, time, q, e);
    QueueRecord(arena, arena[start].pos, s.parent, s.g, s.pq, q, e, t, pr);
    ParentRecord(arena, bounds, s.parent, s.g, q, e, t, s.parent[q := e], s.g[q := t]);
  }

  /** The recorded parent edge is an unblocked edge of its start node, and its tile is costed. */
  lemma ParentRecord(arena: seq<Node>, bounds: Option<Boundaries>, parent: map<GridTile, Edge>,
                     g: map<GridTile, real>, q: GridTile, e: Edge, t: real,
                     parent2: map<GridTile, Edge>, g2: map<GridTile, real>)
    requires forall p :: p in parent ==>
      p in g && parent[p].start < |arena| && parent[p].end < |arena| &&
      parent[p] in arena[parent[p].start].edges && !Blocked(arena, parent[p], bounds)
    requires e.start < |arena| && e in arena[e.start].edges && e.end < |arena| && !Blocked(arena, e, bounds)
    requires parent2 == parent[q := e] && g2 == g[q := t]
    ensures forall p :: p in parent2 ==>
      p in g2 && parent2[p].start < |arena| && parent2[p].end < |arena| &&
      parent2[p] in arena[parent2[p].start].edges && !Blocked(arena, parent2[p], bounds)
  {
  }

  /** Queueing the end node of the recorded edge keeps every queued node's tile costed
      and either the start tile or a tile with a parent. */
  lemma QueueRecord(arena: seq<Node>, sp: GridTile, parent: map<GridTile, Edge>, g: map<GridTile, real>,
                    pq: seq<QEntry<nat>>, q: GridTile, e: Edge, t: real, pr: real)
    requires forall k :: 0 <= k < |pq| ==>
      pq[k].item < |arena| && arena[pq[k].item].pos in g && (arena[pq[k].item].pos == sp || arena[pq[k].item].pos in parent)
    requires e.end < |arena| && arena[e.end].pos == q
    ensures var pq2 := pq + [QEntry(e.end, pr)];
      forall k :: 0 <= k < |pq2| ==>
        pq2[k].item < |arena| && arena[pq2[k].item].pos in g[q := t] &&
        (arena[pq2[k].item].pos == sp || arena[pq2[k].item].pos in parent[q := e])
  {
  }

  /** A parent edge recorded for a tile not yet visited, from a visited one, keeps the
      chain acyclic. */
  lemma ParentChainRecord(arena: seq<Node>, parent: map<GridTile, Edge>, rank: map<GridTile, nat>, time: nat,
                          q: GridTile, e: Edge)
    requires ParentChainOk(arena, parent, rank, time)
    requires e.start < |arena| && e.end < |arena| && arena[e.end].pos == q
    requires arena[e.start].pos in rank && q !in rank
    ensures ParentChainOk(arena, parent[q := e], rank, time)
  {
  }

  lemma RelaxKeepsInv(arena: seq<Node>, start: nat, dest: nat, bounds: Option<Boundaries>,
                      s: Search, rank: map<GridTile, nat>, time: nat, cur: nat, j: nat, h: Heuristic)
    requires ValidArena(arena) && start < |arena| && dest < |arena|
    requires SearchInv(arena, start, dest, bounds, s, rank, time)
    requires cur < |arena| && arena[cur].pos in s.visited && j < |arena[cur].edges|
    ensures arena[cur].pos in s.g
    ensures SearchInv(arena, start, dest, bounds,
                      RelaxEdge(arena, s, cur, arena[cur].edges[j], arena[dest].pos, bounds, h), rank, time)
  {
    var e := arena[cur].edges[j];
    assert e.start == cur && e.end < |arena| && e in arena[e.start].edges;
    if !Settled(arena, s, cur, e, bounds) {
      var q := arena[e.end].pos;
      var t := s.g[arena[cur].pos] + e.weight;
      RecordKeepsInv(arena, start, dest, bounds, s, rank, time, e, t, t + h(q, arena[dest].pos));
    }
  }

  /** One relaxation keeps everything the loop over `current.edges` maintains. */
  lemma RelaxStep(arena: seq<Node>, start: nat, dest: nat, bounds: Option<Boundaries>, h: Heuristic,
                  current: nat, r: Search, rank: map<GridTile, nat>, time: nat, expanded: set<nat>, j: nat)
    requires ValidArena(arena) && start < |arena| && dest < |arena| && current < |arena|
    requires SearchInv(arena, start, dest, bounds, r, rank, time) && arena[current].pos in r.visited
    requires ExpandedSettled(arena, r, expanded, bounds)
    requires j < |arena[current].edges|
    requires forall i :: 0 <= i < j ==> Settled(arena, r, current, arena[current].edges[i], bounds)
    ensures arena[current].pos in r.g
    ensures var r1 := RelaxEdge(arena, r, current, arena[current].edges[j], arena[dest].pos, bounds, h);
            && SearchInv(arena, start, dest, bounds, r1, rank, time)
            && ExpandedSettled(arena, r1, expanded, bounds)
            && (forall i :: 0 <= i <= j ==> Settled(arena, r1, current, arena[current].edges[i], bounds))
            && (current in expanded ==> r1.pq == r.pq)
  {
    var es := arena[current].edges;
    RelaxKeepsInv(arena, start, dest, bounds, r, rank, time, current, j, h);
    RelaxIsLater(arena, r, current, es[j], arena[dest].pos, bounds, h);
    if current in expanded {
      assert Settled(arena, r, current, es[j], bounds);
    }
    var r1 := RelaxEdge(arena, r, current, es[j], arena[dest].pos, bounds, h);
    ExpandedSettledLater(arena, r, r1, expanded, bounds);
    forall i | 0 <= i < j
      ensures Settled(arena, r1, current, es[i], bounds)
    {
      SettledStaysSettled(arena, r, r1, current, es[i], bounds);
    }
  }

  /** A visited node all of whose edges are settled joins the expanded nodes. */
  lemma ExpandedSettledAdd(arena: seq<Node>, s: Search, expanded: set<nat>, c: nat, bounds: Option<Boundaries>)
    requires ValidArena(arena) && ExpandedSettled(arena, s, expanded, bounds)
    requires c < |arena| && arena[c].pos in s.visited && arena[c].pos in s.g
    requires forall k :: 0 <= k < |arena[c].edges| ==> Settled(arena, s, c, arena[c].edges[k], bounds)
    ensures ExpandedSettled(arena, s, expanded + {c}, bounds)
  {
  }

  /** The loop over `current.edges`: relax every edge of the node just visited. */
  method ExpandNode(arena: seq<Node>, start: nat, dest: nat, bounds: Option<Boundaries>, h: Heuristic,
                    current: nat, s: Search, ghost rank: map<GridTile, nat>, ghost time: nat,
                    ghost expanded: set<nat>) returns (r: Search)
    requires ValidArena(arena) && start < |arena| && dest < |arena| && current < |arena|
    requires SearchInv(arena, start, dest, bounds, s, rank, time) && arena[current].pos in s.visited
    requires StartFirst(arena, start, s) && arena[start].pos in s.visited
    requires arena[current].pos == arena[start].pos ==> current == start
    requires ExpandedSettled(arena, s, expanded, bounds)
    ensures SearchInv(arena, start, dest, bounds, r, rank, time)
    ensures StartFirst(arena, start, r)
    ensures ExpandedSettled(arena, r, expanded + {current}, bounds)
    ensures current in expanded ==> r.pq == s.pq
  {
    var es := arena[current].edges;
    var dp := arena[dest].pos;
    r := s;
    var j := 0;
    while j < |es|
      invariant 0 <= j <= |es|
      invariant SearchInv(arena, start, dest, bounds, r, rank, time) && arena[current].pos in r.visited
      invariant StartFirst(arena, start, r) && arena[start].pos in r.visited
      invariant ExpandedSettled(arena, r, expanded, bounds)
      invariant forall i :: 0 <= i < j ==> Settled(arena, r, current, es[i], bounds)
      invariant current in expanded ==> r.pq == s.pq
    {
      RelaxStep(arena, start, dest, bounds, h, current, r, rank, time, expanded, j);
      RelaxStartFirst(arena, start, r, current, es[j], dp, bounds, h);
      var r1 := RelaxEdge(arena, r, current, es[j], dp, bounds, h);
      r := r1;
      j := j + 1;
    }
    ExpandedSettledAdd(arena, r, expanded, current, bounds);
  }

  /** The node indices of an arena. */
  function AllIds(n: nat): (ids: set<nat>)
    ensures forall i: nat :: i in ids <==> i < n
  {
    if n == 0 then {} else
    var r := AllIds(n - 1) + {n - 1};
    assert forall i: nat :: i in r <==> i < n by {
      forall i: nat ensures i in r <==> i < n {
        if i < n - 1 { assert i in AllIds(n - 1); }
      }
    }
    r
  }

  /** Dequeuing an entry and visiting its position keeps the invariant. */
  lemma VisitKeepsInv(arena: seq<Node>, start: nat, dest: nat, bounds: Option<Boundaries>,
                      s: Search, rank: map<GridTile, nat>, time: nat, k: nat, expanded: set<nat>)
    requires ValidArena(arena) && start < |arena| && dest < |arena|
    requires SearchInv(arena, start, dest, bounds, s, rank, time)
    requires ExpandedSettled(arena, s, expanded, bounds)
    requires k < |s.pq| && arena[s.pq[k].item].pos != arena[dest].pos
    ensures s.pq[k].item < |arena|
    ensures var cp := arena[s.pq[k].item].pos;
            var rank' := if cp in s.visited then rank else rank[cp := time];
            var time' := if cp in s.visited then time else time + 1;
            var s' := s.(pq := RemoveAt(s.pq, k), visited := s.visited + {cp});
            SearchInv(arena, start, dest, bounds, s', rank', time') &&
            ExpandedSettled(arena, s', expanded, bounds) && cp in s'.visited
  {
    var cp := arena[s.pq[k].item].pos;
    var s' := s.(pq := RemoveAt(s.pq, k), visited := s.visited + {cp});
    assert Later(s, s');
    ExpandedSettledLater(arena, s, s', expanded, bounds);
    if cp !in s.visited {
      ParentChainVisit(arena, s.parent, rank, time, cp);
    }
  }

  /** Visiting a new tile gives it the next rank, which keeps the chain acyclic. */
  lemma ParentChainVisit(arena: seq<Node>, parent: map<GridTile, Edge>, rank: map<GridTile, nat>, time: nat,
                         cp: GridTile)
    requires ParentChainOk(arena, parent, rank, time) && cp !in rank
    ensures ParentChainOk(arena, parent, rank[cp := time], time + 1)
  {
  }

  /** What the invariant says about a path rebuilt from Parent at the destination. */
  lemma FoundPathFacts(arena: seq<Node>, start: nat, dest: nat, bounds: Option<Boundaries>,
                       s: Search, rank: map<GridTile, nat>, time: nat, current: nat, path: seq<Edge>)
    requires ValidArena(arena) && start < |arena| && dest < |arena| && current < |arena|
    requires SearchInv(arena, start, dest, bounds, s, rank, time) && StartFirst(arena, start, s)
    requires arena[current].pos == arena[dest].pos
    requires path == [] <==> arena[current].pos !in s.parent
    requires Linked(arena, path) && FromParent(arena, s.parent, path)
    requires path != [] ==> arena[path[|path| - 1].end].pos == arena[current].pos && arena[path[0].start].pos !in s.parent
    ensures path != [] ==> IsChain(arena, path, arena[start].pos, arena[dest].pos) && path[0].start == start
    ensures forall k :: 0 <= k < |path| ==> path[k].start < |arena| && path[k] in arena[path[k].start].edges
    ensures forall k :: 0 <= k < |path| ==> path[k].end < |arena| && !Blocked(arena, path[k], bounds)
    ensures forall k :: 0 <= k < |path| ==> path[k].end < |arena| && arena[path[k].end].pos != arena[start].pos
    ensures arena[start].pos == arena[dest].pos ==> path == []
  {
    if path != [] {
      assert arena[path[0].end].pos in s.parent;
      assert arena[path[0].start].pos in s.visited;
    }
  }

  /** The body of the search loop once the dequeued node is known not to be the
      destination: mark its position visited and relax its edges. */
  method VisitNode(arena: seq<Node>, start: nat, dest: nat, bounds: Option<Boundaries>, h: Heuristic,
                   s: Search, ghost rank: map<GridTile, nat>, ghost time: nat, ghost expanded: set<nat>,
                   current: nat, rest: seq<QEntry<nat>>, ghost k: nat)
    returns (r: Search, ghost rank': map<GridTile, nat>, ghost time': nat, ghost expanded': set<nat>)
    requires ValidArena(arena) && start < |arena| && dest < |arena|
    requires SearchInv(arena, start, dest, bounds, s, rank, time) && StartFirst(arena, start, s)
    requires ExpandedSettled(arena, s, expanded, bounds)
    requires k < |s.pq| && current == s.pq[k].item && rest == RemoveAt(s.pq, k)
    requires arena[current].pos != arena[dest].pos
    ensures SearchInv(arena, start, dest, bounds, r, rank', time') && StartFirst(arena, start, r)
    ensures ExpandedSettled(arena, r, expanded', bounds)
    ensures expanded' == expanded + {current} && current < |arena|
    ensures current in expanded ==> |r.pq| < |s.pq|
  {
    var cp := arena[current].pos;
    VisitKeepsInv(arena, start, dest, bounds, s, rank, time, k, expanded);
    rank', time' := rank, time;
    if cp !in s.visited {
      rank' := rank[cp := time];
      time' := time + 1;
    }
    r := s.(pq := rest, visited := s.visited + {cp});
    DequeueStartFirst(arena, start, s, k, s.visited + {cp});
    assert arena[start].pos in r.visited by {
      if cp != arena[start].pos {
        assert cp in s.parent;
      }
    }
    r := ExpandNode(arena, start, dest, bounds, h, current, r, rank', time', expanded);
    expanded' := expanded + {current};
  }

  /** FindPath(start, dest, boundaries): A* from `start` towards `dest` over the nodes'
      edges, never relaxing an edge that ends outside `bounds` when bounds are given.
      A path found leaves the start node itself, not merely its tile. The result is empty
      when the queue runs dry, and when start and dest share a tile. */
  method FindPath(arena: seq<Node>, start: nat, dest: nat, bounds: Option<Boundaries>, h: Heuristic)
    returns (path: seq<Edge>)
    requires ValidArena(arena) && start < |arena| && dest < |arena|
    ensures path != [] ==> IsChain(arena, path, arena[start].pos, arena[dest].pos) && path[0].start == start
    ensures forall k :: 0 <= k < |path| ==> path[k].start < |arena| && path[k] in arena[path[k].start].edges
    ensures forall k :: 0 <= k < |path| ==> path[k].end < |arena| && !Blocked(arena, path[k], bounds)
    ensures forall k :: 0 <= k < |path| ==> path[k].end < |arena| && arena[path[k].end].pos != arena[start].pos
    ensures arena[start].pos == arena[dest].pos ==> path == []
  {
    var sp := arena[start].pos;
    var dp := arena[dest].pos;
    var s := Search({}, map[], map[sp := 0.0], [QEntry(start, h(sp, dp))]);
    ghost var rank: map<GridTile, nat> := map[];
    ghost var time: nat := 0;
    ghost var expanded: set<nat> := {};
    ghost var all := AllIds(|arena|);
    while |s.pq| > 0
      invariant SearchInv(arena, start, dest, bounds, s, rank, time) && StartFirst(arena, start, s)
      invariant ExpandedSettled(arena, s, expanded, bounds)
      invariant expanded <= all
      decreases all - expanded, |s.pq|
    {
      var current, rest, k := Dequeue(s.pq);
      if arena[current].pos == dp {
        path := RebuildPath(arena, s.parent, current, rank, time);
        FoundPathFacts(arena, start, dest, bounds, s, rank, time, current, path);
        return;
      }
      s, rank, time, expanded := VisitNode(arena, start, dest, bounds, h, s, rank, time, expanded, current, rest, k);
    }
    path := [];
  }
}
