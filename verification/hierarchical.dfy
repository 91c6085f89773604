/** The query entry points (Assets/Scripts/HierarchicalPathfinder.cs): a hierarchical
    query inserts its start and destination into every level of the graph, searches
    between the two entry nodes, and then retracts what the insertion added; a low-level
    query searches the map nodes directly. */
module Hierarchical {
  import opened Wrappers
  import opened GridTiles
  import opened HpaTypes
  import opened GraphArena
  import opened HpaGraph
  import opened QueryEntries
  import NodeSearch

  /** FindHierarchicalPath(graph, start, dest): InsertNodes, an unbounded search between
      the entry nodes it returns, then RemoveAddedNodes whatever the search found. The
      path is the top-level one, made of the entry nodes' edges, and is not expanded to
      level 0. `searched` is the arena the search ran over, `entries` what InsertNodes
      made of the two tiles on each level, `tracked` the query nodes it added and `ns`
      and `nd` the two nodes the search ran between. A tile without a map node fails
      with KeyNotFound before anything changes. */
  method FindHierarchicalPath(graph: Graph, start: GridTile, dest: GridTile)
    returns (r: Result<seq<Edge>>, ghost searched: seq<Node>, ghost entries: seq<Entry>, ghost tracked: seq<nat>,
             ghost ns: nat, ghost nd: nat)
    requires graph.Valid()
    modifies graph
    ensures graph.Valid() && graph.SameLevels()
    ensures r.Failure? <==> start !in graph.nodes || dest !in graph.nodes
    ensures r.Failure? ==> r.error == KeyNotFound && graph.arena == old(graph.arena)
    ensures r.Success? ==> Keeps(old(graph.arena), searched) && |graph.arena| == |searched|
    ensures r.Success? ==> r.value != [] ==> NodeSearch.IsChain(searched, r.value, start, dest)
    ensures r.Success? ==> forall k :: 0 <= k < |r.value| ==>
      r.value[k].start < |searched| && r.value[k] in searched[r.value[k].start].edges
    ensures r.Success? && start == dest ==> r.value == []
    // InsertNodes made an entry on every level, and the search ran from the top level's
    // entry node for start towards the one for dest
    ensures r.Success? ==>
      |entries| == graph.depth &&
      EntriesOk(searched, tracked, |old(graph.arena)|, graph.C, start, dest, graph.nodes[start], graph.nodes[dest], entries) &&
      (ns, nd) == Top(entries, graph.nodes[start], graph.nodes[dest]) &&
      ns < |searched| && nd < |searched| && searched[ns].pos == start && searched[nd].pos == dest
    ensures r.Success? ==> r.value != [] ==> r.value[0].start == ns
    // the nodes that were there before the query come back exactly as they were
    ensures r.Success? ==> graph.arena[..|old(graph.arena)|] == old(graph.arena)
    // the query nodes keep their tiles, edges and children
    ensures r.Success? ==> forall k :: |old(graph.arena)| <= k < |graph.arena| ==> graph.arena[k] == searched[k]
  {
    var inserted;
    inserted, entries := graph.InsertNodes(start, dest);
    tracked := graph.addedNodes;
    if inserted.Failure? {
      return Failure(inserted.error), graph.arena, entries, tracked, 0, 0;
    }
    var (nStart, nDest) := inserted.value;
    ns, nd := nStart, nDest;
    searched := graph.arena;
    assert ValidArena(searched);
    var path := NodeSearch.FindPath(graph.arena, nStart, nDest, None, graph.h);
    graph.RemoveAddedNodes();
    return Success(path), searched, entries, tracked, ns, nd;
  }

  /** FindLowlevelPath(graph, start, dest): an unbounded search between the map nodes of
      the two tiles, which changes nothing; a tile without a map node fails with
      KeyNotFound. */
  method FindLowlevelPath(graph: Graph, start: GridTile, dest: GridTile) returns (r: Result<seq<Edge>>)
    requires graph.Valid()
    ensures r.Failure? <==> start !in graph.nodes || dest !in graph.nodes
    ensures r.Failure? ==> r.error == KeyNotFound
    ensures r.Success? ==> r.value != [] ==> NodeSearch.IsChain(graph.arena, r.value, start, dest)
    ensures r.Success? ==> r.value != [] ==> r.value[0].start == graph.nodes[start]
    ensures r.Success? ==> forall k :: 0 <= k < |r.value| ==>
      r.value[k].start < |graph.arena| && r.value[k] in graph.arena[r.value[k].start].edges
    ensures r.Success? && start == dest ==> r.value == []
  {
    if start !in graph.nodes || dest !in graph.nodes {
      return Failure(KeyNotFound);
    }
    var nStart := graph.nodes[start];
    var nDest := graph.nodes[dest];
    var path := NodeSearch.FindPath(graph.arena, nStart, nDest, None, graph.h);
    return Success(path);
  }
}
