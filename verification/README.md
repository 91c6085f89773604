# HPA* pathfinding on a tile grid — a Dafny model

The system finds paths on a rectangular tile map whose tiles are free or blocked.

- **Plain A\*.** `Pathfinder` (AStarPathfinder.cs) runs A\* over the whole map with the
  four orthogonal moves.
- **Hierarchical graph.** `Graph` (Graph.cs) turns the map into a node graph:
  - a node for every free tile, with edges to the eight tiles around it (weight 1
    straight, √2 diagonally);
  - above that, up to `MaxLevel` levels of square clusters, each level's clusters three
    times as wide as the level below;
  - border nodes on the borders between adjacent clusters, joined across the border by
    INTER edges of weight 1;
  - INTRA edges between the border nodes of one cluster that a search inside the cluster
    connects.
- **Queries.** A hierarchical query (HierarchicalPathfinder.cs):
  1. inserts temporary start and destination nodes into every level;
  2. searches between the two top-level entry nodes;
  3. removes the edges that point at the temporary nodes.

  A low-level query searches the map nodes directly.
- **Searches.** `Pathfinder` (Pathfinder.cs) holds the two searches the graph uses:
  - A\* over nodes and edges, optionally bounded by a rectangle;
  - A\* over an obstacle grid with eight moves.

  Both rebuild the path from the `Parent` dictionary.

## How the model is organised

- **Node arena.** Nodes live in one arena, `seq<Node>`. An edge names its two ends by
  arena index. So the object graph of the source (nodes holding edge lists that point at
  nodes) is a value in the model.
- **The graph is a class.** `HpaGraph.Graph` has the source's fields: `depth`, `C`,
  `nodes`, `width`, `height`, `addedNodes` and the arena. Its methods update the fields
  with `modifies this`, as the source updates its object.
  - Its invariant, `Valid()`, says three things:
    - every map node and border node stands at its tile;
    - every level covers the map;
    - between InsertNodes and RemoveAddedNodes, the arena differs from the one InsertNodes
      started with only by the back edges of the tracked query nodes.
- **Search state.** The searches keep `Visited`, `Parent`, `gScore` and the priority queue
  as a datatype. Each loop body is a method proved against that state's invariant.
- **Priority queue.** The external SimplePriorityQueue is modelled as a sequence of
  (item, priority) entries. Dequeue removes the first entry of least priority.
- **Heuristic.** The heuristic of the node and grid searches (a float Euclidean distance)
  is a parameter `h`. No property depends on it. The plain A\* uses its own integer
  squared distance, which is modelled exactly.

## Model

| member | source | states |
|---|---|---|
| GridTiles.MakeTile | Assets/Scripts/GridTile.cs:18-22 | the tile holds the coordinates it was built from |
| GridTiles.Equals | Assets/Scripts/GridTile.cs:37-46 | Equals is true exactly for a GridTile with the same coordinates; null and objects of other types are never equal |
| GridTiles.OpEqual | Assets/Scripts/GridTile.cs:65-68 | `==` holds exactly when the right operand is a tile equal to the left one |
| GridTiles.OpNotEqual | Assets/Scripts/GridTile.cs:60-63 | `!=` holds exactly when the right operand is not a tile equal to the left one |
| GridTiles.OperatorsAreComplements | Assets/Scripts/GridTile.cs:60-68 | `!=` is the negation of `==`, and `==` agrees with Equals |
| GridTiles.Wrap32 | Assets/Scripts/GridTile.cs:51-57 | unchecked int arithmetic: the result is a 32-bit int congruent to the exact value modulo 2^32 |
| GridTiles.GetHashCode | Assets/Scripts/GridTile.cs:49-58 | the hash is a 32-bit int |
| GridTiles.HashIsWrappedPolynomial | Assets/Scripts/GridTile.cs:49-58 | wrapping after every step gives the wrapped value of (17·29 + x)·29 + y |
| GridTiles.EqualTilesHashEqually | Assets/Scripts/GridTile.cs:37-58 | tiles that are Equal have equal hash codes, as a dictionary key needs |
| PriorityQueue.MinIndex | Assets/Scripts/Pathfinder.cs:47-49 | the index of an entry of least priority, with every earlier entry strictly greater |
| PriorityQueue.Dequeue | Assets/Scripts/Pathfinder.cs:47-49 | Dequeue returns the item of the first least-priority entry and the queue without that entry, the others in order |
| NodeSearch.OutOfGridIsNotContains | Assets/Scripts/Pathfinder.cs:142-146 | IsOutOfGrid is exactly "not inside the inclusive rectangle" |
| NodeSearch.RelaxEdge | Assets/Scripts/Pathfinder.cs:58-79 | an edge that is out of bounds, reaches a visited tile or does not improve gScore leaves the state unchanged; otherwise Parent and gScore of its end are set and its end is enqueued with cost plus heuristic; either way the edge is settled afterwards |
| NodeSearch.RelaxIsLater | Assets/Scripts/Pathfinder.cs:64-76 | relaxing never shrinks Visited, never raises a gScore and never changes the gScore of a visited tile |
| NodeSearch.SettledStaysSettled | Assets/Scripts/Pathfinder.cs:64-72 | an edge that can no longer change anything stays so in every later state |
| NodeSearch.RebuildPath | Assets/Scripts/Pathfinder.cs:179-192 | the rebuilt list is empty exactly when dest has no Parent; otherwise consecutive edges meet, each edge is the Parent of the tile it ends at, the last edge ends at dest's tile and the first starts at a tile without a Parent |
| NodeSearch.RecordKeepsInv | Assets/Scripts/Pathfinder.cs:75-78 | recording an edge from a visited tile as the Parent of an unvisited tile, and queueing its end, keeps the search invariant |
| NodeSearch.ParentChainRecord | Assets/Scripts/Pathfinder.cs:75 | setting Parent of an unvisited tile to an edge from a visited one keeps the Parent chains acyclic |
| NodeSearch.ParentChainVisit | Assets/Scripts/Pathfinder.cs:55 | marking a new tile visited (with the next visit rank) keeps the Parent chains acyclic |
| NodeSearch.RelaxStartFirst | Assets/Scripts/Pathfinder.cs:43-79 | once start's tile is visited, relaxing an edge of the node just expanded queues no node at start's tile, and a Parent edge recorded from start's tile leaves the start node: the start node stays the only node of its tile in the queue and in Parent |
| NodeSearch.DequeueStartFirst | Assets/Scripts/Pathfinder.cs:49-55 | dequeuing an entry and visiting its tile keeps the start node the only node of its tile in the queue and in Parent |
| NodeSearch.RelaxKeepsInv | Assets/Scripts/Pathfinder.cs:58-79 | relaxing any edge of a visited node keeps the search invariant |
| NodeSearch.ExpandNode | Assets/Scripts/Pathfinder.cs:58-79 | the loop over `current.edges` keeps the search invariant, keeps the start node the only node of its tile in the queue and in Parent, and leaves every edge of the node settled; expanding a node a second time enqueues nothing |
| NodeSearch.VisitKeepsInv | Assets/Scripts/Pathfinder.cs:49-55 | dequeuing an entry that is not at dest and adding its tile to Visited keeps the invariant |
| NodeSearch.VisitNode | Assets/Scripts/Pathfinder.cs:49-79 | one round of the search loop past the dest test keeps the invariant; a round over an already expanded node shortens the queue, which makes the loop terminate |
| NodeSearch.FoundPathFacts | Assets/Scripts/Pathfinder.cs:50-52 | the path rebuilt when dest's tile is dequeued is a chain of graph edges from the start node to dest's tile, none leaving the bounds, none returning to start; it is empty when start and dest share a tile |
| NodeSearch.FindPath | Assets/Scripts/Pathfinder.cs:33-83 | a non-empty result is a chain of edges of the graph whose first edge leaves the start node itself (the only node queued at its tile, which is visited first) and whose last edge ends at dest's tile; it never leaves the bounds and never re-enters start's tile; the result is empty when start and dest share a tile |
| GridSearch.NeighboursAreTheEightSteps | Assets/Scripts/Pathfinder.cs:10-20 | the neighbour table lists each of the 8 moves once, the 4 straight ones costing 1 and the diagonals √2 |
| GridSearch.ObstacleAt | Assets/Scripts/Pathfinder.cs:117 | `obstacles[y][x]` inside the arrays, IndexOutOfRange outside them |
| GridSearch.RelaxOffset | Assets/Scripts/Pathfinder.cs:110-136 | one move: skipped when it leaves the rectangle, hits an obstacle, reaches a visited tile or does not improve gScore; otherwise Parent, gScore and the queue are updated; the lookup fails exactly when the tile is inside the rectangle but outside the arrays |
| GridSearch.RelaxIsLater | Assets/Scripts/Pathfinder.cs:120-131 | a move never shrinks Visited, never raises a gScore and never changes a visited tile's gScore |
| GridSearch.RelaxMove | Assets/Scripts/Pathfinder.cs:110-136 | one move keeps the search invariant and settles that move; an exception means the rectangle reaches outside the obstacle arrays |
| GridSearch.ExpandTile | Assets/Scripts/Pathfinder.cs:110-136 | the loop over the table keeps the invariant and settles every move of the tile |
| GridSearch.VisitStep | Assets/Scripts/Pathfinder.cs:102-107 | dequeuing a tile that is not dest and marking it visited keeps the invariant |
| GridSearch.VisitTile | Assets/Scripts/Pathfinder.cs:102-136 | one round of the loop keeps the invariant; the dequeued tile is start or inside the rectangle; revisiting a tile shortens the queue |
| GridSearch.ExhaustedMeansUnreachable | Assets/Scripts/Pathfinder.cs:100-139 | when the queue runs dry, no walk of free moves inside the rectangle leads from start to dest |
| GridSearch.RebuildPathGrid | Assets/Scripts/Pathfinder.cs:149-175 | follows Parent back from dest, creating a node per tile and an edge from each parent's node to its child's node weighing the difference of their costs; throws KeyNotFound exactly when dest has no Parent (given the costs are present) |
| GridSearch.CreatedOkExtend | Assets/Scripts/Pathfinder.cs:159-172 | one iteration of the do-while adds the node of the parent tile and the edge into the previous node, keeping the loop facts |
| GridSearch.RebuiltWeightsSum | Assets/Scripts/Pathfinder.cs:159-172 | the weights of the rebuilt edges sum to dest's cost minus the cost of the root tile |
| GridSearch.FoundGridPath | Assets/Scripts/Pathfinder.cs:102-105 | the path rebuilt at dest runs from start to dest by single moves over free tiles inside the rectangle |
| GridSearch.FindPathGrid | Assets/Scripts/Pathfinder.cs:85-140 | either a path of free moves from start to dest inside the rectangle, or an empty path and no such walk exists; start == dest throws KeyNotFound; IndexOutOfRange only when the rectangle reaches outside the arrays |
| AStar.Offsets4Moves | Assets/Scripts/AStarPathfinder.cs:9-14 | the table's moves are exactly the 4 orthogonal unit steps, each costing 1 |
| AStar.EuclidianDistanceSquared | Assets/Scripts/AStarPathfinder.cs:25-30 | non-negative, zero exactly for equal tiles, at least the square of either coordinate difference |
| AStar.EuclidianDistanceSquaredSymmetric | Assets/Scripts/AStarPathfinder.cs:25-30 | the distance does not depend on the order of the tiles |
| AStar.Priority | Assets/Scripts/AStarPathfinder.cs:44 | the queue priority of a tile is non-negative and zero exactly at dest |
| AStar.IsOutOfGridIsMapBounds | Assets/Scripts/AStarPathfinder.cs:99-103 | IsOutOfGrid(pos, map) is the bounded IsOutOfGrid for the rectangle of the map, i.e. not inside it |
| AStar.WalksAreMapPaths | Assets/Scripts/AStarPathfinder.cs:58-66 | the walks of the grid search with the 4-move table inside the map are exactly the orthogonal paths over free tiles |
| AStar.RebuildPath | Assets/Scripts/AStarPathfinder.cs:106-116 | the list ends at dest, starts at a tile without a parent, and each tile is the parent of the next |
| AStar.PrependParent | Assets/Scripts/AStarPathfinder.cs:111-113 | adding the first tile's parent in front keeps every parent link |
| AStar.FoundTilePath | Assets/Scripts/AStarPathfinder.cs:87-90 | the list rebuilt at dest is a map path from start to dest, and just [dest] when start is dest |
| AStar.ExhaustedMeansNoMapPath | Assets/Scripts/AStarPathfinder.cs:92-96 | when the queue runs dry no map path leads from start to dest |
| AStar.SearchTiles | Assets/Scripts/AStarPathfinder.cs:43-96 | a non-empty result is a map path from start to dest; start == dest gives [dest]; an empty result leaves the queue empty and means dest is unreachable |
| AStar.Pathfinder.constructor | Assets/Scripts/AStarPathfinder.cs:19-23 | Start creates an empty queue |
| AStar.Pathfinder.FindPath | Assets/Scripts/AStarPathfinder.cs:33-97 | as SearchTiles, on the queue field, cleared first; obstacles read `[y][x]` (corrected, see Findings) |
| AStar.ObstacleAtAsWritten | Assets/Scripts/AStarPathfinder.cs:65 | the lookup `Obstacles[x][y]`, throwing outside the arrays |
| AStar.AsWrittenIsTransposed | Assets/Scripts/AStarPathfinder.cs:65 | the lookup as written is the `[y][x]` lookup on the transposed map |
| AStar.AsWrittenThrowsInsideTheMap | Assets/Scripts/AStarPathfinder.cs:65-66 | on a 2x1 map the free in-map tile (1, 0) makes the lookup as written throw |
| AStar.AsWrittenMisreadsAnObstacle | Assets/Scripts/AStarPathfinder.cs:65-66 | on a 2x2 map the blocked tile (1, 0) reads as free |
| AStar.AsWrittenEntersAnObstacle | Assets/Scripts/AStarPathfinder.cs:58-81 | on that map the search as written relaxes the move onto the obstacle (1, 0) and records its parent |
| GraphMap.CreateMapRepresentation | Assets/Scripts/GraphUtilities/Graph.cs:61-98 | the dictionary's keys are exactly the free tiles, each node stands at its key, nodes are created column by column, and each node's edges are those SearchMapEdge adds over the 8 offsets in order |
| GraphMap.CreateColumn | Assets/Scripts/GraphUtilities/Graph.cs:68-76 | after column i the keys are exactly the free tiles of columns 0..i, each node edgeless at its key |
| GraphMap.NodeEdges | Assets/Scripts/GraphUtilities/Graph.cs:79-95 | the edges of one node, SearchMapEdge over the straight offsets then the diagonal ones |
| GraphMap.MapArenaValid | Assets/Scripts/GraphUtilities/Graph.cs:61-98 | every edge of the level-0 graph starts at its node and ends at a node of the graph |
| GraphMap.MapEdgesMeaning | Assets/Scripts/GraphUtilities/Graph.cs:79-116 | a map node's edges are INTER edges to free tiles one king's move away, weight 1 straight and √2 diagonal, one edge per such tile and no two to the same node |
| GraphMap.OffsetOf | Assets/Scripts/GraphUtilities/Graph.cs:82-94 | every king's move is one of the eight offsets tried |
| GraphMap.EdgesShape | Assets/Scripts/GraphUtilities/Graph.cs:103-116 | each edge added leads to a free tile along one of the offsets with that offset's weight |
| GraphMap.EdgesCover | Assets/Scripts/GraphUtilities/Graph.cs:103-116 | every offset that reaches a free tile adds an edge to its node |
| GraphMap.EdgesDistinct | Assets/Scripts/GraphUtilities/Graph.cs:103-116 | no two edges of a node end at the same node |
| GraphLayout.CeilDiv | Assets/Scripts/GraphUtilities/Graph.cs:42-43 | the number of clusters along an axis: the least r with r·size ≥ length |
| GraphLayout.LevelSize | Assets/Scripts/GraphUtilities/Graph.cs:37-39 | the cluster size of a level is at least the base size |
| GraphLayout.CeilDivAtMostOne | Assets/Scripts/GraphUtilities/Graph.cs:42-45 | at most one cluster along an axis exactly when the cluster is at least as wide as the map |
| GraphLayout.SingleClusterCoversMap | Assets/Scripts/GraphUtilities/Graph.cs:45-51 | the stop rule holds exactly when a single cluster covers the whole map |
| GraphLayout.ClusterBounds | Assets/Scripts/GraphUtilities/Graph.cs:286-290 | cluster (i, j) starts at (j·size, i·size) and is clipped to the map |
| GraphLayout.ClustersTileMap | Assets/Scripts/GraphUtilities/Graph.cs:283-290 | a map tile lies in cluster (i, j) exactly when i = y / size and j = x / size, and that cluster is one of those created |
| GraphLayout.DetectAdjacency | Assets/Scripts/GraphUtilities/Graph.cs:332-350 | an adjacent verdict names which cluster is the lower one and along which axis they touch; two proper rectangles judged apart do not touch |
| GraphLayout.RunLength | Assets/Scripts/GraphUtilities/Graph.cs:371-381 | the run of free border positions from an index, maximal |
| GraphLayout.Flush | Assets/Scripts/GraphUtilities/Graph.cs:388-406 | a run of at most 5 gets one link, a longer run two, all inside the run |
| GraphLayout.PlacementsAreOpen | Assets/Scripts/GraphUtilities/Graph.cs:371-401 | every border index at which a link is placed is free on both sides |
| GraphLayout.PendingClosed | Assets/Scripts/GraphUtilities/Graph.cs:377-380 | a blocked border index flushes the run before it and starts a new one |
| GraphLayout.FacingTilesInside | Assets/Scripts/GraphUtilities/Graph.cs:413-422 | the facing tiles at a border index lie in their two clusters, on either side of the border |
| GraphLayout.LayoutSameSpan | Assets/Scripts/GraphUtilities/Graph.cs:283-290 | two touching clusters of one level share their whole border |
| BorderLinks.TieUp | Assets/Scripts/GraphUtilities/Graph.cs:424-439 | one link: both clusters keep their shape, gain the border nodes at the two tiles and lose none |
| BorderLinks.TieUpOk | Assets/Scripts/GraphUtilities/Graph.cs:409-440 | one link keeps the arena valid and the border dictionaries correct, only appends, and joins the two border nodes both ways by INTER edges of weight 1 |
| BorderLinks.TieAllOk | Assets/Scripts/GraphUtilities/Graph.cs:388-440 | a series of links keeps the arena valid and the dictionaries correct, and only appends |
| BorderLinks.TieAllPaired | Assets/Scripts/GraphUtilities/Graph.cs:388-440 | after a series of links every linked pair of tiles is joined both ways |
| BorderLinks.TieAllKeeps | Assets/Scripts/GraphUtilities/Graph.cs:409-440 | links never move a node or change its child |
| BorderLinks.TieAllConcat | Assets/Scripts/GraphUtilities/Graph.cs:357-406 | the links of a + b are those of a followed by those of b |
| BorderLinks.ConcreteTie | Assets/Scripts/GraphUtilities/Graph.cs:413-435 | the link at a border index joins the facing tiles over their map nodes |
| BorderLinks.ScanEnd | Assets/Scripts/GraphUtilities/Graph.cs:383-384 | at the end of the border the last run is flushed and the scan has placed exactly the border's placements |
| BorderLinks.ConcreteBorderOk | Assets/Scripts/GraphUtilities/Graph.cs:357-440 | linking along a whole border keeps everything correct, only appends, and joins the facing tiles of every placement |
| AbstractLinks.InterOutMeaning | Assets/Scripts/GraphUtilities/Graph.cs:463-475 | the collected edges are exactly the INTER edges whose end lies in the other cluster |
| AbstractLinks.InterEdgesMeaning | Assets/Scripts/GraphUtilities/Graph.cs:463-475 | the collecting loop gathers exactly the INTER edges from one cluster's border nodes into the other cluster |
| AbstractLinks.FindTwin | Assets/Scripts/GraphUtilities/Graph.cs:479-499 | finds the first edge of the other list that starts where e1 ends, and finds one exactly when one exists |
| AbstractLinks.AbstractTies | Assets/Scripts/GraphUtilities/Graph.cs:478-500 | one link for every edge that has a twin, and no other |
| AbstractLinks.LiftPairGood | Assets/Scripts/GraphUtilities/Graph.cs:456-501 | lifting one pair of lower clusters keeps the parents' dictionaries correct, only appends, and lifts every twin pair between them |
| AbstractLinks.GridLiftedStep | Assets/Scripts/GraphUtilities/Graph.cs:445-453 | one row of lower clusters lifted on top of the earlier rows keeps every earlier lifted pair and adds the row's |
| LevelBuild.InsideMeaning | Assets/Scripts/GraphUtilities/Graph.cs:296-305 | the lower clusters listed are exactly those inside the new cluster, in level order |
| LevelBuild.GridCovers | Assets/Scripts/GraphUtilities/Graph.cs:283-308 | every map tile lies in a cluster of the new level |
| LevelBuild.NewCluster | Assets/Scripts/GraphUtilities/Graph.cs:286-305 | the created cluster has the rectangle of row i, column j, Width and Height from it, no border nodes, and the lower clusters inside it |
| LevelBuild.DetectedGood | Assets/Scripts/GraphUtilities/Graph.cs:332-350 | linking an adjacent pair keeps the arena and dictionaries correct and only appends |
| LevelBuild.LevelsBuiltStep | Assets/Scripts/GraphUtilities/Graph.cs:35-54 | building one more level on top of the others keeps all of them built |
| GraphArena.ConnectIntraOk | Assets/Scripts/GraphUtilities/Graph.cs:214-265 | both edges ConnectNodes adds are INTRA edges of the cluster over the path found, weighing its total |
| GraphArena.ConnectIntraAdded | Assets/Scripts/GraphUtilities/Graph.cs:214-265 | ConnectNodes between two border nodes of a cluster adds only INTRA edges of that cluster |
| GraphArena.BackEdgesConnectTracked | Assets/Scripts/GraphUtilities/Graph.cs:199-202 | connecting a tracked query node to a border node leaves the border node with one more back edge and nothing else changed |
| GraphArena.StripRestores | Assets/Scripts/GraphUtilities/Graph.cs:176-182 | removing the edges towards the tracked nodes from a node restores its original edges |
| GraphArena.RemoveFinal | Assets/Scripts/GraphUtilities/Graph.cs:176-182 | once every tracked node is stripped, each node of the earlier arena is as it was |
| GraphArena.LinkOk | Assets/Scripts/GraphUtilities/Graph.cs:409-440 | linking two border nodes keeps the arena valid and the dictionaries correct |
| ConnectFold.BorderNodes | Assets/Scripts/GraphUtilities/Graph.cs:511 | the list holds the border nodes in enumeration order |
| ConnectFold.Fan | Assets/Scripts/GraphUtilities/Graph.cs:199-202 | the calls from one node to each target, in order |
| ConnectFold.RowPairs | Assets/Scripts/GraphUtilities/Graph.cs:513-521 | round i of the outer loop adds exactly the pairs of node i with each later node |
| ConnectFold.IntraPairsComplete | Assets/Scripts/GraphUtilities/Graph.cs:513-521 | the two loops visit every pair a < b of border nodes |
| ConnectFold.IntraPairsSound | Assets/Scripts/GraphUtilities/Graph.cs:513-521 | the two loops visit no pair but those a < b |
| ConnectFold.ConnectAllGrows | Assets/Scripts/GraphUtilities/Graph.cs:214-265 | a run of ConnectNodes calls only appends edges |
| ConnectFold.ConnectAllJoins | Assets/Scripts/GraphUtilities/Graph.cs:214-265 | after a run, every pair whose search found a path carries the two mirrored INTRA edges over it |
| ConnectFold.ConnectAllFrame | Assets/Scripts/GraphUtilities/Graph.cs:214-265 | a node that no pair of the run names keeps its edges |
| ConnectFold.IntraLoopStep | Assets/Scripts/GraphUtilities/Graph.cs:513-522 | the run of the first i rounds followed by that of round i is the run of the first i + 1 rounds |
| ConnectFold.EntryStep | Assets/Scripts/GraphUtilities/Graph.cs:199-202 | one ConnectNodes from the query node to the next border node extends the run of ConnectToBorder's loop |
| ConnectFold.EntryRunFrame | Assets/Scripts/GraphUtilities/Graph.cs:199-202 | the finished loop only added edges and touched no node past the base but the query node |
| ConnectFold.IntraJoinedRun | Assets/Scripts/GraphUtilities/Graph.cs:504-523 | the run GenerateIntraEdges makes joins every pair its searches connected |
| ConnectFold.LevelJoinedStep | Assets/Scripts/GraphUtilities/Graph.cs:326-327 | intra edges of a later cluster keep those of the earlier clusters |
| ConnectFold.IntraBuiltStep | Assets/Scripts/GraphUtilities/Graph.cs:35-54 | a new level whose clusters carry their intra edges extends the levels built |
| QueryEntries.JoinedEntry | Assets/Scripts/GraphUtilities/Graph.cs:149-160 | a fresh pair joined inside the cluster holding both tiles is the entry of the level |
| QueryEntries.AttachedEntry | Assets/Scripts/GraphUtilities/Graph.cs:163-167 | start attached to its cluster and dest to its own is the entry of the level |
| QueryEntries.FreshPairJoined | Assets/Scripts/GraphUtilities/Graph.cs:151-160 | the pair ConnectInCluster appends and joins over a path has the INTRA pair over it as its only edges |
| QueryEntries.FreshPairKept | Assets/Scripts/GraphUtilities/Graph.cs:151-160 | appending the fresh pair and perhaps joining it leaves the nodes before as they were |
| QueryEntries.FreshPairEntry | Assets/Scripts/GraphUtilities/Graph.cs:151-162 | the fresh pair stays as appended when the search found nothing, and is the entry of the level when it found a path |
| QueryEntries.AppendedThenLinked | Assets/Scripts/GraphUtilities/Graph.cs:197-202 | a node appended and then linked, with no other node from the base on changed, keeps the earlier arena's nodes and leaves the earlier query nodes as they were |
| QueryEntries.EntryKept | Assets/Scripts/GraphUtilities/Graph.cs:130-170 | later levels, which only add nodes and edges, keep an entry |
| QueryEntries.EntriesStep | Assets/Scripts/GraphUtilities/Graph.cs:130-170 | one more level's entry on top of the entries of the levels below gives the entries of one level more |
| HpaGraph.FindClusters | Assets/Scripts/GraphUtilities/Graph.cs:136-146 | the cluster found for each tile contains it; none is found exactly when no cluster contains it |
| HpaGraph.ReversePath | Assets/Scripts/GraphUtilities/Graph.cs:244-254 | the reversed path and its total weight |
| QueryEntries.EntryEdgesConnect | Assets/Scripts/GraphUtilities/Graph.cs:197-202 | connecting a query node to a border node keeps every edge of the query node an INTRA edge into the cluster's border over a path inside the cluster |
| HpaGraph.RemovedValid | Assets/Scripts/GraphUtilities/Graph.cs:176-182 | with the back edges gone and the query nodes untouched, the graph invariant holds |
| HpaGraph.Graph.constructor | Assets/Scripts/GraphUtilities/Graph.cs:22-55 | the map nodes are the free tiles; at most MaxLevel levels are built, level i with clusters of size clusterSize·3^i; building stops early only at a level a single cluster would cover; a negative cluster size builds no level; every cluster of every level carries the INTRA edges over each path its searches found; the graph is valid with no query nodes |
| HpaGraph.Graph.BuildLevels | Assets/Scripts/GraphUtilities/Graph.cs:35-54 | the level loop: depth levels built, each one covering the map with correct border dictionaries and every cluster carrying the INTRA edges its searches found; stopping early means a single cluster covers the map |
| HpaGraph.Graph.BuildLevel | Assets/Scripts/GraphUtilities/Graph.cs:37-53 | one more level built, the others kept |
| HpaGraph.Graph.ConnectNodes | Assets/Scripts/GraphUtilities/Graph.cs:214-265 | connected exactly when a search inside the cluster between the children found a path; then an INTRA edge each way weighing the path's total, otherwise nothing changes |
| HpaGraph.Graph.ConnectFrom | Assets/Scripts/GraphUtilities/Graph.cs:516-521 | the arena after the inner loop is ConnectNodes run from border node i to each later border node in enumeration order: a pair whose search found a path inside the cluster gains the two mirrored INTRA edges over it, any other pair nothing |
| HpaGraph.Graph.GenerateIntraEdges | Assets/Scripts/GraphUtilities/Graph.cs:504-523 | the arena is ConnectNodes run over the pairs i < j of the border nodes in loop order, and over nothing else: every pair whose search found a path inside the cluster between their children gains an INTRA edge each way weighing the path's total; a pair whose search found nothing gains nothing |
| HpaGraph.Graph.LinkToBorder | Assets/Scripts/GraphUtilities/Graph.cs:199-202 | one ConnectNodes from the query node to a border node: when the search found a path (inside the cluster, between the two children) both gain the INTRA edge over it, otherwise nothing changes; no other node changes; every edge of the query node stays an entry edge into the cluster |
| HpaGraph.Graph.ConnectToBorder | Assets/Scripts/GraphUtilities/Graph.cs:188-208 | an existing border node at the tile is returned and nothing changes; otherwise a node at the tile over the child is appended and tracked, and the arena is ConnectNodes run from it to every border node of the cluster in enumeration order, each path found lying inside the cluster |
| HpaGraph.Graph.AddNode | Assets/Scripts/GraphUtilities/Graph.cs:151-152 | appends an edgeless node at the tile over the child |
| HpaGraph.Graph.ConnectInCluster | Assets/Scripts/GraphUtilities/Graph.cs:149-163 | two fresh nodes at start and dest over the entry nodes below are appended; connected exactly when the search between them found a path, and then the arena is the appended one with the INTRA pair over that path, which lies inside the cluster; otherwise the fresh pair stays edgeless; the nodes before stay as they were |
| HpaGraph.Graph.InsertAtLevel | Assets/Scripts/GraphUtilities/Graph.cs:132-169 | the entry of level i: the clusters that hold start and dest, and either a fresh pair joined inside their common cluster or each tile attached to its cluster, built on the entry nodes of the level below; earlier query nodes are left as they were |
| HpaGraph.Graph.InsertNodes | Assets/Scripts/GraphUtilities/Graph.cs:121-171 | fails with KeyNotFound exactly when a tile has no map node, changing nothing; otherwise one entry per level, level 0's built on the map nodes of start and dest and each later one on the entry nodes of the level below, and the nodes returned are the top level's entry nodes; the old arena is remembered |
| HpaGraph.Graph.ConnectRow | Assets/Scripts/GraphUtilities/Graph.cs:513-522 | one round of the outer loop extends the run over the pairs of the first i rows to the run over the first i + 1 rows |
| HpaGraph.Graph.LinkToAll | Assets/Scripts/GraphUtilities/Graph.cs:199-202 | the arena is ConnectNodes from the query node run over every border node of the cluster in enumeration order, each path found lying inside the cluster; every edge of the query node enters the cluster's border; no other node from the query's base on changes |
| HpaGraph.Graph.AttachNew | Assets/Scripts/GraphUtilities/Graph.cs:197-207 | a tile that is not a border node: a node over the child is appended, tracked, and connected to every border node of the cluster in enumeration order |
| HpaGraph.Graph.AddTrackedNode | Assets/Scripts/GraphUtilities/Graph.cs:197 | appends an edgeless node at the tile over the child, the invariant holding with it tracked |
| HpaGraph.Graph.InsertInCluster | Assets/Scripts/GraphUtilities/Graph.cs:149-169 | start and dest in one cluster: the fresh pair joined over its path when its search connected them, otherwise each tile attached to that cluster; either way the entry of the level, the earlier query nodes left as they were |
| HpaGraph.Graph.JoinInCluster | Assets/Scripts/GraphUtilities/Graph.cs:149-163 | the fresh pair of ConnectInCluster: when connected it is the entry of the level, otherwise it stays edgeless behind the old arena; nothing else changes |
| HpaGraph.Graph.AttachInCluster | Assets/Scripts/GraphUtilities/Graph.cs:165-169 | after an unjoined fresh pair, each tile attached to the cluster holding both, which is the entry of the level |
| HpaGraph.Graph.AttachPair | Assets/Scripts/GraphUtilities/Graph.cs:165-169 | start attached to its cluster over the entry node below, dest to its own, the earlier query nodes left as they were |
| HpaGraph.Graph.InsertNextLevel | Assets/Scripts/GraphUtilities/Graph.cs:130-170 | one round of the level loop adds level i's entry on top of the entries of the levels below, which stay valid |
| HpaGraph.Graph.RemoveEdgesTo | Assets/Scripts/GraphUtilities/Graph.cs:179-181 | every node an edge of n ends at loses its edges towards n |
| HpaGraph.Graph.RemoveAddedNodes | Assets/Scripts/GraphUtilities/Graph.cs:176-182 | the nodes that were there before InsertNodes are restored exactly; the query nodes are untouched |
| HpaGraph.Graph.TieBorders | Assets/Scripts/GraphUtilities/Graph.cs:409-440 | the arena and clusters become the TieUp of the link |
| HpaGraph.Graph.CreateConcreteInterEdge | Assets/Scripts/GraphUtilities/Graph.cs:409-440 | the link at a border index over the map nodes of the facing tiles |
| HpaGraph.Graph.CreateConcreteInterEdges | Assets/Scripts/GraphUtilities/Graph.cs:388-406 | the links of the flushed run: its middle, or its two ends when longer than 5 |
| HpaGraph.Graph.CreateConcreteBorderNodes | Assets/Scripts/GraphUtilities/Graph.cs:357-385 | the links of every run of free facing tiles along the border, in order |
| HpaGraph.Graph.CollectInterEdges | Assets/Scripts/GraphUtilities/Graph.cs:463-475 | the INTER edges of the cluster's border nodes that end inside the rectangle, in dictionary order |
| HpaGraph.Graph.LiftTwinEdge | Assets/Scripts/GraphUtilities/Graph.cs:479-499 | when the edge has a twin, the parents gain linked border nodes at its two tiles |
| HpaGraph.Graph.LiftTwinEdges | Assets/Scripts/GraphUtilities/Graph.cs:478-500 | the links of every edge with a twin, in order |
| HpaGraph.Graph.CreateAbstractInterEdges | Assets/Scripts/GraphUtilities/Graph.cs:456-501 | the parents after lifting every twin pair between the two lower clusters |
| HpaGraph.Graph.CreateAbstractBorderRow | Assets/Scripts/GraphUtilities/Graph.cs:446-453 | every touching pair of lower clusters in the row is lifted into the parents |
| HpaGraph.Graph.CreateAbstractBorderNodes | Assets/Scripts/GraphUtilities/Graph.cs:443-454 | every touching pair of lower clusters of the two parents is lifted |
| HpaGraph.Graph.CreateBorderNodes | Assets/Scripts/GraphUtilities/Graph.cs:310-323 | concrete border nodes at level 0, lifted ones above |
| HpaGraph.Graph.DetectAdjacentClusters | Assets/Scripts/GraphUtilities/Graph.cs:332-350 | adjacent clusters are linked, lower one first; others are left alone |
| HpaGraph.Graph.ContainedClusters | Assets/Scripts/GraphUtilities/Graph.cs:296-305 | the lower clusters inside the rectangle, in level order |
| HpaGraph.Graph.CreateLevelClusters | Assets/Scripts/GraphUtilities/Graph.cs:283-308 | ch rows of cw clusters in row-major order, covering the map, without border nodes |
| HpaGraph.Graph.LevelCluster | Assets/Scripts/GraphUtilities/Graph.cs:286-305 | the cluster of row i, column j with the lower clusters inside it |
| HpaGraph.Graph.LinkAdjacentClusters | Assets/Scripts/GraphUtilities/Graph.cs:310-323 | every pair of the level's clusters is linked as DetectAdjacentClusters links it |
| HpaGraph.Graph.GenerateLevelIntraEdges | Assets/Scripts/GraphUtilities/Graph.cs:326-327 | every cluster of the level carries the INTRA edge pair over each path its searches found between two of its border nodes; only INTRA edges of the level's clusters are added |
| HpaGraph.Graph.BuildClusters | Assets/Scripts/GraphUtilities/Graph.cs:274-330 | the new level covers the map in the grid layout; every adjacent pair is linked; then every cluster carries the INTRA edges over the paths its searches found; the dictionaries stay correct and the arena only grows |
| Hierarchical.FindHierarchicalPath | Assets/Scripts/HierarchicalPathfinder.cs:8-24 | KeyNotFound exactly when a tile has no map node; otherwise InsertNodes made an entry on each level, and the search ran from the top level's entry node for start, the Top of those entries: a non-empty result's first edge leaves that node, and the result is a chain of edges ending at dest's tile, empty when start is dest; afterwards the nodes that were there before are exactly restored |
| Hierarchical.FindLowlevelPath | Assets/Scripts/HierarchicalPathfinder.cs:26-32 | KeyNotFound exactly when a tile has no map node; otherwise a chain of graph edges from start's map node to dest's tile, empty when start is dest |

## Left out

- Floating point. Weights and gScores are `real`. SQRT2 is the float value 1.41421354.
  `Mathf.CeilToInt((float)a / b)` is exact integer ceiling division. Rounding is not modelled.
- The heuristic of the node and grid searches is a parameter. `Mathf.Sqrt` cannot be
  computed exactly, and no property of the model depends on its value.
- No optimality is claimed for any search. The plain A\* uses a squared distance, which
  overestimates, so its paths need not be shortest. The model proves what a result is
  (a connected path over the graph or free tiles), not that it is shortest.
- PriorityQueue: SimplePriorityQueue is an external library and is not part of this model.
  It is modelled as a stable minimum queue over a sequence. Its heap and its float
  priorities are left out.
- The 32-bit overflow of `clusterSize * 3` and of tile coordinates is not modelled.
  Integers are unbounded, except in GetHashCode, whose wrap-around is written out.
- HpaGraph.Graph.constructor: requires `maxLevel >= 0 && clusterSize != 0`. A negative
  MaxLevel makes the source's array allocation throw; that error path is not modelled. A
  zero cluster size divides by zero in single precision, and the int conversion of the
  resulting infinity or NaN depends on the platform. A negative cluster size is modelled:
  it builds no level.
- GridTiles.OpEqual and GridTiles.OpNotEqual: the left operand is a tile, never null. The
  source calls `o1.Equals(o2)`, which throws NullReferenceException for a null left
  operand; that case is not modelled, and no comparison in the modelled code has one.
- The array `C` of the source has MaxLevel slots, and those at and above `depth` stay null.
  The model's `C` holds only the `depth` built levels.
- RemoveAddedNodes removes only the edges towards the query nodes, as the source does.
  The query nodes themselves become unreachable garbage in the source and stay in the
  model's arena, so the arena grows by them with every query.
- HpaGraph.Graph.CreateAbstractBorderRow: the contract says every touching pair is lifted.
  It does not say that nothing else is added to the parents.
- HpaGraph.Graph.CreateAbstractBorderNodes: the contract says every touching pair is lifted.
  It does not say that nothing else is added to the parents.
- NodeSearch.FindPath: an empty result is not proved to mean that no path exists. Visited
  is keyed by tile, not by node, so the search is complete only when the reachable nodes
  stand at distinct tiles.
- Hierarchical.FindHierarchicalPath returns the top-level path of entry-node edges and does
  not expand it to level 0, as the source does. GetLayerPathFromHPA (expansion across
  levels) is not part of this model.
- Each level's entry names the entry nodes of the level below as its nodes' children, and each
  INTRA edge's path runs between the children inside the cluster. That a top-level path expands,
  level by level, into a path over map nodes is not proved, since the expansion is not part of
  this model.
- Unity's Vector3 conversions, `Debug.Log`, and the MonoBehaviour lifecycle beyond Start
  are left out. The map loader and its file format are not part of this model. A map is
  given directly as Width, Height and `Obstacles[y][x]`.
- The node-based `FindPath` in Pathfinder.cs mutates no node. Its edge lists are read
  from the arena the caller passes.

## Findings

| source | as written | input that shows it | evidently intended | confidence | as-written member | corrected member |
|---|---|---|---|---|---|---|
| Assets/Scripts/AStarPathfinder.cs:65 | the obstacle test reads `map.Obstacles[neighbour.x][neighbour.y]`, x first, while the map and every other reader index the arrays `[y][x]` | on a 2x1 map (Width 2, Height 1, both tiles free), the move to (1, 0) indexes row 1, which does not exist, and throws; on a 2x2 map whose only obstacle is (1, 0), that tile reads as free and the search steps onto it | `map.Obstacles[neighbour.y][neighbour.x]`, so the search moves only over free tiles of the map | high (not executed) | AStar.ObstacleAtAsWritten (with AStar.AsWrittenIsTransposed, AStar.AsWrittenThrowsInsideTheMap, AStar.AsWrittenMisreadsAnObstacle, AStar.AsWrittenEntersAnObstacle) | AStar.Pathfinder.FindPath (through GridSearch.ObstacleAt and AStar.WalksAreMapPaths) |
