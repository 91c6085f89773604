/** The plain A* over a whole map with the 4 orthogonal neighbours, used as the
    non-hierarchical baseline (Assets/Scripts/AStarPathfinder.cs). Its search loop is the
    grid search of GridSearch run with a 4-move table over the map rectangle; what it
    returns is the list of tiles from start to dest rebuilt from Parent. */
module AStar {
  import opened Wrappers
  import opened GridTiles
  import opened HpaTypes
  import opened PriorityQueue
  import NodeSearch
  import opened GridSearch

  /** The `neighbours` array: left, right, down, up, each costing 1. */
  const Offsets4: seq<Offset> := [Offset(-1, 0, 1.0), Offset(1, 0, 1.0), Offset(0, -1, 1.0), Offset(0, 1, 1.0)]

  /** b is one of the 4 tiles that share a side with a. */
  predicate IsOrthogonalStep(a: GridTile, b: GridTile)
  {
    (a.x == b.x && (b.y - a.y == 1 || b.y - a.y == -1)) ||
    (a.y == b.y && (b.x - a.x == 1 || b.x - a.x == -1))
  }

  /** The moves of the table are exactly the orthogonal unit steps, each costing 1. */
  lemma Offsets4Moves(g: map<GridTile, real>, p: GridTile, q: GridTile)
    ensures DistinctMoves(Offsets4)
    ensures MoveIn(Offsets4, p, q) <==> IsOrthogonalStep(p, q)
    ensures p in g && q in g && CostedMove(Offsets4, g, p, q) ==> IsOrthogonalStep(p, q) && g[q] == g[p] + 1.0
  {
    var m := FindMove(Offsets4, q.x - p.x, q.y - p.y);
    if m.Some? {
      var k := m.value;
      assert k == 0 || k == 1 || k == 2 || k == 3;
      assert Offsets4[k].weight == 1.0;
    }
    if IsOrthogonalStep(p, q) {
      var k := if q.y == p.y then (if q.x - p.x == -1 then 0 else 1) else (if q.y - p.y == -1 then 2 else 3);
      assert Offsets4[k].dx == q.x - p.x && Offsets4[k].dy == q.y - p.y;
    }
  }

  /** `EuclidianDistanceSquared`: the squared straight-line distance, used as the heuristic.
      The squares of small tile differences are exact in single precision, so the
      `(int)` of the float sum is the integer sum. */
  function EuclidianDistanceSquared(tile1: GridTile, tile2: GridTile): (r: int)
    ensures r >= 0
    ensures r == 0 <==> tile1 == tile2
    ensures r >= (tile2.x - tile1.x) * (tile2.x - tile1.x) && r >= (tile2.y - tile1.y) * (tile2.y - tile1.y)
  {
    var dx, dy := tile2.x - tile1.x, tile2.y - tile1.y;
    dx * dx + dy * dy
  }

  /** The priority heuristic: the integer distance converted to the queue's float. */
  function Priority(tile1: GridTile, tile2: GridTile): (r: real)
    ensures r >= 0.0 && (r == 0.0 <==> tile1 == tile2)
  {
    EuclidianDistanceSquared(tile1, tile2) as real
  }

  lemma EuclidianDistanceSquaredSymmetric(tile1: GridTile, tile2: GridTile)
    ensures EuclidianDistanceSquared(tile1, tile2) == EuclidianDistanceSquared(tile2, tile1)
  {
    var dx, dy := tile2.x - tile1.x, tile2.y - tile1.y;
    assert (-dx) * (-dx) == dx * dx && (-dy) * (-dy) == dy * dy;
  }

  /** The map as a rectangle: x in [0, Width), y in [0, Height). */
  function MapBounds(m: Map): Boundaries
  {
    Boundaries(GridTile(0, 0), GridTile(m.width - 1, m.height - 1))
  }

  /** `IsOutOfGrid(pos, map)`: the bounded IsOutOfGrid of the graph searches applied to
      the whole map. */
  predicate IsOutOfGrid(pos: GridTile, m: Map)
  {
    (pos.x < 0 || pos.x >= m.width) || (pos.y < 0 || pos.y >= m.height)
  }

  lemma IsOutOfGridIsMapBounds(pos: GridTile, m: Map)
    ensures IsOutOfGrid(pos, m) <==> NodeSearch.IsOutOfGrid(pos, MapBounds(m))
    ensures IsOutOfGrid(pos, m) <==> !Contains(MapBounds(m), pos)
  {
  }

  /** Every tile of a well-formed map can be looked up as `obstacles[y][x]`. */
  lemma MapBoundsInGrid(m: Map)
    requires WellFormedMap(m)
    ensures BoundsInGrid(MapBounds(m), m.obstacles)
  {
  }

  /** A free step of the search over the map: an orthogonal move onto a free tile. */
  predicate MapStepAt(m: Map, w: seq<GridTile>, i: nat)
    requires WellFormedMap(m) && i + 1 < |w|
  {
    IsOrthogonalStep(w[i], w[i + 1]) && IsFreeTile(m, w[i + 1])
  }

  /** A sequence of tiles in which every step is an orthogonal move onto a free tile. */
  predicate IsMapPath(m: Map, w: seq<GridTile>)
    requires WellFormedMap(m)
  {
    |w| > 0 && forall i :: 0 <= i < |w| - 1 ==> MapStepAt(m, w, i)
  }

  /** On a well-formed map the walks of the grid search with the 4-move table are exactly
      the map paths. */
  lemma WalksAreMapPaths(m: Map, w: seq<GridTile>)
    requires WellFormedMap(m)
    ensures IsWalk(m.obstacles, MapBounds(m), Offsets4, w) <==> IsMapPath(m, w)
  {
    forall i | 0 <= i < |w| - 1
      ensures WalkStepAt(m.obstacles, MapBounds(m), Offsets4, w, i) <==> MapStepAt(m, w, i)
    {
      Offsets4Moves(map[], w[i], w[i + 1]);
    }
  }

  /** No map path leads from start to dest. */
  ghost predicate Unreachable(m: Map, start: GridTile, dest: GridTile)
    requires WellFormedMap(m)
  {
    forall w {:trigger IsMapPath(m, w)} :: IsMapPath(m, w) && w[0] == start ==> w[|w| - 1] != dest
  }

  /** The list RebuildPath returns: it ends at dest, starts at a tile without a parent,
      and each tile is the parent of the next. */
  predicate TileLinkAt(parent: map<GridTile, GridTile>, path: seq<GridTile>, i: nat)
    requires i + 1 < |path|
  {
    path[i + 1] in parent && parent[path[i + 1]] == path[i]
  }

  predicate ParentList(parent: map<GridTile, GridTile>, path: seq<GridTile>, dest: GridTile)
  {
    |path| > 0 && path[|path| - 1] == dest && path[0] !in parent &&
    forall i :: 0 <= i < |path| - 1 ==> TileLinkAt(parent, path, i)
  }

  /** Putting the parent of the first tile in front keeps every link. */
  lemma PrependParent(parent: map<GridTile, GridTile>, path: seq<GridTile>)
    requires |path| > 0 && path[0] in parent
    requires forall i :: 0 <= i < |path| - 1 ==> TileLinkAt(parent, path, i)
    ensures forall i :: 0 <= i < |path| ==> TileLinkAt(parent, [parent[path[0]]] + path, i)
  {
    var p := [parent[path[0]]] + path;
    forall i | 0 <= i < |path|
      ensures TileLinkAt(parent, p, i)
    {
      if i > 0 {
        assert TileLinkAt(parent, path, i - 1);
      }
    }
  }

  /** RebuildPath(Parent, dest): add tiles at the front, following Parent from dest until
      a tile without a parent. */
  method RebuildPath(parent: map<GridTile, GridTile>, dest: GridTile, ghost rank: map<GridTile, nat>)
    returns (res: seq<GridTile>)
    requires forall q :: q in parent ==> parent[q] in rank && (q in rank ==> rank[parent[q]] < rank[q])
    ensures ParentList(parent, res, dest)
  {
    var current := dest;
    res := [current];
    while current in parent
      invariant |res| > 0 && res[0] == current && res[|res| - 1] == dest
      invariant forall i :: 0 <= i < |res| - 1 ==> TileLinkAt(parent, res, i)
      decreases if current in rank then 0 else 1, if current in rank then rank[current] else 0
    {
      PrependParent(parent, res);
      current := parent[current];
      res := [current] + res;
    }
  }

  /** What `map.Obstacles[neighbour.x][neighbour.y]` reads: the arrays indexed by x
      first, while every other reader of the map (Map.IsFreeTile, Pathfinder.cs, the map
      loader) indexes them by y first. */
  function ObstacleAtAsWritten(obstacles: seq<seq<bool>>, t: GridTile): (r: Result<bool>)
    ensures r.Failure? ==> r.error == IndexOutOfRange
  {
    if 0 <= t.x < |obstacles| && 0 <= t.y < |obstacles[t.x]| then Success(obstacles[t.x][t.y])
    else Failure(IndexOutOfRange)
  }

  /** The obstacle arrays mirrored across the diagonal: Width rows of Height cells. */
  function Transposed(m: Map): (r: seq<seq<bool>>)
    requires WellFormedMap(m)
    ensures |r| == m.width && forall x :: 0 <= x < m.width ==> |r[x]| == m.height
    ensures forall x, y :: 0 <= x < m.width && 0 <= y < m.height ==> r[x][y] == m.obstacles[y][x]
  {
    seq(m.width, x requires 0 <= x < m.width => seq(m.height, y requires 0 <= y < m.height => m.obstacles[y][x]))
  }

  /** The lookup as written is the y-first lookup of the search on the transposed map, so
      the search as written explores the mirror image of the map, and throws on a map
      that is not square. */
  lemma AsWrittenIsTransposed(m: Map, t: GridTile)
    requires WellFormedMap(m) && m.height > 0
    ensures ObstacleAtAsWritten(m.obstacles, t) == ObstacleAt(Transposed(m), t)
  {
  }

  /** On a 2x1 map the tile (1, 0) is inside the map, yet the lookup as written indexes
      a row that does not exist. */
  lemma AsWrittenThrowsInsideTheMap()
    ensures var m := Map(2, 1, [[false, false]], 2);
            var t := GridTile(1, 0);
            WellFormedMap(m) && !IsOutOfGrid(t, m) && IsFreeTile(m, t) &&
            ObstacleAtAsWritten(m.obstacles, t) == Failure(IndexOutOfRange)
  {
  }

  /** On a 2x2 map whose only obstacle is (1, 0), the lookup as written reads (1, 0) as
      free. */
  lemma AsWrittenMisreadsAnObstacle()
    ensures var m := Map(2, 2, [[false, true], [false, false]], 3);
            var t := GridTile(1, 0);
            WellFormedMap(m) && !IsOutOfGrid(t, m) && !IsFreeTile(m, t) &&
            ObstacleAtAsWritten(m.obstacles, t) == Success(false)
  {
  }

  /** The arrays of that map, transposed. */
  lemma TransposedExample()
    ensures Transposed(Map(2, 2, [[false, true], [false, false]], 3)) == [[false, false], [true, false]]
  {
    var tr := Transposed(Map(2, 2, [[false, true], [false, false]], 3));
    assert tr[0] == [false, false] && tr[1] == [true, false];
  }

  /** On the same map the search as written, which looks up the transposed arrays,
      relaxes the move from (0, 0) onto the obstacle (1, 0) and makes (0, 0) its parent. */
  lemma AsWrittenEntersAnObstacle(h: Heuristic)
    ensures var s := GSearch({GridTile(0, 0)}, map[], map[GridTile(0, 0) := 0.0], []);
            var b := MapBounds(Map(2, 2, [[false, true], [false, false]], 3));
            var r := RelaxOffset([[false, false], [true, false]], b, s, GridTile(0, 0), Offsets4[1], GridTile(1, 1), h);
            r.Success? && r.value.parent == map[GridTile(1, 0) := GridTile(0, 0)]
  {
    assert Shift(GridTile(0, 0), Offsets4[1]) == GridTile(1, 0);
  }

  /** What the invariant of the search says about the list rebuilt at the destination. */
  lemma FoundTilePath(m: Map, start: GridTile, dest: GridTile, s: GSearch, rank: map<GridTile, nat>,
                      time: nat, k: nat, path: seq<GridTile>)
    requires WellFormedMap(m)
    requires GridInv(m.obstacles, MapBounds(m), Offsets4, start, dest, s, rank, time)
    requires k < |s.pq| && s.pq[k].item == dest
    requires ParentList(s.parent, path, dest)
    ensures path != [] && path[0] == start && path[|path| - 1] == dest && IsMapPath(m, path)
    ensures start == dest ==> path == [dest]
  {
    var b := MapBounds(m);
    forall i | 0 <= i < |path| - 1
      ensures WalkStepAt(m.obstacles, b, Offsets4, path, i)
    {
      assert TileLinkAt(s.parent, path, i);
      Offsets4Moves(s.g, path[i], path[i + 1]);
    }
    WalksAreMapPaths(m, path);
    if |path| > 1 {
      assert TileLinkAt(s.parent, path, 0);
      assert path[0] in rank;
    }
  }

  /** When the queue runs dry, no map path leads from start to dest. */
  lemma ExhaustedMeansNoMapPath(m: Map, start: GridTile, dest: GridTile, s: GSearch,
                                rank: map<GridTile, nat>, time: nat)
    requires WellFormedMap(m)
    requires GridInv(m.obstacles, MapBounds(m), Offsets4, start, dest, s, rank, time)
    requires VisitedSettled(m.obstacles, MapBounds(m), Offsets4, s, start, |Offsets4|) && s.pq == []
    ensures Unreachable(m, start, dest)
  {
    ExhaustedMeansUnreachable(m.obstacles, MapBounds(m), Offsets4, start, dest, s, rank, time);
    forall w | IsMapPath(m, w) && w[0] == start
      ensures w[|w| - 1] != dest
    {
      WalksAreMapPaths(m, w);
    }
  }

  /** The search loop of FindPath, from the queue `pq0` (empty, as FindPath clears it):
      the path found and what is left in the queue. */
  method SearchTiles(start: GridTile, dest: GridTile, m: Map, pq0: seq<QEntry<GridTile>>)
    returns (path: seq<GridTile>, pq: seq<QEntry<GridTile>>)
    requires WellFormedMap(m) && pq0 == []
    ensures path != [] ==> path[0] == start && path[|path| - 1] == dest && IsMapPath(m, path)
    ensures start == dest ==> path == [dest]
    ensures path == [] ==> pq == [] && Unreachable(m, start, dest)
  {
    var b := MapBounds(m);
    var h: Heuristic := Priority;
    var s := GSearch({}, map[], map[start := 0.0], pq0 + [QEntry(start, h(start, dest))]);
    pq := s.pq;
    ghost var rank: map<GridTile, nat> := map[];
    ghost var time: nat := 0;
    ghost var all := RectTiles(b) + {start};
    assert s.pq[0].item in Items(s.pq);
    MapBoundsInGrid(m);
    Offsets4Moves(s.g, start, dest);
    while |pq| > 0
      invariant pq == s.pq
      invariant GridInv(m.obstacles, b, Offsets4, start, dest, s, rank, time)
      invariant VisitedSettled(m.obstacles, b, Offsets4, s, start, |Offsets4|)
      invariant s.visited <= all
      invariant start == dest ==> |s.pq| == 1 && s.pq[0].item == start
      decreases all - s.visited, |s.pq|
    {
      var current, rest, k := Dequeue(pq);
      if current == dest {
        path := RebuildPath(s.parent, dest, rank);
        FoundTilePath(m, start, dest, s, rank, time, k, path);
        pq := rest;
        return;
      }
      var step;
      step, rank, time := VisitTile(m.obstacles, b, Offsets4, start, dest, h, s, rank, time, current, rest, k);
      s := step.value;
      pq := s.pq;
    }
    ExhaustedMeansNoMapPath(m, start, dest, s, rank, time);
    path := [];
  }

  /** The MonoBehaviour `Pathfinder` of AStarPathfinder.cs: its one field is the priority
      queue, created by Start and reused by every FindPath. */
  class Pathfinder {
    var pq: seq<QEntry<GridTile>>

    /** Start(): a fresh, empty queue. */
    constructor ()
      ensures pq == []
    {
      pq := [];
    }

    /** FindPath(start, dest, map): A* from start to dest over the free tiles of the map,
        moving along the axes; the tiles of the path from start to dest, or an empty list
        when dest cannot be reached. The queue is emptied first and keeps what the search
        leaves in it. Obstacles are looked up y first (see ObstacleAtAsWritten for what
        the source reads). */
    method FindPath(start: GridTile, dest: GridTile, m: Map) returns (path: seq<GridTile>)
      requires WellFormedMap(m)
      modifies this
      ensures path != [] ==> path[0] == start && path[|path| - 1] == dest && IsMapPath(m, path)
      ensures start == dest ==> path == [dest]
      ensures path == [] ==> pq == [] && Unreachable(m, start, dest)
    {
      pq := [];
      path, pq := SearchTiles(start, dest, m, pq);
    }
  }
}
