/** A* over a raw obstacle grid with 8 neighbours, bounded by a rectangle, and the
    rebuilding of its path as a chain of fresh nodes and edges
    (Assets/Scripts/Pathfinder.cs, FindPath(GridTile, GridTile, Boundaries, bool[][]) and
    RebuildPath(Dictionary<GridTile, GridTile>, Dictionary<GridTile, float>, GridTile)). */
module GridSearch {
  import opened Wrappers
  import opened GridTiles
  import opened HpaTypes
  import opened PriorityQueue
  import opened NodeSearch

  /** One entry of the `neighbours` table: a tile offset and the cost of that move. */
  datatype Offset = Offset(dx: int, dy: int, weight: real)

  /** The `neighbours` table, in its order: four straight moves, then four diagonals. */
  const Neighbours: seq<Offset> := [
    Offset(-1, 0, 1.0), Offset(1, 0, 1.0), Offset(0, -1, 1.0), Offset(0, 1, 1.0),
    Offset(-1, -1, SQRT2), Offset(-1, 1, SQRT2), Offset(1, 1, SQRT2), Offset(1, -1, SQRT2)]

  function Shift(t: GridTile, o: Offset): GridTile
  {
    GridTile(t.x + o.dx, t.y + o.dy)
  }

  /** b is one of the 8 tiles around a. */
  predicate IsStep(a: GridTile, b: GridTile)
  {
    -1 <= b.x - a.x <= 1 && -1 <= b.y - a.y <= 1 && (a.x != b.x || a.y != b.y)
  }

  /** The cost of a move: 1 along an axis, SQRT2 diagonally. */
  function StepWeight(a: GridTile, b: GridTile): real
  {
    if a.x == b.x || a.y == b.y then 1.0 else SQRT2
  }

  /** The table holds exactly the 8 moves, each once, with its cost. */
  lemma NeighboursAreTheEightSteps(t: GridTile)
    ensures |Neighbours| == 8
    ensures forall k :: 0 <= k < 8 ==>
              IsStep(t, Shift(t, Neighbours[k])) && Neighbours[k].weight == StepWeight(t, Shift(t, Neighbours[k]))
    ensures forall k :: 0 <= k < 8 ==> (Neighbours[k].weight == 1.0 <==> k < 4)
    ensures forall u :: IsStep(t, u) ==> exists k :: 0 <= k < 8 && Shift(t, Neighbours[k]) == u
    ensures forall i, j :: 0 <= i < j < 8 ==> Neighbours[i] != Neighbours[j]
  {
    forall u | IsStep(t, u) ensures exists k :: 0 <= k < 8 && Shift(t, Neighbours[k]) == u {
      var dx, dy := u.x - t.x, u.y - t.y;
      var k := if dy == 0 then (if dx == -1 then 0 else 1)
               else if dx == 0 then (if dy == -1 then 2 else 3)
               else if dx == -1 then (if dy == -1 then 4 else 5)
               else (if dy == 1 then 6 else 7);
      assert Shift(t, Neighbours[k]) == u;
    }
  }

  /** `obstacles[y][x]`, or the IndexOutOfRangeException it throws outside the arrays. */
  function ObstacleAt(obstacles: seq<seq<bool>>, t: GridTile): (r: Result<bool>)
    ensures r.Success? <==> 0 <= t.y < |obstacles| && 0 <= t.x < |obstacles[t.y]|
    ensures r.Success? ==> r.value == obstacles[t.y][t.x]
    ensures r.Failure? ==> r.error == IndexOutOfRange
  {
    if 0 <= t.y < |obstacles| && 0 <= t.x < |obstacles[t.y]| then Success(obstacles[t.y][t.x])
    else Failure(IndexOutOfRange)
  }

  /** Every tile of the rectangle can be looked up in the obstacle arrays. */
  ghost predicate BoundsInGrid(b: Boundaries, obstacles: seq<seq<bool>>)
  {
    forall t :: Contains(b, t) ==> ObstacleAt(obstacles, t).Success?
  }

  /** The search's mutable state: Visited, Parent, gScore and the priority queue. */
  datatype GSearch = GSearch(
    visited: set<GridTile>,
    parent: map<GridTile, GridTile>,
    g: map<GridTile, real>,
    pq: seq<QEntry<GridTile>>)

  /** Relaxing offset `o` from `cur` can no longer change anything. */
  predicate Settled(obstacles: seq<seq<bool>>, b: Boundaries, s: GSearch, cur: GridTile, o: Offset)
    requires cur in s.g
  {
    var n := Shift(cur, o);
    IsOutOfGrid(n, b) || ObstacleAt(obstacles, n) == Success(true) || n in s.visited ||
    (n in s.g && s.g[cur] + o.weight >= s.g[n])
  }

  /** One iteration of the loop over `neighbours`; Failure is the exception of the
      obstacle lookup. */
  function RelaxOffset(obstacles: seq<seq<bool>>, b: Boundaries, s: GSearch, cur: GridTile, o: Offset,
                       dest: GridTile, h: Heuristic): (r: Result<GSearch>)
    requires cur in s.g && cur in s.visited
    ensures r.Failure? <==> !IsOutOfGrid(Shift(cur, o), b) && ObstacleAt(obstacles, Shift(cur, o)).Failure?
    ensures r.Failure? ==> r.error == IndexOutOfRange
    ensures r.Success? ==> r.value.visited == s.visited && cur in r.value.g && Settled(obstacles, b, r.value, cur, o)
    ensures r.Success? && Settled(obstacles, b, s, cur, o) ==> r.value == s
    ensures r.Success? && !Settled(obstacles, b, s, cur, o) ==>
              var n := Shift(cur, o);
              var t := s.g[cur] + o.weight;
              && !IsOutOfGrid(n, b) && ObstacleAt(obstacles, n) == Success(false) && n !in s.visited
              && (n in s.g ==> t < s.g[n])
              && r.value.parent == s.parent[n := cur] && r.value.g == s.g[n := t]
              && r.value.pq == s.pq + [QEntry(n, t + h(n, dest))]
  {
    var n := Shift(cur, o);
    if IsOutOfGrid(n, b) then Success(s)
    else
      match ObstacleAt(obstacles, n)
      case Failure(err) => Failure(err)
      case Success(blocked) =>
        if blocked || n in s.visited then Success(s)
        else
          var t := s.g[cur] + o.weight;
          if n in s.g && t >= s.g[n] then Success(s)
          else Success(s.(parent := s.parent[n := cur], g := s.g[n := t], pq := s.pq + [QEntry(n, t + h(n, dest))]))
  }

  /** s2 is a later state than s: Visited only grows, gScore only decreases, and the
      gScore of a visited tile is final. */
  predicate Later(s: GSearch, s2: GSearch)
  {
    s.visited <= s2.visited &&
    (forall p :: p in s.g ==> p in s2.g && s2.g[p] <= s.g[p]) &&
    (forall p :: p in s.visited && p in s.g ==> s2.g[p] == s.g[p])
  }

  lemma RelaxIsLater(obstacles: seq<seq<bool>>, b: Boundaries, s: GSearch, cur: GridTile, o: Offset,
                     dest: GridTile, h: Heuristic)
    requires cur in s.g && cur in s.visited
    requires RelaxOffset(obstacles, b, s, cur, o, dest, h).Success?
    ensures Later(s, RelaxOffset(obstacles, b, s, cur, o, dest, h).value)
  {
  }

  lemma SettledStaysSettled(obstacles: seq<seq<bool>>, b: Boundaries, s: GSearch, s2: GSearch, c: GridTile, o: Offset)
    requires c in s.visited && c in s.g && Later(s, s2) && Settled(obstacles, b, s, c, o)
    ensures c in s2.g && Settled(obstacles, b, s2, c, o)
  {
  }

  /** The index of the first move of the table that shifts a tile by (dx, dy). */
  function FindMove(nbrs: seq<Offset>, dx: int, dy: int): (r: Option<nat>)
    ensures r.Some? ==> r.value < |nbrs| && nbrs[r.value].dx == dx && nbrs[r.value].dy == dy
    ensures r.Some? ==> forall k :: 0 <= k < r.value ==> nbrs[k].dx != dx || nbrs[k].dy != dy
    ensures r.None? ==> forall k :: 0 <= k < |nbrs| ==> nbrs[k].dx != dx || nbrs[k].dy != dy
  {
    if nbrs == [] then None
    else if nbrs[0].dx == dx && nbrs[0].dy == dy then Some(0)
    else match FindMove(nbrs[1..], dx, dy)
      case None => None
      case Some(k) => Some(k + 1)
  }

  /** Some move of the table leads from p to q. */
  predicate MoveIn(nbrs: seq<Offset>, p: GridTile, q: GridTile)
  {
    FindMove(nbrs, q.x - p.x, q.y - p.y).Some?
  }

  /** No two moves of the table shift by the same amount. */
  predicate DistinctMoves(nbrs: seq<Offset>)
  {
    forall i, j :: 0 <= i < j < |nbrs| ==> nbrs[i].dx != nbrs[j].dx || nbrs[i].dy != nbrs[j].dy
  }

  /** In a table of distinct moves, move j is the one found for its own shift. */
  lemma FindOwnMove(nbrs: seq<Offset>, j: nat)
    requires DistinctMoves(nbrs) && j < |nbrs|
    ensures FindMove(nbrs, nbrs[j].dx, nbrs[j].dy) == Some(j)
  {
  }

  /** A move of the table leads from p to q and costs the difference of their gScores. */
  predicate CostedMove(nbrs: seq<Offset>, g: map<GridTile, real>, p: GridTile, q: GridTile)
    requires p in g && q in g
  {
    var m := FindMove(nbrs, q.x - p.x, q.y - p.y);
    m.Some? && g[q] == g[p] + nbrs[m.value].weight
  }

  /** The moves of the `neighbours` table are exactly the 8 steps, at their cost. */
  lemma NeighbourMoves(g: map<GridTile, real>, p: GridTile, q: GridTile)
    ensures DistinctMoves(Neighbours)
    ensures MoveIn(Neighbours, p, q) <==> IsStep(p, q)
    ensures p in g && q in g && CostedMove(Neighbours, g, p, q) ==> IsStep(p, q) && g[q] == g[p] + StepWeight(p, q)
  {
    NeighboursAreTheEightSteps(p);
  }

  /** Every move out of every visited tile, except those of `cur` from index j on, is settled. */
  predicate VisitedSettled(obstacles: seq<seq<bool>>, b: Boundaries, nbrs: seq<Offset>, s: GSearch, cur: GridTile, j: nat)
  {
    forall p, k {:trigger Shift(p, nbrs[k])} ::
      p in s.visited && p in s.g && 0 <= k < |nbrs| && (p != cur || k < j) ==> Settled(obstacles, b, s, p, nbrs[k])
  }

  /** Once every move of `cur` is settled, which tile is `cur` no longer matters. */
  lemma VisitedSettledAny(obstacles: seq<seq<bool>>, b: Boundaries, nbrs: seq<Offset>, s: GSearch, c1: GridTile, c2: GridTile)
    requires VisitedSettled(obstacles, b, nbrs, s, c1, |nbrs|)
    ensures VisitedSettled(obstacles, b, nbrs, s, c2, |nbrs|)
  {
    forall p, k | p in s.visited && p in s.g && 0 <= k < |nbrs|
      ensures Settled(obstacles, b, s, p, nbrs[k])
    {
      var n := Shift(p, nbrs[k]);
    }
  }

  lemma VisitedSettledLater(obstacles: seq<seq<bool>>, b: Boundaries, nbrs: seq<Offset>, s: GSearch, s2: GSearch,
                            cur: GridTile, j: nat)
    requires VisitedSettled(obstacles, b, nbrs, s, cur, j) && Later(s, s2) && s2.visited == s.visited
    requires s.visited <= s.g.Keys
    ensures VisitedSettled(obstacles, b, nbrs, s2, cur, j)
  {
    forall p, k | p in s2.visited && p in s2.g && 0 <= k < |nbrs| && (p != cur || k < j)
      ensures Settled(obstacles, b, s2, p, nbrs[k])
    {
      SettledStaysSettled(obstacles, b, s, s2, p, nbrs[k]);
    }
  }

  /** Parent can be followed back without a cycle, and each Parent link is a move of the
      table whose cost is the difference of the two gScores, onto a free tile in the rectangle. */
  predicate ParentOk(obstacles: seq<seq<bool>>, b: Boundaries, nbrs: seq<Offset>, parent: map<GridTile, GridTile>,
                     g: map<GridTile, real>, rank: map<GridTile, nat>, time: nat)
  {
    (forall p :: p in rank ==> rank[p] < time) &&
    forall q {:trigger parent[q]} :: q in parent ==>
      parent[q] in rank && (q in rank ==> rank[parent[q]] < rank[q]) &&
      q in g && parent[q] in g && CostedMove(nbrs, g, parent[q], q) &&
      !IsOutOfGrid(q, b) && ObstacleAt(obstacles, q) == Success(false)
  }

  /** The loop invariant of the grid searches. Besides the Parent links: every tile with a
      gScore is visited or waits in the queue, and dest is never visited. */
  predicate GridInv(obstacles: seq<seq<bool>>, b: Boundaries, nbrs: seq<Offset>, start: GridTile, dest: GridTile,
                    s: GSearch, rank: map<GridTile, nat>, time: nat)
  {
    && ParentOk(obstacles, b, nbrs, s.parent, s.g, rank, time)
    && rank.Keys == s.visited
    && start in s.g && s.g[start] == 0.0 && start !in s.parent && dest !in s.visited
    && (s.parent != map[] ==> start in s.visited)
    && (start == dest ==> s.parent == map[])
    && (forall p :: p in s.visited ==> p in s.g && (p == start || p in s.parent))
    && (forall k :: 0 <= k < |s.pq| ==> s.pq[k].item in s.g && (s.pq[k].item == start || s.pq[k].item in s.parent))
    && (forall t :: t in s.g ==> t in s.visited || t in Items(s.pq))
  }

  /** Setting the Parent of a free, unvisited tile one move of the table away from a
      visited tile to that tile, with the gScore of that move, keeps the Parent links sound. */
  lemma UpdateKeepsParentOk(obstacles: seq<seq<bool>>, b: Boundaries, nbrs: seq<Offset>, parent: map<GridTile, GridTile>,
                            g: map<GridTile, real>, rank: map<GridTile, nat>, time: nat, cur: GridTile, j: nat, t: real)
    requires ParentOk(obstacles, b, nbrs, parent, g, rank, time) && cur in rank && cur in g
    requires DistinctMoves(nbrs) && j < |nbrs| && t == g[cur] + nbrs[j].weight
    requires var n := Shift(cur, nbrs[j]);
             n !in rank && !IsOutOfGrid(n, b) && ObstacleAt(obstacles, n) == Success(false)
    ensures var n := Shift(cur, nbrs[j]);
            ParentOk(obstacles, b, nbrs, parent[n := cur], g[n := t], rank, time)
  {
    var n := Shift(cur, nbrs[j]);
    var parent', g' := parent[n := cur], g[n := t];
    FindOwnMove(nbrs, j);
    assert CostedMove(nbrs, g', cur, n);
    forall q | q in parent'
      ensures parent'[q] in rank && (q in rank ==> rank[parent'[q]] < rank[q])
      ensures q in g' && parent'[q] in g' && CostedMove(nbrs, g', parent'[q], q)
      ensures !IsOutOfGrid(q, b) && ObstacleAt(obstacles, q) == Success(false)
    {
      if q != n {
        var p := parent[q];
        assert p in rank && p != n;
        assert g'[q] == g[q] && g'[p] == g[p];
        assert CostedMove(nbrs, g, p, q);
      }
    }
  }

  /** Recording a better gScore for a free, unvisited tile one move of the table away from
      a visited tile, with that tile as its Parent, and enqueuing it keeps the invariant. */
  lemma UpdateKeepsInv(obstacles: seq<seq<bool>>, b: Boundaries, nbrs: seq<Offset>, start: GridTile, dest: GridTile,
                       s: GSearch, rank: map<GridTile, nat>, time: nat, cur: GridTile, j: nat, r1: GSearch)
    requires GridInv(obstacles, b, nbrs, start, dest, s, rank, time) && cur in s.g && cur in s.visited
    requires DistinctMoves(nbrs) && j < |nbrs|
    requires var n := Shift(cur, nbrs[j]);
             && n !in s.visited && !IsOutOfGrid(n, b) && ObstacleAt(obstacles, n) == Success(false)
             && r1.visited == s.visited && r1.parent == s.parent[n := cur]
             && r1.g == s.g[n := s.g[cur] + nbrs[j].weight]
             && exists pri :: r1.pq == s.pq + [QEntry(n, pri)]
    ensures GridInv(obstacles, b, nbrs, start, dest, r1, rank, time)
  {
    var n := Shift(cur, nbrs[j]);
    assert start in s.visited;
    UpdateKeepsParentOk(obstacles, b, nbrs, s.parent, s.g, rank, time, cur, j, r1.g[n]);
    var pri :| r1.pq == s.pq + [QEntry(n, pri)];
    ItemsAppend(s.pq, QEntry(n, pri));
  }

  /** One relaxation keeps the invariant. */
  lemma RelaxKeepsInv(obstacles: seq<seq<bool>>, b: Boundaries, nbrs: seq<Offset>, start: GridTile, dest: GridTile,
                      h: Heuristic, s: GSearch, rank: map<GridTile, nat>, time: nat, cur: GridTile, j: nat, r1: GSearch)
    requires DistinctMoves(nbrs) && j < |nbrs|
    requires GridInv(obstacles, b, nbrs, start, dest, s, rank, time) && cur in s.g && cur in s.visited
    requires RelaxOffset(obstacles, b, s, cur, nbrs[j], dest, h) == Success(r1)
    ensures GridInv(obstacles, b, nbrs, start, dest, r1, rank, time)
  {
    if !Settled(obstacles, b, s, cur, nbrs[j]) {
      var n := Shift(cur, nbrs[j]);
      assert r1.pq == s.pq + [QEntry(n, s.g[cur] + nbrs[j].weight + h(n, dest))];
      UpdateKeepsInv(obstacles, b, nbrs, start, dest, s, rank, time, cur, j, r1);
    }
  }

  /** One relaxation settles move j of `cur` and unsettles nothing; when every move is
      settled already it changes nothing. */
  lemma RelaxKeepsSettled(obstacles: seq<seq<bool>>, b: Boundaries, nbrs: seq<Offset>, dest: GridTile,
                          h: Heuristic, s: GSearch, cur: GridTile, j: nat, again: bool)
    requires cur in s.g && cur in s.visited && s.visited <= s.g.Keys
    requires VisitedSettled(obstacles, b, nbrs, s, cur, j) && j < |nbrs|
    requires again ==> VisitedSettled(obstacles, b, nbrs, s, cur, |nbrs|)
    requires RelaxOffset(obstacles, b, s, cur, nbrs[j], dest, h).Success?
    ensures var r1 := RelaxOffset(obstacles, b, s, cur, nbrs[j], dest, h).value;
            && VisitedSettled(obstacles, b, nbrs, r1, cur, j + 1)
            && r1.visited == s.visited
            && (again ==> r1 == s)
  {
    var o := nbrs[j];
    var r1 := RelaxOffset(obstacles, b, s, cur, o, dest, h).value;
    RelaxIsLater(obstacles, b, s, cur, o, dest, h);
    VisitedSettledLater(obstacles, b, nbrs, s, r1, cur, j);
    if again {
      assert Settled(obstacles, b, s, cur, o);
    }
    forall p, k | p in r1.visited && p in r1.g && 0 <= k < |nbrs| && (p != cur || k < j + 1)
      ensures Settled(obstacles, b, r1, p, nbrs[k])
    {
      if p != cur || k < j {
        assert Shift(p, nbrs[k]) == Shift(p, nbrs[k]);
      }
    }
  }

  /** One pass of the loop over the table: relax move j out of `cur`. */
  method RelaxMove(obstacles: seq<seq<bool>>, b: Boundaries, nbrs: seq<Offset>, start: GridTile, dest: GridTile,
                   h: Heuristic, t: GSearch, ghost rank: map<GridTile, nat>, ghost time: nat, cur: GridTile, j: nat,
                   ghost again: bool)
    returns (step: Result<GSearch>)
    requires DistinctMoves(nbrs) && j < |nbrs|
    requires GridInv(obstacles, b, nbrs, start, dest, t, rank, time) && cur in t.visited
    requires VisitedSettled(obstacles, b, nbrs, t, cur, j)
    requires again ==> VisitedSettled(obstacles, b, nbrs, t, cur, |nbrs|)
    ensures step.Failure? ==> step.error == IndexOutOfRange && !BoundsInGrid(b, obstacles)
    ensures step.Success? ==> && GridInv(obstacles, b, nbrs, start, dest, step.value, rank, time)
                              && VisitedSettled(obstacles, b, nbrs, step.value, cur, j + 1)
                              && step.value.visited == t.visited
    ensures step.Success? && again ==> step.value == t
  {
    step := RelaxOffset(obstacles, b, t, cur, nbrs[j], dest, h);
    if step.Failure? {
      assert Contains(b, Shift(cur, nbrs[j]));
      return;
    }
    RelaxKeepsInv(obstacles, b, nbrs, start, dest, h, t, rank, time, cur, j, step.value);
    RelaxKeepsSettled(obstacles, b, nbrs, dest, h, t, cur, j, again);
  }

  /** The loop over the table for the tile just visited. */
  method ExpandTile(obstacles: seq<seq<bool>>, b: Boundaries, nbrs: seq<Offset>, start: GridTile, dest: GridTile,
                    h: Heuristic, s: GSearch, ghost rank: map<GridTile, nat>, ghost time: nat, cur: GridTile,
                    ghost again: bool)
    returns (r: Result<GSearch>)
    requires DistinctMoves(nbrs)
    requires GridInv(obstacles, b, nbrs, start, dest, s, rank, time) && cur in s.visited
    requires VisitedSettled(obstacles, b, nbrs, s, cur, 0)
    requires again ==> VisitedSettled(obstacles, b, nbrs, s, cur, |nbrs|)
    ensures r.Failure? ==> r.error == IndexOutOfRange && !BoundsInGrid(b, obstacles)
    ensures r.Success? ==> GridInv(obstacles, b, nbrs, start, dest, r.value, rank, time) &&
                           VisitedSettled(obstacles, b, nbrs, r.value, cur, |nbrs|) &&
                           r.value.visited == s.visited
    ensures r.Success? && again ==> r.value.pq == s.pq
  {
    var t := s;
    var j := 0;
    while j < |nbrs|
      invariant 0 <= j <= |nbrs|
      invariant GridInv(obstacles, b, nbrs, start, dest, t, rank, time) && t.visited == s.visited
      invariant VisitedSettled(obstacles, b, nbrs, t, cur, j)
      invariant again ==> t == s
    {
      var step := RelaxMove(obstacles, b, nbrs, start, dest, h, t, rank, time, cur, j, again);
      if step.Failure? {
        return Failure(step.error);
      }
      t := step.value;
      j := j + 1;
    }
    r := Success(t);
  }

  /** Every tile with a gScore stays visited or queued when entry k is dequeued and visited. */
  lemma VisitKeepsQueued(s: GSearch, k: nat)
    requires k < |s.pq|
    requires forall t :: t in s.g ==> t in s.visited || t in Items(s.pq)
    ensures forall t :: t in s.g ==> t in s.visited + {s.pq[k].item} || t in Items(RemoveAt(s.pq, k))
  {
    ItemsRemoveAt(s.pq, k);
  }

  /** Visiting a new tile gives it the next rank. */
  lemma VisitKeepsParentOk(obstacles: seq<seq<bool>>, b: Boundaries, nbrs: seq<Offset>, parent: map<GridTile, GridTile>,
                           g: map<GridTile, real>, rank: map<GridTile, nat>, time: nat, cur: GridTile)
    requires ParentOk(obstacles, b, nbrs, parent, g, rank, time) && cur !in rank
    ensures ParentOk(obstacles, b, nbrs, parent, g, rank[cur := time], time + 1)
  {
  }

  /** Adding `cur` to Visited leaves every earlier move settled; if `cur` was already
      visited, nothing changes at all. */
  lemma VisitKeepsSettled(obstacles: seq<seq<bool>>, b: Boundaries, nbrs: seq<Offset>, s: GSearch, s2: GSearch,
                          cur: GridTile)
    requires VisitedSettled(obstacles, b, nbrs, s, cur, |nbrs|) && Later(s, s2)
    requires s.visited <= s.g.Keys && s2.visited == s.visited + {cur}
    ensures VisitedSettled(obstacles, b, nbrs, s2, cur, 0)
    ensures cur in s.visited ==> VisitedSettled(obstacles, b, nbrs, s2, cur, |nbrs|)
  {
    forall p, k | p in s2.visited && p in s2.g && 0 <= k < |nbrs| && (p != cur || cur in s.visited)
      ensures Settled(obstacles, b, s2, p, nbrs[k])
    {
      SettledStaysSettled(obstacles, b, s, s2, p, nbrs[k]);
    }
  }

  /** Dequeuing entry k and marking its tile visited keeps the invariant, given the
      ranks that come with the new Visited set. */
  lemma VisitKeepsInv(obstacles: seq<seq<bool>>, b: Boundaries, nbrs: seq<Offset>, start: GridTile, dest: GridTile,
                      s: GSearch, rank: map<GridTile, nat>, time: nat, k: nat,
                      rank': map<GridTile, nat>, time': nat)
    requires GridInv(obstacles, b, nbrs, start, dest, s, rank, time)
    requires k < |s.pq| && s.pq[k].item != dest
    requires ParentOk(obstacles, b, nbrs, s.parent, s.g, rank', time') && rank'.Keys == s.visited + {s.pq[k].item}
    ensures GridInv(obstacles, b, nbrs, start, dest, s.(pq := RemoveAt(s.pq, k), visited := s.visited + {s.pq[k].item}),
                    rank', time')
  {
    VisitKeepsQueued(s, k);
  }

  lemma VisitStep(obstacles: seq<seq<bool>>, b: Boundaries, nbrs: seq<Offset>, start: GridTile, dest: GridTile,
                  s: GSearch, rank: map<GridTile, nat>, time: nat, k: nat)
    requires GridInv(obstacles, b, nbrs, start, dest, s, rank, time)
    requires VisitedSettled(obstacles, b, nbrs, s, start, |nbrs|)
    requires k < |s.pq| && s.pq[k].item != dest
    ensures var cur := s.pq[k].item;
            var rank' := if cur in s.visited then rank else rank[cur := time];
            var time' := if cur in s.visited then time else time + 1;
            var s' := s.(pq := RemoveAt(s.pq, k), visited := s.visited + {cur});
            && GridInv(obstacles, b, nbrs, start, dest, s', rank', time')
            && VisitedSettled(obstacles, b, nbrs, s', cur, 0)
            && (cur in s.visited ==> VisitedSettled(obstacles, b, nbrs, s', cur, |nbrs|))
  {
    var cur := s.pq[k].item;
    var rank' := if cur in s.visited then rank else rank[cur := time];
    var time' := if cur in s.visited then time else time + 1;
    var s' := s.(pq := RemoveAt(s.pq, k), visited := s.visited + {cur});
    if cur !in s.visited {
      VisitKeepsParentOk(obstacles, b, nbrs, s.parent, s.g, rank, time, cur);
    }
    VisitKeepsInv(obstacles, b, nbrs, start, dest, s, rank, time, k, rank', time');
    assert Later(s, s');
    VisitedSettledAny(obstacles, b, nbrs, s, start, cur);
    VisitKeepsSettled(obstacles, b, nbrs, s, s', cur);
  }

  predicate WalkStepAt(obstacles: seq<seq<bool>>, b: Boundaries, nbrs: seq<Offset>, w: seq<GridTile>, i: nat)
    requires i + 1 < |w|
  {
    MoveIn(nbrs, w[i], w[i + 1]) && !IsOutOfGrid(w[i + 1], b) && ObstacleAt(obstacles, w[i + 1]) == Success(false)
  }

  predicate IsWalk(obstacles: seq<seq<bool>>, b: Boundaries, nbrs: seq<Offset>, w: seq<GridTile>)
  {
    |w| > 0 && forall i :: 0 <= i < |w| - 1 ==> WalkStepAt(obstacles, b, nbrs, w, i)
  }

  /** No free move leaves V. */
  predicate Closed(obstacles: seq<seq<bool>>, b: Boundaries, nbrs: seq<Offset>, V: set<GridTile>)
  {
    forall p, k {:trigger Shift(p, nbrs[k])} :: p in V && 0 <= k < |nbrs| ==>
      IsOutOfGrid(Shift(p, nbrs[k]), b) || ObstacleAt(obstacles, Shift(p, nbrs[k])) == Success(true) ||
      Shift(p, nbrs[k]) in V
  }

  /** A walk that starts in a closed set stays in it. */
  lemma {:induction false} WalkStaysInClosed(obstacles: seq<seq<bool>>, b: Boundaries, nbrs: seq<Offset>,
                                             V: set<GridTile>, w: seq<GridTile>)
    requires Closed(obstacles, b, nbrs, V) && IsWalk(obstacles, b, nbrs, w) && w[0] in V
    ensures w[|w| - 1] in V
  {
    if |w| > 1 {
      var w' := w[..|w| - 1];
      assert IsWalk(obstacles, b, nbrs, w') by {
        forall i | 0 <= i < |w'| - 1 ensures WalkStepAt(obstacles, b, nbrs, w', i) {
          assert WalkStepAt(obstacles, b, nbrs, w, i);
        }
      }
      WalkStaysInClosed(obstacles, b, nbrs, V, w');
      assert WalkStepAt(obstacles, b, nbrs, w, |w| - 2);
      var p, q := w[|w| - 2], w[|w| - 1];
      var m := FindMove(nbrs, q.x - p.x, q.y - p.y).value;
      assert Shift(p, nbrs[m]) == q;
    }
  }

  /** When the queue runs dry, the visited tiles are closed under free moves, start among
      them and dest not: no walk leads from start to dest. */
  lemma ExhaustedMeansUnreachable(obstacles: seq<seq<bool>>, b: Boundaries, nbrs: seq<Offset>, start: GridTile,
                                  dest: GridTile, s: GSearch, rank: map<GridTile, nat>, time: nat)
    requires GridInv(obstacles, b, nbrs, start, dest, s, rank, time)
    requires VisitedSettled(obstacles, b, nbrs, s, start, |nbrs|) && s.pq == []
    ensures forall w :: IsWalk(obstacles, b, nbrs, w) && w[0] == start ==> w[|w| - 1] != dest
  {
    forall w | IsWalk(obstacles, b, nbrs, w) && w[0] == start
      ensures w[|w| - 1] != dest
    {
      WalkStaysInClosed(obstacles, b, nbrs, s.visited, w);
    }
  }

  /** The tiles of a column segment. */
  function ColumnTiles(x: int, ylo: int, yhi: int): (r: set<GridTile>)
    ensures forall t :: t in r <==> t.x == x && ylo <= t.y <= yhi
    decreases yhi - ylo
  {
    if ylo > yhi then {} else ColumnTiles(x, ylo, yhi - 1) + {GridTile(x, yhi)}
  }

  /** The tiles of a rectangle. */
  function RectTiles(b: Boundaries): (r: set<GridTile>)
    ensures forall t :: t in r <==> Contains(b, t)
    decreases b.max.x - b.min.x
  {
    if b.min.x > b.max.x then {}
    else RectTiles(b.(max := GridTile(b.max.x - 1, b.max.y))) + ColumnTiles(b.max.x, b.min.y, b.max.y)
  }

  /** The rebuilt path: fresh nodes in creation order (nodes[0] at dest, nodes[i + 1] at the
      Parent of nodes[i]'s tile) and the edges between them in path order; an edge's start
      and end are indices into nodes. */
  datatype GridPath = GridPath(nodes: seq<Node>, edges: seq<Edge>)

  /** The tile of node i has a Parent, the tile of node i + 1. */
  predicate LinkAt(parent: map<GridTile, GridTile>, nodes: seq<Node>, i: nat)
    requires i + 1 < |nodes|
  {
    nodes[i].pos in parent && parent[nodes[i].pos] == nodes[i + 1].pos
  }

  /** The i-th edge created leads from node i + 1 to node i and weighs the difference of their costs. */
  predicate CreatedEdgeAt(cost: map<GridTile, real>, nodes: seq<Node>, created: seq<Edge>, i: nat)
    requires i < |created| && i + 1 < |nodes|
  {
    && nodes[i].pos in cost && nodes[i + 1].pos in cost
    && created[i] == Edge(i + 1, i, INTER, cost[nodes[i].pos] - cost[nodes[i + 1].pos], [])
  }

  /** Node i + 1 holds the i-th edge created as its only edge. */
  predicate CreatedNodeAt(nodes: seq<Node>, created: seq<Edge>, i: nat)
    requires i < |created| && i + 1 < |nodes|
  {
    nodes[i + 1] == Node(nodes[i + 1].pos, [created[i]], None)
  }

  /** What RebuildPath builds from Parent and the costs, starting at dest: nodes[0] is at dest,
      each further node at the Parent of the one before, the last one's tile has no Parent, and
      the path lists the created edges in reverse, so that it leads from the root to dest. */
  predicate RebuiltFrom(gp: GridPath, parent: map<GridTile, GridTile>, cost: map<GridTile, real>, dest: GridTile)
  {
    var n := |gp.edges|;
    var created := Reverse(gp.edges);
    && n > 0 && |gp.nodes| == n + 1 && gp.nodes[0] == Node(dest, [], None)
    && (forall i :: 0 <= i < n ==> LinkAt(parent, gp.nodes, i))
    && gp.nodes[n].pos !in parent
    && (forall i :: 0 <= i < n ==> CreatedEdgeAt(cost, gp.nodes, created, i))
    && (forall i :: 0 <= i < n ==> CreatedNodeAt(gp.nodes, created, i))
  }

  /** Weights that are differences of consecutive values sum to the difference of the ends. */
  lemma {:induction false} Telescope(c: seq<Edge>, w: seq<real>)
    requires |w| == |c| + 1
    requires forall i :: 0 <= i < |c| ==> c[i].weight == w[i + 1] - w[i]
    ensures SumWeights(c) == w[|c|] - w[0]
    decreases |c|
  {
    if c != [] {
      var n := |c|;
      Telescope(c[..n - 1], w[..n]);
    }
  }

  /** The cost of each node's tile, 0 where there is none. */
  function CostsOf(cost: map<GridTile, real>, nodes: seq<Node>): (r: seq<real>)
    ensures |r| == |nodes|
    ensures forall i :: 0 <= i < |nodes| ==> r[i] == (if nodes[i].pos in cost then cost[nodes[i].pos] else 0.0)
  {
    if nodes == [] then []
    else
      var last := nodes[|nodes| - 1].pos;
      CostsOf(cost, nodes[..|nodes| - 1]) + [if last in cost then cost[last] else 0.0]
  }

  /** The edge weights of a rebuilt path sum to the cost of dest minus the cost of its root. */
  lemma RebuiltWeightsSum(gp: GridPath, parent: map<GridTile, GridTile>, cost: map<GridTile, real>, dest: GridTile)
    requires RebuiltFrom(gp, parent, cost, dest)
    ensures gp.nodes[|gp.edges|].pos in cost && dest in cost
    ensures SumWeights(gp.edges) == cost[dest] - cost[gp.nodes[|gp.edges|].pos]
  {
    var n := |gp.edges|;
    var created := Reverse(gp.edges);
    assert CreatedEdgeAt(cost, gp.nodes, created, 0);
    assert CreatedEdgeAt(cost, gp.nodes, created, n - 1);
    var w := Reverse(CostsOf(cost, gp.nodes));
    forall k | 0 <= k < n
      ensures gp.edges[k].weight == w[k + 1] - w[k]
    {
      assert gp.edges[k] == created[n - 1 - k];
      assert CreatedEdgeAt(cost, gp.nodes, created, n - 1 - k);
    }
    Telescope(gp.edges, w);
  }

  /** The loop facts of RebuildPath, over the nodes and the edges in creation order. */
  predicate CreatedOk(parent: map<GridTile, GridTile>, cost: map<GridTile, real>, dest: GridTile,
                      nodes: seq<Node>, created: seq<Edge>)
  {
    && |nodes| == |created| + 1 && nodes[0] == Node(dest, [], None)
    && (forall i :: 0 <= i < |created| ==> LinkAt(parent, nodes, i))
    && (forall i :: 0 <= i < |created| ==> CreatedEdgeAt(cost, nodes, created, i))
    && (forall i :: 0 <= i < |created| ==> CreatedNodeAt(nodes, created, i))
  }

  /** One more step of RebuildPath keeps the loop facts. */
  lemma CreatedOkExtend(parent: map<GridTile, GridTile>, cost: map<GridTile, real>, dest: GridTile,
                        nodes: seq<Node>, created: seq<Edge>, previous: GridTile)
    requires CreatedOk(parent, cost, dest, nodes, created)
    requires nodes[|created|].pos in parent && parent[nodes[|created|].pos] == previous
    requires nodes[|created|].pos in cost && previous in cost
    ensures var e := Edge(|nodes|, |nodes| - 1, INTER, cost[nodes[|created|].pos] - cost[previous], []);
            CreatedOk(parent, cost, dest, nodes + [Node(previous, [e], None)], created + [e])
  {
    var e := Edge(|nodes|, |nodes| - 1, INTER, cost[nodes[|created|].pos] - cost[previous], []);
    var nodes' := nodes + [Node(previous, [e], None)];
    var created' := created + [e];
    forall i | 0 <= i < |created'|
      ensures LinkAt(parent, nodes', i) && CreatedEdgeAt(cost, nodes', created', i) && CreatedNodeAt(nodes', created', i)
    {
      if i < |created| {
        assert LinkAt(parent, nodes, i) && CreatedEdgeAt(cost, nodes, created, i) && CreatedNodeAt(nodes, created, i);
      }
    }
  }

  /** Once the last tile has no Parent, the loop facts describe a rebuilt path. */
  lemma CreatedOkRebuilt(parent: map<GridTile, GridTile>, cost: map<GridTile, real>, dest: GridTile,
                         nodes: seq<Node>, created: seq<Edge>)
    requires CreatedOk(parent, cost, dest, nodes, created)
    requires |created| > 0 && nodes[|created|].pos !in parent
    ensures RebuiltFrom(GridPath(nodes, Reverse(created)), parent, cost, dest)
  {
    ReverseReverse(created);
  }

  /** RebuildPath(Parent, cost, dest): follow Parent back from dest, creating a node per
      tile and an edge weighing the difference of the two costs; a missing key throws. */
  method RebuildPathGrid(parent: map<GridTile, GridTile>, cost: map<GridTile, real>, dest: GridTile,
                         ghost rank: map<GridTile, nat>)
    returns (r: Result<GridPath>)
    requires forall q :: q in parent ==> parent[q] in rank && (q in rank ==> rank[parent[q]] < rank[q])
    ensures dest !in parent ==> r == Failure(KeyNotFound)
    ensures r.Failure? ==> r.error == KeyNotFound
    ensures dest in cost && (forall q :: q in parent ==> parent[q] in cost) ==> (r.Success? <==> dest in parent)
    ensures r.Success? ==> RebuiltFrom(r.value, parent, cost, dest)
  {
    if dest !in cost {
      return Failure(KeyNotFound);
    }
    var currentCost := cost[dest];
    if dest !in parent {
      return Failure(KeyNotFound);
    }
    var previous := parent[dest];
    var nodes := [Node(dest, [], None)];
    var res: seq<Edge> := [];
    ghost var created: seq<Edge> := [];
    while true
      invariant CreatedOk(parent, cost, dest, nodes, created)
      invariant res == Reverse(created)
      invariant nodes[|created|].pos in cost && currentCost == cost[nodes[|created|].pos]
      invariant nodes[|created|].pos in parent && previous == parent[nodes[|created|].pos]
      invariant previous in rank
      decreases rank[previous]
    {
      if previous !in cost {
        return Failure(KeyNotFound);
      }
      var edgeCost := currentCost - cost[previous];
      var e := Edge(|nodes|, |nodes| - 1, INTER, edgeCost, []);
      CreatedOkExtend(parent, cost, dest, nodes, created, previous);
      nodes := nodes + [Node(previous, [e], None)];
      assert Reverse(created + [e]) == [e] + Reverse(created) by {
        assert (created + [e])[..|created|] == created;
      }
      res := [e] + res;
      created := created + [e];
      currentCost := currentCost - edgeCost;
      if previous !in parent {
        break;
      }
      previous := parent[previous];
    }
    CreatedOkRebuilt(parent, cost, dest, nodes, created);
    r := Success(GridPath(nodes, res));
  }

  /** Step i of a grid path: the i-th edge created is a single move from node i + 1 to node i,
      weighing that move's cost, it is the only edge of node i + 1, and node i lies inside
      the rectangle on a free tile. */
  predicate StepAt(obstacles: seq<seq<bool>>, b: Boundaries, nodes: seq<Node>, created: seq<Edge>, i: nat)
    requires i < |created| && i + 1 < |nodes|
  {
    var p := nodes[i + 1].pos;
    var q := nodes[i].pos;
    && IsStep(p, q)
    && created[i] == Edge(i + 1, i, INTER, StepWeight(p, q), [])
    && nodes[i + 1] == Node(p, [created[i]], None)
    && !IsOutOfGrid(q, b) && ObstacleAt(obstacles, q) == Success(false)
  }

  /** gp leads from `from` to `to` by single moves over free tiles inside the rectangle. */
  predicate IsGridPath(obstacles: seq<seq<bool>>, b: Boundaries, gp: GridPath, from: GridTile, to: GridTile)
  {
    var n := |gp.edges|;
    var created := Reverse(gp.edges);
    && n > 0 && |gp.nodes| == n + 1 && gp.nodes[0] == Node(to, [], None) && gp.nodes[n].pos == from
    && forall i :: 0 <= i < n ==> StepAt(obstacles, b, gp.nodes, created, i)
  }

  /** A path rebuilt from the search's Parent and gScore is a path of moves from start. */
  lemma FoundGridPath(obstacles: seq<seq<bool>>, b: Boundaries, start: GridTile, dest: GridTile,
                      s: GSearch, rank: map<GridTile, nat>, time: nat, gp: GridPath)
    requires GridInv(obstacles, b, Neighbours, start, dest, s, rank, time)
    requires RebuiltFrom(gp, s.parent, s.g, dest)
    ensures IsGridPath(obstacles, b, gp, start, dest)
  {
    var n := |gp.edges|;
    var created := Reverse(gp.edges);
    forall i | 0 <= i < n
      ensures StepAt(obstacles, b, gp.nodes, created, i)
    {
      assert LinkAt(s.parent, gp.nodes, i);
      assert CreatedEdgeAt(s.g, gp.nodes, created, i);
      assert CreatedNodeAt(gp.nodes, created, i);
      NeighbourMoves(s.g, gp.nodes[i + 1].pos, gp.nodes[i].pos);
    }
    assert LinkAt(s.parent, gp.nodes, n - 1);
    var root := gp.nodes[n].pos;
    assert root in rank;
  }

  /** Every queued tile is start or lies inside the rectangle. */
  lemma QueuedInRect(obstacles: seq<seq<bool>>, b: Boundaries, nbrs: seq<Offset>, start: GridTile, dest: GridTile,
                     s: GSearch, rank: map<GridTile, nat>, time: nat, k: nat)
    requires GridInv(obstacles, b, nbrs, start, dest, s, rank, time) && k < |s.pq|
    ensures s.pq[k].item in RectTiles(b) + {start}
  {
    var t := s.pq[k].item;
    if t != start {
      assert t in s.parent;
      OutOfGridIsNotContains(t, b);
    }
  }

  /** The body of the search loop once the dequeued tile is known not to be dest: mark
      it visited and relax every move of the table out of it. */
  method VisitTile(obstacles: seq<seq<bool>>, b: Boundaries, nbrs: seq<Offset>, start: GridTile, dest: GridTile,
                   h: Heuristic, s: GSearch, ghost rank: map<GridTile, nat>, ghost time: nat,
                   current: GridTile, rest: seq<QEntry<GridTile>>, ghost k: nat)
    returns (r: Result<GSearch>, ghost rank': map<GridTile, nat>, ghost time': nat)
    requires DistinctMoves(nbrs)
    requires GridInv(obstacles, b, nbrs, start, dest, s, rank, time)
    requires VisitedSettled(obstacles, b, nbrs, s, start, |nbrs|)
    requires k < |s.pq| && current == s.pq[k].item && rest == RemoveAt(s.pq, k) && current != dest
    ensures current in RectTiles(b) + {start}
    ensures r.Failure? ==> r.error == IndexOutOfRange && !BoundsInGrid(b, obstacles)
    ensures r.Success? ==> && GridInv(obstacles, b, nbrs, start, dest, r.value, rank', time')
                           && VisitedSettled(obstacles, b, nbrs, r.value, start, |nbrs|)
                           && r.value.visited == s.visited + {current}
    ensures r.Success? && current in s.visited ==> |r.value.pq| < |s.pq|
  {
    QueuedInRect(obstacles, b, nbrs, start, dest, s, rank, time, k);
    VisitStep(obstacles, b, nbrs, start, dest, s, rank, time, k);
    ghost var again := current in s.visited;
    rank', time' := rank, time;
    if !again {
      rank' := rank[current := time];
      time' := time + 1;
    }
    var t := s.(pq := rest, visited := s.visited + {current});
    r := ExpandTile(obstacles, b, nbrs, start, dest, h, t, rank', time', current, again);
    if r.Success? {
      VisitedSettledAny(obstacles, b, nbrs, r.value, current, start);
    }
  }

  /** FindPath(start, dest, boundaries, obstacles): A* over the grid's 8 moves, staying inside
      the rectangle and off obstacles. When dest is dequeued the path is rebuilt from Parent;
      when the queue runs dry the result is empty, and then no walk of free moves inside the
      rectangle leads from start to dest. If start is dest, Parent holds no entry for dest
      and the rebuilding throws KeyNotFound; a move whose tile lies inside the rectangle but
      outside the obstacle arrays throws IndexOutOfRange. */
  method FindPathGrid(start: GridTile, dest: GridTile, b: Boundaries, obstacles: seq<seq<bool>>, h: Heuristic)
    returns (r: Result<GridPath>)
    ensures r.Failure? ==> (r.error == KeyNotFound && start == dest) ||
                           (r.error == IndexOutOfRange && !BoundsInGrid(b, obstacles))
    ensures start == dest ==> r == Failure(KeyNotFound)
    ensures r.Success? ==> r.value == GridPath([], []) || IsGridPath(obstacles, b, r.value, start, dest)
    ensures r == Success(GridPath([], [])) ==>
              forall w :: IsWalk(obstacles, b, Neighbours, w) && w[0] == start ==> w[|w| - 1] != dest
  {
    var s := GSearch({}, map[], map[start := 0.0], [QEntry(start, h(start, dest))]);
    ghost var rank: map<GridTile, nat> := map[];
    ghost var time: nat := 0;
    ghost var all := RectTiles(b) + {start};
    assert s.pq[0].item in Items(s.pq);
    while |s.pq| > 0
      invariant GridInv(obstacles, b, Neighbours, start, dest, s, rank, time)
      invariant VisitedSettled(obstacles, b, Neighbours, s, start, |Neighbours|)
      invariant s.visited <= all
      invariant start == dest ==> s.pq == [QEntry(start, h(start, dest))]
      decreases all - s.visited, |s.pq|
    {
      var current, rest, k := Dequeue(s.pq);
      if current == dest {
        r := RebuildPathGrid(s.parent, s.g, dest, rank);
        if r.Success? {
          FoundGridPath(obstacles, b, start, dest, s, rank, time, r.value);
        }
        return;
      }
      NeighbourMoves(s.g, start, dest);
      var step;
      step, rank, time := VisitTile(obstacles, b, Neighbours, start, dest, h, s, rank, time, current, rest, k);
      if step.Failure? {
        return Failure(step.error);
      }
      s := step.value;
    }
    ExhaustedMeansUnreachable(obstacles, b, Neighbours, start, dest, s, rank, time);
    r := Success(GridPath([], []));
  }
}
