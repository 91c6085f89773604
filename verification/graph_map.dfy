/** The level-0 graph (Assets/Scripts/GraphUtilities/Graph.cs, CreateMapRepresentation and
    SearchMapEdge): one node per free tile, with an INTER edge to every free tile among the
    eight around it. */
module GraphMap {
  import opened Wrappers
  import opened GridTiles
  import opened HpaTypes

  /** A neighbour offset and the weight of the edge along it. */
  datatype MapOffset = MapOffset(dx: int, dy: int, weight: real)

  /** The offsets in the order CreateMapRepresentation tries them: the straight ones for
      i = -1 then i = 1 (x first, then y), then the diagonal ones. */
  const MapOffsets: seq<MapOffset> := [
    MapOffset(-1, 0, 1.0), MapOffset(0, -1, 1.0), MapOffset(1, 0, 1.0), MapOffset(0, 1, 1.0),
    MapOffset(-1, -1, SQRT2), MapOffset(-1, 1, SQRT2), MapOffset(1, -1, SQRT2), MapOffset(1, 1, SQRT2)]

  /** q is one of the eight tiles around p. */
  predicate IsKingStep(p: GridTile, q: GridTile)
  {
    p != q && -1 <= q.x - p.x <= 1 && -1 <= q.y - p.y <= 1
  }

  /** 1 for a straight step, SQRT2 for a diagonal one. */
  function StepWeight(p: GridTile, q: GridTile): real
  {
    if p.x == q.x || p.y == q.y then 1.0 else SQRT2
  }

  /** The map's free tiles are exactly the keys of `nodes`. */
  ghost predicate KeysAreFreeTiles(m: Map, nodes: map<GridTile, nat>)
    requires WellFormedMap(m)
  {
    forall t :: t in nodes <==> IsFreeTile(m, t)
  }

  /** `nodes` and the arena index each other: a node per key, standing at that key. */
  predicate Indexed(arena: seq<Node>, nodes: map<GridTile, nat>)
  {
    (forall t :: t in nodes ==> nodes[t] < |arena| && arena[nodes[t]].pos == t) &&
    (forall k :: 0 <= k < |arena| ==> arena[k].pos in nodes && nodes[arena[k].pos] == k)
  }

  /** Tile p comes before tile q column by column (the creation order). */
  predicate ColumnMajorBefore(p: GridTile, q: GridTile)
  {
    p.x < q.x || (p.x == q.x && p.y < q.y)
  }

  predicate ColumnMajor(arena: seq<Node>)
  {
    forall a, b :: 0 <= a < b < |arena| ==> ColumnMajorBefore(arena[a].pos, arena[b].pos)
  }

  /** SearchMapEdge: the edge node k at `pos` gets along offset `o`, if its target is free. */
  function MapEdge(m: Map, nodes: map<GridTile, nat>, k: nat, pos: GridTile, o: MapOffset): seq<Edge>
    requires WellFormedMap(m) && KeysAreFreeTiles(m, nodes)
  {
    var t := GridTile(pos.x + o.dx, pos.y + o.dy);
    if IsFreeTile(m, t) then [Edge(k, nodes[t], INTER, o.weight, [])] else []
  }

  /** The edges node k at `pos` collects over the offsets `offs`, in order. */
  function MapEdges(m: Map, nodes: map<GridTile, nat>, k: nat, pos: GridTile, offs: seq<MapOffset>): seq<Edge>
    requires WellFormedMap(m) && KeysAreFreeTiles(m, nodes)
  {
    if offs == [] then []
    else MapEdges(m, nodes, k, pos, offs[..|offs| - 1]) + MapEdge(m, nodes, k, pos, offs[|offs| - 1])
  }

  /** CreateMapRepresentation: nodes for the free tiles, created column by column, then the
      edges of every node. */
  method CreateMapRepresentation(m: Map) returns (arena: seq<Node>, nodes: map<GridTile, nat>)
    requires WellFormedMap(m)
    ensures KeysAreFreeTiles(m, nodes) && Indexed(arena, nodes) && ColumnMajor(arena)
    ensures forall k :: 0 <= k < |arena| ==>
      arena[k].child.None? && arena[k].edges == MapEdges(m, nodes, k, arena[k].pos, MapOffsets)
  {
    arena, nodes := [], map[];
    var i := 0;
    while i < m.width
      invariant 0 <= i <= m.width
      invariant forall t :: t in nodes <==> IsFreeTile(m, t) && t.x < i
      invariant Indexed(arena, nodes) && ColumnMajor(arena)
      invariant forall k :: 0 <= k < |arena| ==> arena[k].pos.x < i && arena[k] == Node(arena[k].pos, [], None)
    {
      arena, nodes := CreateColumn(m, i, arena, nodes);
      i := i + 1;
    }
    ghost var created := arena;
    var k := 0;
    while k < |arena|
      invariant 0 <= k <= |arena| == |created|
      invariant forall q :: 0 <= q < |arena| ==> arena[q].pos == created[q].pos && arena[q].child.None?
      invariant forall q :: 0 <= q < k ==> arena[q].edges == MapEdges(m, nodes, q, arena[q].pos, MapOffsets)
    {
      var n := arena[k];
      var es := NodeEdges(m, nodes, k, n.pos);
      arena := arena[k := n.(edges := es)];
      k := k + 1;
    }
  }

  /** The level-0 arena CreateMapRepresentation builds is a valid arena. */
  lemma MapArenaValid(m: Map, arena: seq<Node>, nodes: map<GridTile, nat>)
    requires WellFormedMap(m) && KeysAreFreeTiles(m, nodes) && Indexed(arena, nodes)
    requires forall k :: 0 <= k < |arena| ==>
      arena[k].child.None? && arena[k].edges == MapEdges(m, nodes, k, arena[k].pos, MapOffsets)
    ensures ValidArena(arena)
  {
    forall i, k | 0 <= i < |arena| && 0 <= k < |arena[i].edges|
      ensures arena[i].edges[k].start == i && arena[i].edges[k].end < |arena|
    {
      MapEdgesMeaning(m, arena, nodes, i);
      assert arena[i].edges[k] in arena[i].edges;
    }
  }

  /** The node loop of CreateMapRepresentation for column i: a node for each free tile of
      the column, top to bottom. */
  method CreateColumn(m: Map, i: int, arena0: seq<Node>, nodes0: map<GridTile, nat>)
    returns (arena: seq<Node>, nodes: map<GridTile, nat>)
    requires WellFormedMap(m) && 0 <= i < m.width
    requires forall t :: t in nodes0 <==> IsFreeTile(m, t) && t.x < i
    requires Indexed(arena0, nodes0) && ColumnMajor(arena0)
    requires forall k :: 0 <= k < |arena0| ==> arena0[k].pos.x < i && arena0[k] == Node(arena0[k].pos, [], None)
    ensures forall t :: t in nodes <==> IsFreeTile(m, t) && t.x < i + 1
    ensures Indexed(arena, nodes) && ColumnMajor(arena)
    ensures forall k :: 0 <= k < |arena| ==> arena[k].pos.x < i + 1 && arena[k] == Node(arena[k].pos, [], None)
  {
    arena, nodes := arena0, nodes0;
    var j := 0;
    while j < m.height
      invariant 0 <= j <= m.height
      invariant forall t :: t in nodes <==> IsFreeTile(m, t) && (t.x < i || (t.x == i && t.y < j))
      invariant Indexed(arena, nodes) && ColumnMajor(arena)
      invariant forall k :: 0 <= k < |arena| ==>
        ColumnMajorBefore(arena[k].pos, GridTile(i, j)) && arena[k] == Node(arena[k].pos, [], None)
    {
      if !m.obstacles[j][i] {
        var g := GridTile(i, j);
        nodes := nodes[g := |arena|];
        arena := arena + [Node(g, [], None)];
      }
      j := j + 1;
    }
  }

  /** The edge loop of CreateMapRepresentation for node k at `pos`: SearchMapEdge along
      each offset in turn. */
  method NodeEdges(m: Map, nodes: map<GridTile, nat>, k: nat, pos: GridTile) returns (es: seq<Edge>)
    requires WellFormedMap(m) && KeysAreFreeTiles(m, nodes)
    ensures es == MapEdges(m, nodes, k, pos, MapOffsets)
  {
    es := [];
    var o := 0;
    while o < |MapOffsets|
      invariant 0 <= o <= |MapOffsets|
      invariant es == MapEdges(m, nodes, k, pos, MapOffsets[..o])
    {
      assert MapOffsets[..o + 1][..o] == MapOffsets[..o];
      es := es + MapEdge(m, nodes, k, pos, MapOffsets[o]);
      o := o + 1;
    }
    assert MapOffsets[..|MapOffsets|] == MapOffsets;
  }

  /** What the edges of a level-0 node are: each starts at the node, is an INTER edge with
      no underlying path, and leads to the node of a free tile one king's move away, with
      weight 1 straight and SQRT2 diagonally; every such tile gets exactly one edge. */
  lemma MapEdgesMeaning(m: Map, arena: seq<Node>, nodes: map<GridTile, nat>, k: nat)
    requires WellFormedMap(m) && KeysAreFreeTiles(m, nodes) && Indexed(arena, nodes) && k < |arena|
    ensures forall e :: e in MapEdges(m, nodes, k, arena[k].pos, MapOffsets) ==>
      e.start == k && e.kind == INTER && e.underlying == [] && e.end < |arena| &&
      IsFreeTile(m, arena[e.end].pos) && IsKingStep(arena[k].pos, arena[e.end].pos) &&
      e.weight == StepWeight(arena[k].pos, arena[e.end].pos)
    ensures forall q :: IsFreeTile(m, q) && IsKingStep(arena[k].pos, q) ==>
      nodes[q] in Ends(MapEdges(m, nodes, k, arena[k].pos, MapOffsets))
    ensures forall a, b :: 0 <= a < b < |MapEdges(m, nodes, k, arena[k].pos, MapOffsets)| ==>
      MapEdges(m, nodes, k, arena[k].pos, MapOffsets)[a].end != MapEdges(m, nodes, k, arena[k].pos, MapOffsets)[b].end
  {
    var p := arena[k].pos;
    assert GoodOffsets(MapOffsets);
    EdgesShape(m, arena, nodes, k, MapOffsets);
    forall e | e in MapEdges(m, nodes, k, p, MapOffsets)
      ensures EdgeShape(m, arena, k, e, MapOffsets)
    {
      var n :| 0 <= n < |MapEdges(m, nodes, k, p, MapOffsets)| && MapEdges(m, nodes, k, p, MapOffsets)[n] == e;
    }
    EdgesCover(m, arena, nodes, k, MapOffsets);
    EdgesDistinct(m, arena, nodes, k, MapOffsets);
    forall q | IsFreeTile(m, q) && IsKingStep(p, q)
      ensures nodes[q] in Ends(MapEdges(m, nodes, k, p, MapOffsets))
    {
      var o := OffsetOf(p, q);
      assert Shifted(p, MapOffsets)[o] == q;
    }
  }

  /** Every king's move is one of the eight offsets. */
  lemma OffsetOf(p: GridTile, q: GridTile) returns (o: nat)
    requires IsKingStep(p, q)
    ensures o < |MapOffsets| && MapOffsets[o].dx == q.x - p.x && MapOffsets[o].dy == q.y - p.y
  {
    var dx, dy := q.x - p.x, q.y - p.y;
    o := if dx == -1 && dy == 0 then 0 else if dx == 0 && dy == -1 then 1
      else if dx == 1 && dy == 0 then 2 else if dx == 0 && dy == 1 then 3
      else if dx == -1 && dy == -1 then 4 else if dx == -1 && dy == 1 then 5
      else if dx == 1 && dy == -1 then 6 else 7;
  }

  /** The offsets are pairwise distinct king's moves carrying their step weight. */
  predicate GoodOffsets(offs: seq<MapOffset>)
  {
    (forall a :: 0 <= a < |offs| ==>
      (offs[a].dx != 0 || offs[a].dy != 0) && -1 <= offs[a].dx <= 1 && -1 <= offs[a].dy <= 1 &&
      offs[a].weight == (if offs[a].dx == 0 || offs[a].dy == 0 then 1.0 else SQRT2)) &&
    (forall a, b :: 0 <= a < b < |offs| ==> offs[a].dx != offs[b].dx || offs[a].dy != offs[b].dy)
  }

  /** The tiles the offsets lead to from p. */
  function Shifted(p: GridTile, offs: seq<MapOffset>): (r: seq<GridTile>)
    ensures |r| == |offs|
    ensures forall a :: 0 <= a < |offs| ==> r[a] == GridTile(p.x + offs[a].dx, p.y + offs[a].dy)
  {
    if offs == [] then []
    else Shifted(p, offs[..|offs| - 1]) + [GridTile(p.x + offs[|offs| - 1].dx, p.y + offs[|offs| - 1].dy)]
  }

  /** The nodes the edges end at, in order. */
  function Ends(es: seq<Edge>): (r: seq<nat>)
    ensures |r| == |es| && forall a :: 0 <= a < |es| ==> r[a] == es[a].end
  {
    if es == [] then [] else Ends(es[..|es| - 1]) + [es[|es| - 1].end]
  }

  /** Edge e of node k leads to a free tile one king's move away along one of `offs`. */
  ghost predicate EdgeShape(m: Map, arena: seq<Node>, k: nat, e: Edge, offs: seq<MapOffset>)
    requires WellFormedMap(m) && k < |arena|
  {
    e.start == k && e.kind == INTER && e.underlying == [] && e.end < |arena| &&
    IsFreeTile(m, arena[e.end].pos) && IsKingStep(arena[k].pos, arena[e.end].pos) &&
    e.weight == StepWeight(arena[k].pos, arena[e.end].pos) && arena[e.end].pos in Shifted(arena[k].pos, offs)
  }

  lemma {:induction false} EdgesShape(m: Map, arena: seq<Node>, nodes: map<GridTile, nat>, k: nat, offs: seq<MapOffset>)
    requires WellFormedMap(m) && KeysAreFreeTiles(m, nodes) && Indexed(arena, nodes) && k < |arena|
    requires GoodOffsets(offs)
    ensures forall n :: 0 <= n < |MapEdges(m, nodes, k, arena[k].pos, offs)| ==>
      EdgeShape(m, arena, k, MapEdges(m, nodes, k, arena[k].pos, offs)[n], offs)
    decreases |offs|
  {
    if offs != [] {
      var p := arena[k].pos;
      var init := offs[..|offs| - 1];
      var last := offs[|offs| - 1];
      assert GoodOffsets(init);
      EdgesShape(m, arena, nodes, k, init);
      var es0 := MapEdges(m, nodes, k, p, init);
      var es := es0 + MapEdge(m, nodes, k, p, last);
      var sh := Shifted(p, offs);
      assert sh == Shifted(p, init) + [sh[|offs| - 1]];
      forall n | 0 <= n < |es|
        ensures EdgeShape(m, arena, k, es[n], offs)
      {
        if n < |es0| {
          assert es[n] == es0[n];
          assert EdgeShape(m, arena, k, es0[n], init);
        } else {
          var t := GridTile(p.x + last.dx, p.y + last.dy);
          assert es[n] == Edge(k, nodes[t], INTER, last.weight, []);
          assert arena[nodes[t]].pos == t == sh[|offs| - 1];
        }
      }
    }
  }

  lemma {:induction false} EdgesCover(m: Map, arena: seq<Node>, nodes: map<GridTile, nat>, k: nat, offs: seq<MapOffset>)
    requires WellFormedMap(m) && KeysAreFreeTiles(m, nodes) && Indexed(arena, nodes) && k < |arena|
    ensures forall o :: 0 <= o < |offs| && IsFreeTile(m, Shifted(arena[k].pos, offs)[o]) ==>
      nodes[Shifted(arena[k].pos, offs)[o]] in Ends(MapEdges(m, nodes, k, arena[k].pos, offs))
    decreases |offs|
  {
    if offs != [] {
      var p := arena[k].pos;
      var init := offs[..|offs| - 1];
      var last := offs[|offs| - 1];
      EdgesCover(m, arena, nodes, k, init);
      var es0 := MapEdges(m, nodes, k, p, init);
      var es := es0 + MapEdge(m, nodes, k, p, last);
      assert MapEdges(m, nodes, k, p, offs) == es;
      forall o | 0 <= o < |offs| && IsFreeTile(m, Shifted(p, offs)[o])
        ensures nodes[Shifted(p, offs)[o]] in Ends(es)
      {
        if o < |init| {
          assert Shifted(p, offs)[o] == Shifted(p, init)[o];
          var a :| 0 <= a < |es0| && Ends(es0)[a] == nodes[Shifted(p, init)[o]];
          assert Ends(es)[a] == es[a].end == es0[a].end;
        } else {
          assert Ends(es)[|es0|] == es[|es0|].end;
        }
      }
    }
  }

  lemma {:induction false} EdgesDistinct(m: Map, arena: seq<Node>, nodes: map<GridTile, nat>, k: nat, offs: seq<MapOffset>)
    requires WellFormedMap(m) && KeysAreFreeTiles(m, nodes) && Indexed(arena, nodes) && k < |arena|
    requires GoodOffsets(offs)
    ensures forall a, b :: 0 <= a < b < |MapEdges(m, nodes, k, arena[k].pos, offs)| ==>
      MapEdges(m, nodes, k, arena[k].pos, offs)[a].end != MapEdges(m, nodes, k, arena[k].pos, offs)[b].end
    decreases |offs|
  {
    if offs != [] {
      var p := arena[k].pos;
      var init := offs[..|offs| - 1];
      var last := offs[|offs| - 1];
      assert GoodOffsets(init);
      EdgesDistinct(m, arena, nodes, k, init);
      EdgesShape(m, arena, nodes, k, init);
      var es0 := MapEdges(m, nodes, k, p, init);
      var tail := MapEdge(m, nodes, k, p, last);
      assert MapEdges(m, nodes, k, p, offs) == es0 + tail;
      var es := es0 + tail;
      forall a, b | 0 <= a < b < |es|
        ensures es[a].end != es[b].end
      {
        if b >= |es0| && a < |es0| {
          var t := GridTile(p.x + last.dx, p.y + last.dy);
          assert es[a] == es0[a] && es[b] == tail[0] && tail[0].end == nodes[t];
          assert EdgeShape(m, arena, k, es0[a], init);
          var o :| 0 <= o < |init| && Shifted(p, init)[o] == arena[es0[a].end].pos;
          assert offs[o] == init[o] && offs[|offs| - 1] == last;
          assert arena[es0[a].end].pos != t == arena[nodes[t]].pos;
        } else if b < |es0| {
          assert es[a] == es0[a] && es[b] == es0[b];
        }
      }
    }
  }
}
