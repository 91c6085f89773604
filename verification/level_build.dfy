/** Building one level of the hierarchy (Assets/Scripts/GraphUtilities/Graph.cs,
    BuildClusters and DetectAdjacentClusters): where the clusters of a level lie, what
    linking an adjacent pair achieves at level 0 and above, and why a pair stays linked
    while the pairs after it are linked and the intra edges are added. */
module LevelBuild {
  import opened Wrappers
  import opened GridTiles
  import opened HpaTypes
  import opened GraphLayout
  import opened GraphArena
  import opened BorderLinks
  import opened AbstractLinks

  /** The indices, in order, of those of the first n clusters of `lower` that lie inside
      b: the `Clusters` list BuildClusters gives a cluster above level 0. */
  function Inside(lower: seq<Cluster>, b: Boundaries, n: nat): (r: seq<nat>)
    requires n <= |lower|
    ensures |r| <= n
  {
    if n == 0 then []
    else Inside(lower, b, n - 1) + (if ContainsRect(b, lower[n - 1].bounds) then [n - 1] else [])
  }

  lemma {:induction false} InsideMeaning(lower: seq<Cluster>, b: Boundaries, n: nat)
    requires n <= |lower|
    ensures forall q: nat :: q in Inside(lower, b, n) <==> q < n && ContainsRect(b, lower[q].bounds)
  {
    if n > 0 {
      InsideMeaning(lower, b, n - 1);
    }
  }

  /** Every cluster of a level has a correct border dictionary over the arena. */
  ghost predicate LevelOk(arena: seq<Node>, cs: seq<Cluster>)
  {
    forall k :: 0 <= k < |cs| ==> BorderOk(arena, cs[k]) && DictOk(cs[k]) && NodesIn(cs[k], 0, |arena|)
  }

  ghost predicate LevelsOk(arena: seq<Node>, levels: seq<seq<Cluster>>)
  {
    forall i :: 0 <= i < |levels| ==> LevelOk(arena, levels[i])
  }

  lemma LevelOkKept(a: seq<Node>, b: seq<Node>, cs: seq<Cluster>)
    requires LevelOk(a, cs) && Keeps(a, b)
    ensures LevelOk(b, cs)
  {
    forall k | 0 <= k < |cs|
      ensures BorderOk(b, cs[k])
    {
      BorderOkKept(a, b, cs[k]);
    }
  }

  lemma LevelsOkKept(a: seq<Node>, b: seq<Node>, levels: seq<seq<Cluster>>)
    requires LevelsOk(a, levels) && Keeps(a, b)
    ensures LevelsOk(b, levels)
  {
    forall i | 0 <= i < |levels|
      ensures LevelOk(b, levels[i])
    {
      LevelOkKept(a, b, levels[i]);
    }
  }

  /** The lower clusters p lists lie inside it. */
  ghost predicate InsideOk(lower: seq<Cluster>, p: Cluster)
  {
    forall q :: q in p.clusters ==> q < |lower| && ContainsRect(p.bounds, lower[q].bounds)
  }

  lemma LowerOkFrom(arena: seq<Node>, lower: seq<Cluster>, p: Cluster)
    requires LevelOk(arena, lower) && InsideOk(lower, p)
    ensures LowerOk(arena, lower, p)
  {
  }

  /** Cluster k of a level is cell (k / cw, k % cw) of the grid of `size`-wide clusters,
      clipped to the map, a non-empty rectangle with Width and Height set from it. */
  predicate GridAt(cs: seq<Cluster>, size: int, cw: int, width: int, height: int)
  {
    forall k :: 0 <= k < |cs| ==>
      cw > 0 && cs[k].bounds == ClusterBounds(k / cw, k % cw, size, width, height) &&
      Sized(cs[k]) && Proper(cs[k].bounds)
  }

  /** The clusters BuildClusters creates for the level above `levels` at cluster size
      `size`: CeilDiv(height, size) rows of CeilDiv(width, size) clusters, row by row, each
      listing the clusters of the level below that it contains. */
  ghost predicate LevelLayout(levels: seq<seq<Cluster>>, cs: seq<Cluster>, size: int, width: int, height: int)
    requires size > 0 && width >= 0 && height >= 0
  {
    |cs| == CeilDiv(height, size) * CeilDiv(width, size) &&
    GridAt(cs, size, CeilDiv(width, size), width, height) &&
    forall k :: 0 <= k < |cs| ==>
      cs[k].clusters == if |levels| == 0 then [] else Inside(levels[|levels| - 1], cs[k].bounds, |levels[|levels| - 1]|)
  }

  /** The clusters of a layout cover the map: every tile of it lies in one of them. */
  lemma GridCovers(cs: seq<Cluster>, size: int, width: int, height: int, t: GridTile)
    requires size > 0 && 0 <= t.x < width && 0 <= t.y < height
    requires |cs| == CeilDiv(height, size) * CeilDiv(width, size) && GridAt(cs, size, CeilDiv(width, size), width, height)
    ensures exists k :: 0 <= k < |cs| && Contains(cs[k].bounds, t)
  {
    var cw, ch := CeilDiv(width, size), CeilDiv(height, size);
    var i, j := t.y / size, t.x / size;
    ClustersTileMap(size, width, height, t, i, j);
    RowMajor(i, j, cw);
    MulMono(i + 1, ch, cw);
    var k := i * cw + j;
    assert k < |cs|;
    assert Contains(cs[k].bounds, t);
  }

  /** Two clusters of one layout that touch share their whole border. */
  lemma GridSpan(cs: seq<Cluster>, size: int, cw: int, width: int, height: int, a: nat, b: nat, x: bool)
    requires size > 0 && GridAt(cs, size, cw, width, height) && a < |cs| && b < |cs|
    requires Touching(cs[a].bounds, cs[b].bounds, x)
    ensures SameSpan(cs[a].bounds, cs[b].bounds, x)
  {
    LayoutSameSpan(a / cw, a % cw, b / cw, b % cw, size, width, height, x);
  }

  /** CreateBorderNodes between c1 (lower) and c2 on the level above `levels`: the
      concrete border nodes at level 0, the lifted twin pairs of their lower clusters above. */
  ghost predicate Bordered(nodes: map<GridTile, nat>, levels: seq<seq<Cluster>>, s: Sides, x: bool, r: Sides)
  {
    if |levels| == 0 then r == TieAll(s, BorderTies(nodes, s.c1, s.c2, x))
    else GridLifted(s, levels[|levels| - 1], s.c1.clusters, |s.c1.clusters|, s.c2.clusters, x, r)
  }

  /** DetectAdjacentClusters on c1 and c2 over arena a gave arena a2 and clusters r1, r2:
      nothing when they are apart, and otherwise the border nodes between them, the lower
      one passed first. */
  ghost predicate Detected(nodes: map<GridTile, nat>, levels: seq<seq<Cluster>>, a: seq<Node>, c1: Cluster, c2: Cluster,
                           a2: seq<Node>, r1: Cluster, r2: Cluster)
  {
    match DetectAdjacency(c1.bounds, c2.bounds)
    case Apart => a2 == a && r1 == c1 && r2 == c2
    case Adjacent(first, x) =>
      if first then Bordered(nodes, levels, Sides(a, c1, c2), x, Sides(a2, r1, r2))
      else Bordered(nodes, levels, Sides(a, c2, c1), x, Sides(a2, r2, r1))
  }

  /** The border between lo and hi (lo the lower one along x) is linked in `arena`: at
      level 0 the facing tiles at every placement along it are paired border nodes; above,
      every twin pair between touching lower clusters of lo and hi, as arena a0 held them,
      is lifted. */
  ghost predicate BorderDone(nodes: map<GridTile, nat>, levels: seq<seq<Cluster>>, a0: seq<Node>, arena: seq<Node>,
                             lo: Cluster, hi: Cluster, x: bool)
  {
    if |levels| == 0 then
      forall p :: p in Placements(BorderLine(nodes, lo, hi, x), BorderStart(lo, x), 0) ==>
        Paired(arena, lo, hi, FacingTiles(lo.bounds, hi.bounds, x, p).0, FacingTiles(lo.bounds, hi.bounds, x, p).1)
    else
      forall k1, k2 ::
        k1 in lo.clusters && k2 in hi.clusters && k1 < |levels[|levels| - 1]| && k2 < |levels[|levels| - 1]| &&
        Touching(levels[|levels| - 1][k1].bounds, levels[|levels| - 1][k2].bounds, x) ==>
        Lifted(arena, lo, hi, levels[|levels| - 1][k1], levels[|levels| - 1][k2], a0)
  }

  /** The pair c1, c2 is linked as DetectAdjacentClusters links it. */
  ghost predicate PairDone(nodes: map<GridTile, nat>, levels: seq<seq<Cluster>>, a0: seq<Node>, arena: seq<Node>,
                           c1: Cluster, c2: Cluster)
  {
    match DetectAdjacency(c1.bounds, c2.bounds)
    case Apart => true
    case Adjacent(first, x) =>
      if first then BorderDone(nodes, levels, a0, arena, c1, c2, x) else BorderDone(nodes, levels, a0, arena, c2, c1, x)
  }

  /** Touching rectangles share their whole border. */
  predicate SpanOk(b1: Boundaries, b2: Boundaries)
  {
    (Touching(b1, b2, true) ==> SameSpan(b1, b2, true)) && (Touching(b1, b2, false) ==> SameSpan(b1, b2, false))
  }

  /** What linking c1 and c2 relies on: correct dictionaries over a valid arena and, at
      level 0, the map nodes in place and clusters shaped as the layout makes them; above,
      correct lower clusters inside both. */
  ghost predicate PairReady(nodes: map<GridTile, nat>, levels: seq<seq<Cluster>>, arena: seq<Node>, c1: Cluster, c2: Cluster)
  {
    SidesGood(Sides(arena, c1, c2)) && NodesAt(arena, nodes) &&
    (|levels| == 0 ==>
       Sized(c1) && Sized(c2) && Proper(c1.bounds) && Proper(c2.bounds) && SpanOk(c1.bounds, c2.bounds) &&
       SpanOk(c2.bounds, c1.bounds)) &&
    (|levels| > 0 ==> LowerOk(arena, levels[|levels| - 1], c1) && LowerOk(arena, levels[|levels| - 1], c2))
  }

  lemma BorderedGood(nodes: map<GridTile, nat>, levels: seq<seq<Cluster>>, s: Sides, x: bool, r: Sides)
    requires SidesGood(s) && NodesAt(s.arena, nodes)
    requires |levels| == 0 ==>
      Sized(s.c1) && Touching(s.c1.bounds, s.c2.bounds, x) && SameSpan(s.c1.bounds, s.c2.bounds, x) &&
      Proper(s.c1.bounds) && Proper(s.c2.bounds)
    requires |levels| > 0 ==> LowerOk(s.arena, levels[|levels| - 1], s.c1) && LowerOk(s.arena, levels[|levels| - 1], s.c2)
    requires Bordered(nodes, levels, s, x, r)
    ensures Extends(s, r)
  {
    if |levels| == 0 {
      var ts := BorderTies(nodes, s.c1, s.c2, x);
      ConcreteBorderOk(nodes, s, x);
      TieAllDict(s, ts);
      TieAllNodesIn(s, ts);
    }
  }

  lemma BorderedDone(nodes: map<GridTile, nat>, levels: seq<seq<Cluster>>, a0: seq<Node>, s: Sides, x: bool, r: Sides)
    requires SidesGood(s) && NodesAt(s.arena, nodes) && Grows(a0, s.arena)
    requires |levels| == 0 ==>
      Sized(s.c1) && Touching(s.c1.bounds, s.c2.bounds, x) && SameSpan(s.c1.bounds, s.c2.bounds, x) &&
      Proper(s.c1.bounds) && Proper(s.c2.bounds)
    requires Bordered(nodes, levels, s, x, r)
    ensures BorderDone(nodes, levels, a0, r.arena, r.c1, r.c2, x)
  {
    if |levels| == 0 {
      ConcreteBorderOk(nodes, s, x);
      assert BorderLine(nodes, r.c1, r.c2, x) == BorderLine(nodes, s.c1, s.c2, x);
    } else {
      GridDone(levels[|levels| - 1], a0, s, x, r);
    }
  }

  /** Above level 0, lifting the grid of lower clusters lifts every touching pair of them. */
  lemma GridDone(lower: seq<Cluster>, a0: seq<Node>, s: Sides, x: bool, r: Sides)
    requires Grows(a0, s.arena)
    requires GridLifted(s, lower, s.c1.clusters, |s.c1.clusters|, s.c2.clusters, x, r)
    ensures forall k1, k2 ::
      k1 in r.c1.clusters && k2 in r.c2.clusters && k1 < |lower| && k2 < |lower| &&
      Touching(lower[k1].bounds, lower[k2].bounds, x) ==>
      Lifted(r.arena, r.c1, r.c2, lower[k1], lower[k2], a0)
  {
    var ks1, ks2 := s.c1.clusters, s.c2.clusters;
    forall k1, k2 | k1 in r.c1.clusters && k2 in r.c2.clusters && k1 < |lower| && k2 < |lower| &&
                    Touching(lower[k1].bounds, lower[k2].bounds, x)
      ensures Lifted(r.arena, r.c1, r.c2, lower[k1], lower[k2], a0)
    {
      var i :| 0 <= i < |ks1| && ks1[i] == k1;
      var j :| 0 <= j < |ks2| && ks2[j] == k2;
      LiftedEarlier(r.arena, r.c1, r.c2, lower[k1], lower[k2], a0, s.arena);
    }
  }

  /** Linking an adjacent pair keeps everything correct, only appends to the arena, and
      leaves the pair linked. */
  lemma DetectedGood(nodes: map<GridTile, nat>, levels: seq<seq<Cluster>>, a0: seq<Node>, a: seq<Node>,
                     c1: Cluster, c2: Cluster, a2: seq<Node>, r1: Cluster, r2: Cluster)
    requires PairReady(nodes, levels, a, c1, c2) && Grows(a0, a)
    requires Detected(nodes, levels, a, c1, c2, a2, r1, r2)
    ensures SidesGood(Sides(a2, r1, r2)) && Grows(a, a2)
    ensures SameShape(c1, r1) && SameShape(c2, r2) && DictGrows(c1, r1) && DictGrows(c2, r2)
    ensures PairDone(nodes, levels, a0, a2, r1, r2)
  {
    match DetectAdjacency(c1.bounds, c2.bounds)
    case Apart =>
      GrowsSelf(a);
    case Adjacent(first, x) =>
      if first {
        BorderedGood(nodes, levels, Sides(a, c1, c2), x, Sides(a2, r1, r2));
        BorderedDone(nodes, levels, a0, Sides(a, c1, c2), x, Sides(a2, r1, r2));
      } else {
        BorderedGood(nodes, levels, Sides(a, c2, c1), x, Sides(a2, r2, r1));
        BorderedDone(nodes, levels, a0, Sides(a, c2, c1), x, Sides(a2, r2, r1));
      }
  }

  lemma BorderDoneKept(nodes: map<GridTile, nat>, levels: seq<seq<Cluster>>, a0: seq<Node>, a: seq<Node>, b: seq<Node>,
                       lo: Cluster, hi: Cluster, lo2: Cluster, hi2: Cluster, x: bool)
    requires BorderDone(nodes, levels, a0, a, lo, hi, x) && Grows(a, b)
    requires SameShape(lo, lo2) && SameShape(hi, hi2) && DictGrows(lo, lo2) && DictGrows(hi, hi2)
    ensures BorderDone(nodes, levels, a0, b, lo2, hi2, x)
  {
    if |levels| == 0 {
      assert BorderLine(nodes, lo2, hi2, x) == BorderLine(nodes, lo, hi, x);
      forall p | p in Placements(BorderLine(nodes, lo2, hi2, x), BorderStart(lo2, x), 0)
        ensures Paired(b, lo2, hi2, FacingTiles(lo2.bounds, hi2.bounds, x, p).0, FacingTiles(lo2.bounds, hi2.bounds, x, p).1)
      {
        PairedGrows(a, b, lo, lo2, hi, hi2, FacingTiles(lo.bounds, hi.bounds, x, p).0, FacingTiles(lo.bounds, hi.bounds, x, p).1);
      }
    } else {
      var lower := levels[|levels| - 1];
      forall k1, k2 | k1 in lo2.clusters && k2 in hi2.clusters && k1 < |lower| && k2 < |lower| &&
                      Touching(lower[k1].bounds, lower[k2].bounds, x)
        ensures Lifted(b, lo2, hi2, lower[k1], lower[k2], a0)
      {
        LiftedGrows(a, lo, hi, lower[k1], lower[k2], a0, b, lo2, hi2);
      }
    }
  }

  /** A linked pair stays linked while the arena grows and its dictionaries gain keys. */
  lemma PairDoneKept(nodes: map<GridTile, nat>, levels: seq<seq<Cluster>>, a0: seq<Node>, a: seq<Node>, b: seq<Node>,
                     c1: Cluster, c2: Cluster, d1: Cluster, d2: Cluster)
    requires PairDone(nodes, levels, a0, a, c1, c2) && Grows(a, b)
    requires SameShape(c1, d1) && SameShape(c2, d2) && DictGrows(c1, d1) && DictGrows(c2, d2)
    ensures PairDone(nodes, levels, a0, b, d1, d2)
  {
    match DetectAdjacency(c1.bounds, c2.bounds)
    case Apart =>
    case Adjacent(first, x) =>
      if first {
        BorderDoneKept(nodes, levels, a0, a, b, c1, c2, d1, d2, x);
      } else {
        BorderDoneKept(nodes, levels, a0, a, b, c2, c1, d2, d1, x);
      }
  }

  /** The cluster BuildClusters creates in row i, column j: its rectangle, the Width and
      Height set from it, no border nodes yet, and the lower clusters it contains. */
  function NewCluster(levels: seq<seq<Cluster>>, i: int, j: int, size: int, width: int, height: int): (c: Cluster)
    ensures c.bounds == ClusterBounds(i, j, size, width, height) && Sized(c) && c.nodes == map[] && c.order == []
  {
    var b := ClusterBounds(i, j, size, width, height);
    var lower := if |levels| == 0 then [] else Inside(levels[|levels| - 1], b, |levels[|levels| - 1]|);
    Cluster(b, b.max.x - b.min.x + 1, b.max.y - b.min.y + 1, map[], [], lower)
  }

  /** Cluster k of cs is the one created in row k / cw, column k % cw. */
  ghost predicate Fresh(levels: seq<seq<Cluster>>, cs: seq<Cluster>, cw: int, size: int, width: int, height: int)
  {
    forall k :: 0 <= k < |cs| ==>
      cw > 0 && cs[k] == NewCluster(levels, k / cw, k % cw, size, width, height) && Proper(cs[k].bounds)
  }

  /** The cluster of row i, column j comes next in row-major order. */
  lemma FreshStep(levels: seq<seq<Cluster>>, cs: seq<Cluster>, c: Cluster, i: int, j: int, cw: int,
                  size: int, width: int, height: int)
    requires Fresh(levels, cs, cw, size, width, height) && i >= 0 && 0 <= j < cw && |cs| == i * cw + j
    requires c == NewCluster(levels, i, j, size, width, height) && Proper(c.bounds)
    ensures Fresh(levels, cs + [c], cw, size, width, height)
  {
    RowMajor(i, j, cw);
  }

  lemma FreshLayout(levels: seq<seq<Cluster>>, cs: seq<Cluster>, size: int, width: int, height: int)
    requires size > 0 && width >= 0 && height >= 0
    requires |cs| == CeilDiv(height, size) * CeilDiv(width, size) && Fresh(levels, cs, CeilDiv(width, size), size, width, height)
    ensures LevelLayout(levels, cs, size, width, height)
  {
  }

  /** Linking and intra edges change only border nodes, so the layout stays. */
  lemma LayoutKept(levels: seq<seq<Cluster>>, cs: seq<Cluster>, ds: seq<Cluster>, size: int, width: int, height: int)
    requires size > 0 && width >= 0 && height >= 0
    requires LevelLayout(levels, cs, size, width, height) && SameShapes(cs, ds)
    ensures LevelLayout(levels, ds, size, width, height)
  {
  }

  /** Every pair (a, b), a < b, before (i, j) in the order BuildClusters visits them is linked. */
  ghost predicate PairsDone(nodes: map<GridTile, nat>, levels: seq<seq<Cluster>>, a0: seq<Node>, arena: seq<Node>,
                            ds: seq<Cluster>, i: int, j: int)
  {
    forall a, b :: 0 <= a < b < |ds| && (a < i || (a == i && b < j)) ==> PairDone(nodes, levels, a0, arena, ds[a], ds[b])
  }

  /** Every pair of the level is linked. */
  ghost predicate AllPairsDone(nodes: map<GridTile, nat>, levels: seq<seq<Cluster>>, a0: seq<Node>, arena: seq<Node>,
                               ds: seq<Cluster>)
  {
    forall a, b :: 0 <= a < b < |ds| ==> PairDone(nodes, levels, a0, arena, ds[a], ds[b])
  }

  /** What the pair loop of BuildClusters keeps: the arena valid with the map nodes in
      place, the levels below and this one correct over it, this one laid out on the grid
      and, above level 0, each cluster holding only lower clusters inside it. */
  ghost predicate LevelReady(nodes: map<GridTile, nat>, levels: seq<seq<Cluster>>, arena: seq<Node>, ds: seq<Cluster>,
                             size: int, cw: int, width: int, height: int)
  {
    ValidArena(arena) && NodesAt(arena, nodes) && LevelsOk(arena, levels) && LevelOk(arena, ds) && size > 0 &&
    GridAt(ds, size, cw, width, height) &&
    (|levels| > 0 ==> forall k :: 0 <= k < |ds| ==> InsideOk(levels[|levels| - 1], ds[k]))
  }

  /** Freshly created clusters are ready to be linked. */
  lemma FreshReady(nodes: map<GridTile, nat>, levels: seq<seq<Cluster>>, arena: seq<Node>, cs: seq<Cluster>,
                   size: int, width: int, height: int)
    requires ValidArena(arena) && NodesAt(arena, nodes) && LevelsOk(arena, levels)
    requires size > 0 && width >= 0 && height >= 0 && LevelLayout(levels, cs, size, width, height)
    requires forall k :: 0 <= k < |cs| ==> cs[k].nodes == map[] && cs[k].order == []
    ensures LevelReady(nodes, levels, arena, cs, size, CeilDiv(width, size), width, height)
  {
    if |levels| > 0 {
      var lower := levels[|levels| - 1];
      forall k | 0 <= k < |cs|
        ensures InsideOk(lower, cs[k])
      {
        InsideMeaning(lower, cs[k].bounds, |lower|);
      }
    }
  }

  /** A ready level gives each of its pairs what linking it relies on. */
  lemma PairReadyFrom(nodes: map<GridTile, nat>, levels: seq<seq<Cluster>>, arena: seq<Node>, ds: seq<Cluster>,
                      size: int, cw: int, width: int, height: int, i: nat, j: nat)
    requires LevelReady(nodes, levels, arena, ds, size, cw, width, height) && i < |ds| && j < |ds|
    ensures PairReady(nodes, levels, arena, ds[i], ds[j])
  {
    if |levels| == 0 {
      if Touching(ds[i].bounds, ds[j].bounds, true) { GridSpan(ds, size, cw, width, height, i, j, true); }
      if Touching(ds[i].bounds, ds[j].bounds, false) { GridSpan(ds, size, cw, width, height, i, j, false); }
      if Touching(ds[j].bounds, ds[i].bounds, true) { GridSpan(ds, size, cw, width, height, j, i, true); }
      if Touching(ds[j].bounds, ds[i].bounds, false) { GridSpan(ds, size, cw, width, height, j, i, false); }
    } else {
      LowerOkFrom(arena, levels[|levels| - 1], ds[i]);
      LowerOkFrom(arena, levels[|levels| - 1], ds[j]);
    }
  }

  /** Writing back a linked pair keeps the level ready. */
  lemma LinkStepReady(nodes: map<GridTile, nat>, levels: seq<seq<Cluster>>, a: seq<Node>, ds: seq<Cluster>,
                      size: int, cw: int, width: int, height: int, i: nat, j: nat, a2: seq<Node>, r1: Cluster, r2: Cluster)
    requires LevelReady(nodes, levels, a, ds, size, cw, width, height) && i < |ds| && j < |ds| && i != j
    requires SidesGood(Sides(a2, r1, r2)) && Grows(a, a2)
    requires SameShape(ds[i], r1) && SameShape(ds[j], r2)
    ensures LevelReady(nodes, levels, a2, ds[i := r1][j := r2], size, cw, width, height)
  {
    var ds2 := ds[i := r1][j := r2];
    GrowsKeeps(a, a2);
    LevelsOkKept(a, a2, levels);
    LinkStepLevelOk(a, ds, i, j, a2, r1, r2);
    assert NodesAt(a2, nodes);
    LinkStepShape(ds, i, j, r1, r2);
  }

  lemma LinkStepLevelOk(a: seq<Node>, ds: seq<Cluster>, i: nat, j: nat, a2: seq<Node>, r1: Cluster, r2: Cluster)
    requires LevelOk(a, ds) && i < |ds| && j < |ds| && i != j
    requires SidesGood(Sides(a2, r1, r2)) && Grows(a, a2)
    ensures LevelOk(a2, ds[i := r1][j := r2])
  {
    var ds2 := ds[i := r1][j := r2];
    GrowsKeeps(a, a2);
    forall k | 0 <= k < |ds2|
      ensures BorderOk(a2, ds2[k]) && DictOk(ds2[k]) && NodesIn(ds2[k], 0, |a2|)
    {
      if k != i && k != j {
        assert ds2[k] == ds[k];
        BorderOkKept(a, a2, ds[k]);
      }
    }
  }

  /** Only the dictionaries of the pair change: the layout and the lower clusters stay. */
  lemma LinkStepShape(ds: seq<Cluster>, i: nat, j: nat, r1: Cluster, r2: Cluster)
    requires i < |ds| && j < |ds| && SameShape(ds[i], r1) && SameShape(ds[j], r2)
    ensures forall k :: 0 <= k < |ds| ==> SameShape(ds[k], ds[i := r1][j := r2][k])
  {
  }

  /** Writing back a linked pair keeps every earlier pair linked and adds this one. */
  lemma LinkStepDone(nodes: map<GridTile, nat>, levels: seq<seq<Cluster>>, a0: seq<Node>, a: seq<Node>, ds: seq<Cluster>,
                     i: nat, j: nat, a2: seq<Node>, r1: Cluster, r2: Cluster)
    requires i < j < |ds| && PairsDone(nodes, levels, a0, a, ds, i, j) && Grows(a, a2)
    requires SameShape(ds[i], r1) && SameShape(ds[j], r2) && DictGrows(ds[i], r1) && DictGrows(ds[j], r2)
    requires PairDone(nodes, levels, a0, a2, r1, r2)
    ensures PairsDone(nodes, levels, a0, a2, ds[i := r1][j := r2], i, j + 1)
    ensures SameShapes(ds, ds[i := r1][j := r2])
  {
    var ds2 := ds[i := r1][j := r2];
    forall a', b' | 0 <= a' < b' < |ds2| && (a' < i || (a' == i && b' < j + 1))
      ensures PairDone(nodes, levels, a0, a2, ds2[a'], ds2[b'])
    {
      if a' != i || b' != j {
        PairDoneKept(nodes, levels, a0, a, a2, ds[a'], ds[b'], ds2[a'], ds2[b']);
      }
    }
  }

  /** A finished row of pairs is the start of the next. */
  lemma PairsDoneRow(nodes: map<GridTile, nat>, levels: seq<seq<Cluster>>, a0: seq<Node>, arena: seq<Node>,
                     ds: seq<Cluster>, i: int)
    requires PairsDone(nodes, levels, a0, arena, ds, i, |ds|)
    ensures PairsDone(nodes, levels, a0, arena, ds, i + 1, i + 2)
  {
  }

  lemma PairsDoneAll(nodes: map<GridTile, nat>, levels: seq<seq<Cluster>>, a0: seq<Node>, arena: seq<Node>,
                     ds: seq<Cluster>, i: int)
    requires i >= |ds| && PairsDone(nodes, levels, a0, arena, ds, i, i + 1)
    ensures AllPairsDone(nodes, levels, a0, arena, ds)
  {
  }

  /** The levels C built so far, level i with clusters LevelSize(clusterSize, i) tiles
      wide: each laid out on the grid, each one that the stop rule let through, and each
      with every pair of its clusters linked, from the arena built[i] it started from, in
      `arena`. */
  ghost predicate LevelsBuilt(nodes: map<GridTile, nat>, C: seq<seq<Cluster>>, built: seq<seq<Node>>, arena: seq<Node>,
                              clusterSize: int, width: int, height: int)
    requires clusterSize > 0 && width >= 0 && height >= 0
  {
    |built| == |C| &&
    forall i :: 0 <= i < |C| ==>
      LevelLayout(C[..i], C[i], LevelSize(clusterSize, i), width, height) &&
      !SingleCluster(width, height, LevelSize(clusterSize, i)) &&
      AllPairsDone(nodes, C[..i], built[i], arena, C[i])
  }

  /** One more level built on top of the others keeps them built. */
  lemma LevelsBuiltStep(nodes: map<GridTile, nat>, C: seq<seq<Cluster>>, built: seq<seq<Node>>, a: seq<Node>,
                        b: seq<Node>, cs: seq<Cluster>, clusterSize: int, width: int, height: int)
    requires clusterSize > 0 && width >= 0 && height >= 0
    requires LevelsBuilt(nodes, C, built, a, clusterSize, width, height) && Grows(a, b)
    requires LevelLayout(C, cs, LevelSize(clusterSize, |C|), width, height)
    requires !SingleCluster(width, height, LevelSize(clusterSize, |C|))
    requires AllPairsDone(nodes, C, a, b, cs)
    ensures LevelsBuilt(nodes, C + [cs], built + [a], b, clusterSize, width, height)
  {
    var C2, built2 := C + [cs], built + [a];
    forall i | 0 <= i < |C2|
      ensures LevelLayout(C2[..i], C2[i], LevelSize(clusterSize, i), width, height)
      ensures !SingleCluster(width, height, LevelSize(clusterSize, i))
      ensures AllPairsDone(nodes, C2[..i], built2[i], b, C2[i])
    {
      if i < |C| {
        assert C2[..i] == C[..i] && C2[i] == C[i] && built2[i] == built[i];
        AllPairsDoneKept(nodes, C[..i], built[i], a, b, C[i]);
      } else {
        assert C2[..i] == C;
      }
    }
  }

  lemma AllPairsDoneKept(nodes: map<GridTile, nat>, levels: seq<seq<Cluster>>, a0: seq<Node>, a: seq<Node>, b: seq<Node>,
                         ds: seq<Cluster>)
    requires AllPairsDone(nodes, levels, a0, a, ds) && Grows(a, b)
    ensures AllPairsDone(nodes, levels, a0, b, ds)
  {
    forall p, q | 0 <= p < q < |ds|
      ensures PairDone(nodes, levels, a0, b, ds[p], ds[q])
    {
      PairDoneKept(nodes, levels, a0, a, b, ds[p], ds[q], ds[p], ds[q]);
    }
  }

  /** Every edge added from a to b is an INTRA edge of one of the clusters cs: a path of
      b between two of its border nodes inside it. */
  ghost predicate IntraLevel(a: seq<Node>, b: seq<Node>, cs: seq<Cluster>)
  {
    Grows(a, b) && |a| == |b| &&
    forall k, j :: 0 <= k < |a| && |a[k].edges| <= j < |b[k].edges| ==>
      exists q :: 0 <= q < |cs| && IntraOk(b, cs[q], b[k].edges[j])
  }

  lemma IntraLevelNone(a: seq<Node>, cs: seq<Cluster>)
    ensures IntraLevel(a, a, cs)
  {
    GrowsSelf(a);
  }

  lemma IntraLevelStep(a: seq<Node>, b: seq<Node>, c: seq<Node>, cs: seq<Cluster>, q: nat)
    requires IntraLevel(a, b, cs) && q < |cs| && IntraAdded(b, c, cs[q])
    ensures IntraLevel(a, c, cs)
  {
    GrowsTrans(a, b, c);
    forall k, j | 0 <= k < |a| && |a[k].edges| <= j < |c[k].edges|
      ensures exists q' :: 0 <= q' < |cs| && IntraOk(c, cs[q'], c[k].edges[j])
    {
      if j < |b[k].edges| {
        assert c[k].edges[j] == c[k].edges[..|b[k].edges|][j];
        var q' :| 0 <= q' < |cs| && IntraOk(b, cs[q'], b[k].edges[j]);
        IntraOkGrows(b, c, cs[q'], b[k].edges[j]);
      } else {
        assert IntraOk(c, cs[q], c[k].edges[j]);
      }
    }
  }
}
