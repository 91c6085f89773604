/** The integer geometry of the abstraction (Assets/Scripts/GraphUtilities/Graph.cs): how
    many levels are built and how large their clusters are, where each cluster lies, which
    cluster pairs touch, and where border nodes go along a shared border. */
module GraphLayout {
  import opened GridTiles
  import opened HpaTypes

  /** `Mathf.CeilToInt((float)a / b)`, computed exactly on integers. */
  function CeilDiv(a: int, b: int): (r: int)
    requires a >= 0 && b > 0
    ensures r >= 0
    ensures (r - 1) * b < a <= r * b
  {
    (a + b - 1) / b
  }

  /** The cluster size of a level: the given size at level 0, three times the size of the
      level below above it. */
  function LevelSize(size: int, level: nat): (r: int)
    requires size > 0
    ensures r >= size
  {
    if level == 0 then size else 3 * LevelSize(size, level - 1)
  }

  /** The stop rule: at this cluster size there is at most one cluster along each axis. */
  predicate SingleCluster(width: int, height: int, size: int)
    requires width >= 0 && height >= 0 && size > 0
  {
    CeilDiv(width, size) <= 1 && CeilDiv(height, size) <= 1
  }

  lemma CeilDivAtMostOne(a: int, b: int)
    requires a >= 0 && b > 0
    ensures CeilDiv(a, b) <= 1 <==> a <= b
  {
    var r := CeilDiv(a, b);
    if r >= 2 {
      assert (r - 1) * b >= b by { MulMono(1, r - 1, b); }
    } else if r == 1 {
      assert r * b == b;
    } else {
      assert r * b == 0;
    }
  }

  lemma MulMono(a: int, c: int, b: int)
    requires a <= c && b >= 0
    ensures a * b <= c * b
  {
    assert c * b - a * b == (c - a) * b;
  }

  /** A level is the last useful one exactly when a single cluster covers the whole map. */
  lemma SingleClusterCoversMap(width: int, height: int, size: int)
    requires width >= 0 && height >= 0 && size > 0
    ensures SingleCluster(width, height, size) <==> width <= size && height <= size
  {
    CeilDivAtMostOne(width, size);
    CeilDivAtMostOne(height, size);
  }

  function Min(a: int, b: int): int
  {
    if a < b then a else b
  }

  /** The rectangle of cluster (i, j), row i and column j, of a level whose clusters are
      `size` tiles wide, clipped to the map. */
  function ClusterBounds(i: int, j: int, size: int, width: int, height: int): (b: Boundaries)
    ensures b.min == GridTile(j * size, i * size)
    ensures b.max.x == Min(j * size + size - 1, width - 1) && b.max.y == Min(i * size + size - 1, height - 1)
  {
    Boundaries(GridTile(j * size, i * size),
               GridTile(Min(j * size + size - 1, width - 1), Min(i * size + size - 1, height - 1)))
  }

  /** On one axis, coordinate v lies in the band of band index j exactly when j == v / size. */
  lemma BandIndex(v: int, j: int, size: int)
    requires v >= 0 && j >= 0 && size > 0
    ensures (j * size <= v < j * size + size) <==> j == v / size
  {
    var q := v / size;
    assert q * size <= v < q * size + size;
    if j < q {
      MulMono(j + 1, q, size);
      assert (j + 1) * size == j * size + size;
    } else if q < j {
      MulMono(q + 1, j, size);
      assert (q + 1) * size == q * size + size;
    }
  }

  /** The clusters of a level tile the map: a tile of the map lies in cluster (i, j)
      exactly when i and j are its row and column divided by the cluster size, and that
      cluster is one of the CeilDiv(height, size) x CeilDiv(width, size) built. */
  lemma {:induction false} ClustersTileMap(size: int, width: int, height: int, t: GridTile, i: int, j: int)
    requires size > 0 && 0 <= t.x < width && 0 <= t.y < height && i >= 0 && j >= 0
    ensures Contains(ClusterBounds(i, j, size, width, height), t) <==> i == t.y / size && j == t.x / size
    ensures t.y / size < CeilDiv(height, size) && t.x / size < CeilDiv(width, size)
  {
    BandIndex(t.x, j, size);
    BandIndex(t.y, i, size);
    BandBound(t.x, width, size);
    BandBound(t.y, height, size);
  }

  lemma BandBound(v: int, n: int, size: int)
    requires 0 <= v < n && size > 0
    ensures v / size < CeilDiv(n, size)
  {
    var q := v / size;
    var r := CeilDiv(n, size);
    assert q * size <= v;
    if q >= r {
      MulMono(r, q, size);
    }
  }

  /** Two rectangles touch along a border with `lo` on the lower-coordinate side: side by
      side (same top row, x: true) or one above the other (same left column, x: false). */
  predicate Touching(lo: Boundaries, hi: Boundaries, x: bool)
  {
    if x then lo.min.y == hi.min.y && lo.max.x + 1 == hi.min.x
    else lo.min.x == hi.min.x && lo.max.y + 1 == hi.min.y
  }

  predicate Proper(b: Boundaries)
  {
    b.min.x <= b.max.x && b.min.y <= b.max.y
  }

  /** The decision DetectAdjacentClusters takes for the pair (c1, c2). */
  datatype Adjacency = Apart | Adjacent(firstIsLower: bool, x: bool)

  function DetectAdjacency(b1: Boundaries, b2: Boundaries): (r: Adjacency)
    ensures r.Adjacent? && r.firstIsLower ==> Touching(b1, b2, r.x)
    ensures r.Adjacent? && !r.firstIsLower ==> Touching(b2, b1, r.x)
    ensures r.Apart? && Proper(b1) && Proper(b2) ==>
      !Touching(b1, b2, true) && !Touching(b1, b2, false) &&
      !Touching(b2, b1, true) && !Touching(b2, b1, false)
  {
    if b1.min.x == b2.min.x then
      if b1.max.y + 1 == b2.min.y then Adjacent(true, false)
      else if b2.max.y + 1 == b1.min.y then Adjacent(false, false)
      else Apart
    else if b1.min.y == b2.min.y then
      if b1.max.x + 1 == b2.min.x then Adjacent(true, true)
      else if b2.max.x + 1 == b1.min.x then Adjacent(false, true)
      else Apart
    else Apart
  }

  /** The two facing tiles at index i of the border between lo and hi: the last column of
      lo and the first column of hi when x, the last and first rows otherwise. */
  function FacingTiles(lo: Boundaries, hi: Boundaries, x: bool, i: int): (GridTile, GridTile)
  {
    if x then (GridTile(lo.max.x, i), GridTile(hi.min.x, i))
    else (GridTile(i, lo.max.y), GridTile(i, hi.min.y))
  }

  /** The number of consecutive open positions from `from` on. */
  function RunLength(open: seq<bool>, from: nat): (n: nat)
    ensures from <= |open| ==> from + n <= |open|
    ensures from < |open| && open[from] ==> n >= 1
    ensures forall k :: from <= k < from + n ==> k < |open| && open[k]
    ensures from + n < |open| ==> !open[from + n]
    decreases |open| - from
  {
    if from < |open| && open[from] then 1 + RunLength(open, from + 1) else 0
  }

  /** The border indices that get a pair of border nodes for a run of L open positions
      that ends just before index i: one in the middle of a run of at most 5, both ends
      of a longer run. */
  function Flush(i: int, L: nat): (r: seq<int>)
    ensures forall p :: p in r ==> i - L <= p < i
    ensures |r| == (if L == 0 then 0 else if L <= 5 then 1 else 2)
  {
    if L == 0 then [] else if L <= 5 then [i - (L / 2 + 1)] else [i - L, i - 1]
  }

  /** The border indices, offset by `base`, at which pairs are placed along a border
      whose open positions are `open`, one maximal run after another from `from` on. */
  function Placements(open: seq<bool>, base: int, from: nat): seq<int>
    decreases |open| - from
  {
    if from >= |open| then []
    else if !open[from] then Placements(open, base, from + 1)
    else
      var L := RunLength(open, from);
      Flush(base + from + L, L) + Placements(open, base, from + L)
  }

  /** Every pair is placed at an open position of a run: both facing tiles are free. */
  lemma {:induction false} PlacementsAreOpen(open: seq<bool>, base: int, from: nat)
    ensures forall p :: p in Placements(open, base, from) ==>
      base + from <= p < base + |open| && open[p - base]
    decreases |open| - from
  {
    if from < |open| {
      if !open[from] {
        PlacementsAreOpen(open, base, from + 1);
      } else {
        var L := RunLength(open, from);
        PlacementsAreOpen(open, base, from + L);
        assert Placements(open, base, from) == Flush(base + from + L, L) + Placements(open, base, from + L);
      }
    }
  }

  /** The two clusters of a touching pair also end on the same row (side by side) or the
      same column (one above the other), so their shared border has one length. */
  predicate SameSpan(lo: Boundaries, hi: Boundaries, x: bool)
  {
    if x then lo.max.y == hi.max.y else lo.max.x == hi.max.x
  }

  /** Index i runs along the border of lo: a row of lo when x, a column otherwise. */
  predicate OnBorder(lo: Boundaries, x: bool, i: int)
  {
    if x then lo.min.y <= i <= lo.max.y else lo.min.x <= i <= lo.max.x
  }

  /** The facing tiles of a border index lie in their clusters, on either side of the
      border, so they differ. */
  lemma FacingTilesInside(lo: Boundaries, hi: Boundaries, x: bool, i: int)
    requires Touching(lo, hi, x) && SameSpan(lo, hi, x) && Proper(lo) && Proper(hi) && OnBorder(lo, x, i)
    ensures Contains(lo, FacingTiles(lo, hi, x, i).0) && Contains(hi, FacingTiles(lo, hi, x, i).1)
    ensures FacingTiles(lo, hi, x, i).0 != FacingTiles(lo, hi, x, i).1
  {
  }

  /** The source's test at border index i: both facing tiles have map nodes. */
  predicate BothFree(nodes: map<GridTile, nat>, lo: Boundaries, hi: Boundaries, x: bool, i: int)
  {
    FacingTiles(lo, hi, x, i).0 in nodes && FacingTiles(lo, hi, x, i).1 in nodes
  }

  /** The test along the whole border, from index iMin on. */
  function OpenLine(nodes: map<GridTile, nat>, lo: Boundaries, hi: Boundaries, x: bool, iMin: int, len: nat): (r: seq<bool>)
    ensures |r| == len
    ensures forall q :: 0 <= q < len ==> r[q] == BothFree(nodes, lo, hi, x, iMin + q)
  {
    if len == 0 then [] else OpenLine(nodes, lo, hi, x, iMin, len - 1) + [BothFree(nodes, lo, hi, x, iMin + len - 1)]
  }

  /** The placements still to come at position `from` of the scan, with a run of L open
      positions just before it that has not been flushed yet. */
  function Pending(open: seq<bool>, base: int, from: nat, L: nat): seq<int>
  {
    if L == 0 then Placements(open, base, from)
    else
      var R := RunLength(open, from);
      Flush(base + from + R, L + R) + Placements(open, base, from + R)
  }

  /** An open position extends the run. */
  lemma PendingOpen(open: seq<bool>, base: int, from: nat, L: nat)
    requires from < |open| && open[from]
    ensures Pending(open, base, from, L) == Pending(open, base, from + 1, L + 1)
  {
  }

  /** A closed position flushes the run and restarts after it. */
  lemma PendingClosed(open: seq<bool>, base: int, from: nat, L: nat)
    requires from < |open| && !open[from]
    ensures Pending(open, base, from, L) == Flush(base + from, L) + Pending(open, base, from + 1, 0)
  {
  }

  /** At the end of the border only the last run is left. */
  lemma PendingEnd(open: seq<bool>, base: int, L: nat)
    ensures Pending(open, base, |open|, L) == Flush(base + |open|, L)
  {
  }

  /** Row-major numbering of the clusters: cluster k is in row k / cw and column k % cw. */
  lemma RowMajor(i: int, j: int, cw: int)
    requires i >= 0 && 0 <= j < cw
    ensures (i * cw + j) / cw == i && (i * cw + j) % cw == j
  {
    var n := i * cw + j;
    var q := n / cw;
    var r := n % cw;
    assert q * cw + r == i * cw + j;
    if q < i {
      MulMono(q + 1, i, cw);
    } else if q > i {
      MulMono(i + 1, q, cw);
    }
  }

  /** A cluster of the layout is a non-empty rectangle. */
  lemma LayoutProper(i: int, j: int, size: int, width: int, height: int)
    requires size > 0 && width >= 0 && height >= 0
    requires 0 <= i < CeilDiv(height, size) && 0 <= j < CeilDiv(width, size)
    ensures Proper(ClusterBounds(i, j, size, width, height))
  {
    MulMono(j, CeilDiv(width, size) - 1, size);
    MulMono(i, CeilDiv(height, size) - 1, size);
  }

  lemma MulCancel(a: int, b: int, size: int)
    requires size > 0 && a * size == b * size
    ensures a == b
  {
    if a < b {
      MulMono(a + 1, b, size);
    } else if b < a {
      MulMono(b + 1, a, size);
    }
  }

  /** Two clusters of one layout that touch share their whole border. */
  lemma LayoutSameSpan(i1: int, j1: int, i2: int, j2: int, size: int, width: int, height: int, x: bool)
    requires size > 0
    requires Touching(ClusterBounds(i1, j1, size, width, height), ClusterBounds(i2, j2, size, width, height), x)
    ensures SameSpan(ClusterBounds(i1, j1, size, width, height), ClusterBounds(i2, j2, size, width, height), x)
  {
    if x {
      MulCancel(i1, i2, size);
    } else {
      MulCancel(j1, j2, size);
    }
  }
}
