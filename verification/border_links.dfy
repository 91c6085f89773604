/** The border nodes BuildClusters places between two adjacent clusters
    (Assets/Scripts/GraphUtilities/Graph.cs, CreateConcreteInterEdge and the pair step of
    CreateAbstractInterEdges): each step links a border node of the first cluster with a
    border node of the second, creating either one over its child when its cluster has
    none at that tile yet. A run of such steps is a sequence of ties; the methods of the
    Graph class are proved to produce exactly TieAll of their ties, and the lemmas here
    say what TieAll guarantees. */
module BorderLinks {
  import opened Wrappers
  import opened GridTiles
  import opened HpaTypes
  import opened GraphLayout
  import opened GraphArena

  /** One link: the border node at tile g1 of the first cluster (over child k1) and the
      border node at tile g2 of the second (over child k2). */
  datatype Tie = Tie(g1: GridTile, k1: nat, g2: GridTile, k2: nat)

  /** The arena and the two clusters whose dictionaries the links extend. */
  datatype Sides = Sides(arena: seq<Node>, c1: Cluster, c2: Cluster)

  /** One link: the missing border nodes are appended, then each gets an INTER edge of
      weight 1 to the other. */
  function TieUp(s: Sides, t: Tie): (r: Sides)
    ensures SameShape(s.c1, r.c1) && SameShape(s.c2, r.c2)
    ensures DictGrows(s.c1, r.c1) && DictGrows(s.c2, r.c2)
    ensures t.g1 in r.c1.nodes && t.g2 in r.c2.nodes
  {
    Sides(Linked(s.arena, s.c1, t.g1, t.k1, s.c2, t.g2, t.k2),
          BorderOf(s.c1, t.g1, |s.arena|),
          BorderOf(s.c2, t.g2, |s.arena| + |NewBorder(t.g1 in s.c1.nodes, t.g1, t.k1)|))
  }

  /** The links of ts, in order. */
  function TieAll(s: Sides, ts: seq<Tie>): (r: Sides)
    ensures SameShape(s.c1, r.c1) && SameShape(s.c2, r.c2)
    ensures DictGrows(s.c1, r.c1) && DictGrows(s.c2, r.c2)
  {
    if ts == [] then s else TieUp(TieAll(s, ts[..|ts| - 1]), ts[|ts| - 1])
  }

  /** A valid arena in which both border dictionaries are correct. */
  ghost predicate SidesOk(s: Sides)
  {
    ValidArena(s.arena) && BorderOk(s.arena, s.c1) && BorderOk(s.arena, s.c2)
  }

  /** The tie's children exist in a0 at its tiles, and its tiles lie in their clusters. */
  ghost predicate Fits(a0: seq<Node>, s: Sides, t: Tie)
  {
    t.k1 < |a0| && t.k2 < |a0| && a0[t.k1].pos == t.g1 && a0[t.k2].pos == t.g2 &&
    Contains(s.c1.bounds, t.g1) && Contains(s.c2.bounds, t.g2)
  }

  lemma FitsKept(a0: seq<Node>, a1: seq<Node>, s: Sides, m: Sides, t: Tie)
    requires Fits(a0, s, t) && Keeps(a0, a1)
    requires m.c1.bounds == s.c1.bounds && m.c2.bounds == s.c2.bounds
    ensures Fits(a1, m, t)
  {
  }

  /** One link keeps the arena valid and the dictionaries correct, only appends, and
      pairs the tie's tiles. */
  lemma TieUpOk(s: Sides, t: Tie)
    requires SidesOk(s) && Fits(s.arena, s, t)
    ensures SidesOk(TieUp(s, t)) && Grows(s.arena, TieUp(s, t).arena)
    ensures Paired(TieUp(s, t).arena, TieUp(s, t).c1, TieUp(s, t).c2, t.g1, t.g2)
  {
    var n2 := |s.arena| + |NewBorder(t.g1 in s.c1.nodes, t.g1, t.k1)|;
    LinkedPairs(s.arena, s.c1, t.g1, t.k1, s.c2, t.g2, t.k2, n2);
    LinkedBorders(s.arena, s.c1, t.g1, t.k1, s.c2, t.g2, t.k2, n2);
  }

  /** Whatever the tie, existing nodes keep their tiles and children. */
  lemma TieUpKeeps(s: Sides, t: Tie)
    ensures Keeps(s.arena, TieUp(s, t).arena)
  {
    var a2 := s.arena + NewBorder(t.g1 in s.c1.nodes, t.g1, t.k1) + NewBorder(t.g2 in s.c2.nodes, t.g2, t.k2);
    var n1 := BorderOf(s.c1, t.g1, |s.arena|).nodes[t.g1];
    var n2 := BorderOf(s.c2, t.g2, |s.arena| + |NewBorder(t.g1 in s.c1.nodes, t.g1, t.k1)|).nodes[t.g2];
    if n1 < |a2| && n2 < |a2| {
      forall k | 0 <= k < |s.arena|
        ensures Link(a2, n1, n2)[k].pos == s.arena[k].pos && Link(a2, n1, n2)[k].child == s.arena[k].child
      {
        assert a2[k] == s.arena[k];
      }
    }
  }

  lemma {:induction false} TieAllKeeps(s: Sides, ts: seq<Tie>)
    ensures Keeps(s.arena, TieAll(s, ts).arena)
  {
    if ts != [] {
      var m := TieAll(s, ts[..|ts| - 1]);
      TieAllKeeps(s, ts[..|ts| - 1]);
      TieUpKeeps(m, ts[|ts| - 1]);
      KeepsTrans(s.arena, m.arena, TieAll(s, ts).arena);
    }
  }

  /** The links of ts keep the arena valid and the dictionaries correct, and only
      append. */
  lemma {:induction false} TieAllOk(s: Sides, ts: seq<Tie>)
    requires SidesOk(s) && forall t :: t in ts ==> Fits(s.arena, s, t)
    ensures SidesOk(TieAll(s, ts)) && Grows(s.arena, TieAll(s, ts).arena)
  {
    if ts == [] {
      IntraAddedNone(s.arena, s.c1);
    } else {
      var init, t := ts[..|ts| - 1], ts[|ts| - 1];
      assert forall u :: u in init ==> u in ts;
      TieAllOk(s, init);
      var m := TieAll(s, init);
      assert t in ts;
      TieAllKeeps(s, init);
      FitsKept(s.arena, m.arena, s, m, t);
      TieUpOk(m, t);
      GrowsTrans(s.arena, m.arena, TieUp(m, t).arena);
    }
  }

  /** The links of ts pair the tiles of every tie. */
  lemma {:induction false} TieAllPaired(s: Sides, ts: seq<Tie>)
    requires SidesOk(s) && forall t :: t in ts ==> Fits(s.arena, s, t)
    ensures forall t :: t in ts ==> Paired(TieAll(s, ts).arena, TieAll(s, ts).c1, TieAll(s, ts).c2, t.g1, t.g2)
  {
    if ts != [] {
      var init, t := ts[..|ts| - 1], ts[|ts| - 1];
      assert forall u :: u in init ==> u in ts;
      TieAllPaired(s, init);
      TieAllOk(s, init);
      var m := TieAll(s, init);
      var r := TieUp(m, t);
      assert t in ts;
      TieAllKeeps(s, init);
      FitsKept(s.arena, m.arena, s, m, t);
      TieUpOk(m, t);
      forall u | u in init
        ensures Paired(r.arena, r.c1, r.c2, u.g1, u.g2)
      {
        PairedGrows(m.arena, r.arena, m.c1, r.c1, m.c2, r.c2, u.g1, u.g2);
      }
    }
  }

  /** Border nodes that lie in the arena still do after a link. */
  lemma TieUpNodesIn(s: Sides, t: Tie)
    requires NodesIn(s.c1, 0, |s.arena|) && NodesIn(s.c2, 0, |s.arena|)
    ensures |s.arena| <= |TieUp(s, t).arena|
    ensures NodesIn(TieUp(s, t).c1, 0, |TieUp(s, t).arena|) && NodesIn(TieUp(s, t).c2, 0, |TieUp(s, t).arena|)
  {
  }

  lemma {:induction false} TieAllNodesIn(s: Sides, ts: seq<Tie>)
    requires NodesIn(s.c1, 0, |s.arena|) && NodesIn(s.c2, 0, |s.arena|)
    ensures |s.arena| <= |TieAll(s, ts).arena|
    ensures NodesIn(TieAll(s, ts).c1, 0, |TieAll(s, ts).arena|) && NodesIn(TieAll(s, ts).c2, 0, |TieAll(s, ts).arena|)
  {
    if ts != [] {
      TieAllNodesIn(s, ts[..|ts| - 1]);
      TieUpNodesIn(TieAll(s, ts[..|ts| - 1]), ts[|ts| - 1]);
    }
  }

  /** The links keep each dictionary's enumeration order listing each key once. */
  lemma {:induction false} TieAllDict(s: Sides, ts: seq<Tie>)
    ensures DictOk(s.c1) ==> DictOk(TieAll(s, ts).c1)
    ensures DictOk(s.c2) ==> DictOk(TieAll(s, ts).c2)
  {
    if ts != [] {
      var m := TieAll(s, ts[..|ts| - 1]);
      var t := ts[|ts| - 1];
      TieAllDict(s, ts[..|ts| - 1]);
      BorderOfDictOk(m.c1, t.g1, |m.arena|);
      BorderOfDictOk(m.c2, t.g2, |m.arena| + |NewBorder(t.g1 in m.c1.nodes, t.g1, t.k1)|);
    }
  }

  /** SidesOk, and both dictionaries list each key once and name nodes of the arena. */
  ghost predicate SidesGood(s: Sides)
  {
    SidesOk(s) && DictOk(s.c1) && DictOk(s.c2) && NodesIn(s.c1, 0, |s.arena|) && NodesIn(s.c2, 0, |s.arena|)
  }

  lemma TieAllGood(s: Sides, ts: seq<Tie>)
    requires SidesGood(s) && forall t :: t in ts ==> Fits(s.arena, s, t)
    ensures SidesGood(TieAll(s, ts)) && Grows(s.arena, TieAll(s, ts).arena)
  {
    TieAllOk(s, ts);
    TieAllDict(s, ts);
    TieAllNodesIn(s, ts);
  }

  lemma TieAllSnoc(s: Sides, ts: seq<Tie>, t: Tie)
    ensures TieAll(s, ts + [t]) == TieUp(TieAll(s, ts), t)
  {
    assert (ts + [t])[..|ts|] == ts;
  }

  lemma TieAllOne(s: Sides, t: Tie)
    ensures TieAll(s, [t]) == TieUp(s, t)
  {
    assert [t][..0] == [];
  }

  lemma TieAllTwo(s: Sides, t: Tie, u: Tie)
    ensures TieAll(s, [t, u]) == TieUp(TieUp(s, t), u)
  {
    assert [t, u][..1] == [t];
    TieAllOne(s, t);
  }

  /** The links of a + b are those of a followed by those of b. */
  lemma {:induction false} TieAllConcat(s: Sides, a: seq<Tie>, b: seq<Tie>)
    ensures TieAll(s, a + b) == TieAll(TieAll(s, a), b)
  {
    if b == [] {
      assert a + b == a;
    } else {
      TieAllConcat(s, a, b[..|b| - 1]);
      DropLastConcat(a, b);
    }
  }

  /** CreateConcreteInterEdge at border index i: the facing tiles over their map nodes. */
  function ConcreteTie(nodes: map<GridTile, nat>, b1: Boundaries, b2: Boundaries, x: bool, i: int): (t: Tie)
    requires BothFree(nodes, b1, b2, x, i)
    ensures t.g1 == FacingTiles(b1, b2, x, i).0 && t.g2 == FacingTiles(b1, b2, x, i).1
    ensures t.k1 == nodes[t.g1] && t.k2 == nodes[t.g2]
  {
    var g1 := FacingTiles(b1, b2, x, i).0;
    var g2 := FacingTiles(b1, b2, x, i).1;
    Tie(g1, nodes[g1], g2, nodes[g2])
  }

  /** The concrete links at the border indices ps, in order. */
  function ConcreteTies(nodes: map<GridTile, nat>, b1: Boundaries, b2: Boundaries, x: bool, ps: seq<int>): (r: seq<Tie>)
    requires forall p :: p in ps ==> BothFree(nodes, b1, b2, x, p)
    ensures |r| == |ps| && forall k :: 0 <= k < |ps| ==> r[k] == ConcreteTie(nodes, b1, b2, x, ps[k])
  {
    if ps == [] then [] else ConcreteTies(nodes, b1, b2, x, ps[..|ps| - 1]) + [ConcreteTie(nodes, b1, b2, x, ps[|ps| - 1])]
  }

  lemma ConcreteTiesConcat(nodes: map<GridTile, nat>, b1: Boundaries, b2: Boundaries, x: bool, a: seq<int>, b: seq<int>)
    requires forall p :: p in a + b ==> BothFree(nodes, b1, b2, x, p)
    ensures ConcreteTies(nodes, b1, b2, x, a + b) == ConcreteTies(nodes, b1, b2, x, a) + ConcreteTies(nodes, b1, b2, x, b)
  {
    assert forall p :: p in a ==> p in a + b;
    assert forall p :: p in b ==> p in a + b;
    var l, r := ConcreteTies(nodes, b1, b2, x, a + b), ConcreteTies(nodes, b1, b2, x, a) + ConcreteTies(nodes, b1, b2, x, b);
    forall k | 0 <= k < |l|
      ensures l[k] == r[k]
    {
      if k >= |a| {
        assert (a + b)[k] == b[k - |a|];
      }
    }
  }

  /** Index at which the border of the lower cluster c1 starts. */
  function BorderStart(c1: Cluster, x: bool): int
  {
    if x then c1.bounds.min.y else c1.bounds.min.x
  }

  /** The source's test at every index of the border of the lower cluster c1 with c2. */
  function BorderLine(nodes: map<GridTile, nat>, c1: Cluster, c2: Cluster, x: bool): (r: seq<bool>)
    ensures |r| == BorderLength(c1, x)
  {
    OpenLine(nodes, c1.bounds, c2.bounds, x, BorderStart(c1, x), BorderLength(c1, x))
  }

  /** Number of indices along the border of the lower cluster c1 (none when its extent
      is empty). */
  function BorderLength(c1: Cluster, x: bool): nat
  {
    var n := if x then c1.height else c1.width;
    if n < 0 then 0 else n
  }

  /** At every placement the facing tiles are both free. */
  lemma PlacementsFree(nodes: map<GridTile, nat>, c1: Cluster, c2: Cluster, x: bool)
    ensures forall p :: p in Placements(BorderLine(nodes, c1, c2, x), BorderStart(c1, x), 0) ==>
      BothFree(nodes, c1.bounds, c2.bounds, x, p)
  {
    var open := BorderLine(nodes, c1, c2, x);
    PlacementsAreOpen(open, BorderStart(c1, x), 0);
    forall p | p in Placements(open, BorderStart(c1, x), 0)
      ensures BothFree(nodes, c1.bounds, c2.bounds, x, p)
    {
      assert open[p - BorderStart(c1, x)];
    }
  }

  /** Every placement lies on the border of c1. */
  lemma PlacementsOnBorder(nodes: map<GridTile, nat>, c1: Cluster, c2: Cluster, x: bool)
    requires Sized(c1)
    ensures forall p :: p in Placements(BorderLine(nodes, c1, c2, x), BorderStart(c1, x), 0) ==> OnBorder(c1.bounds, x, p)
  {
    PlacementsAreOpen(BorderLine(nodes, c1, c2, x), BorderStart(c1, x), 0);
  }

  /** The links CreateConcreteBorderNodes makes along the border of c1 with c2. */
  function BorderTies(nodes: map<GridTile, nat>, c1: Cluster, c2: Cluster, x: bool): seq<Tie>
  {
    PlacementsFree(nodes, c1, c2, x);
    ConcreteTies(nodes, c1.bounds, c2.bounds, x, Placements(BorderLine(nodes, c1, c2, x), BorderStart(c1, x), 0))
  }

  /** Where the scan of CreateConcreteBorderNodes stands at index i of a border whose
      tests are `open` from index iMin on, with a run of L free indices not flushed yet:
      the placements made so far followed by those still to come are all of them, and
      every index placed or pending is free. */
  ghost predicate ScanAt(nodes: map<GridTile, nat>, b1: Boundaries, b2: Boundaries, x: bool, open: seq<bool>, iMin: int,
                         i: int, L: nat, placed: seq<int>)
  {
    iMin <= i && i - iMin <= |open| && L <= i - iMin &&
    placed + Pending(open, iMin, i - iMin, L) == Placements(open, iMin, 0) &&
    (forall p :: p in placed ==> BothFree(nodes, b1, b2, x, p)) &&
    (forall p :: i - L <= p < i ==> BothFree(nodes, b1, b2, x, p))
  }

  lemma ScanStart(nodes: map<GridTile, nat>, b1: Boundaries, b2: Boundaries, x: bool, open: seq<bool>, iMin: int)
    ensures ScanAt(nodes, b1, b2, x, open, iMin, iMin, 0, [])
  {
  }

  /** A free index extends the run. */
  lemma ScanOpen(nodes: map<GridTile, nat>, b1: Boundaries, b2: Boundaries, x: bool, open: seq<bool>, iMin: int,
                 i: int, L: nat, placed: seq<int>)
    requires ScanAt(nodes, b1, b2, x, open, iMin, i, L, placed) && i - iMin < |open|
    requires open[i - iMin] && BothFree(nodes, b1, b2, x, i)
    ensures ScanAt(nodes, b1, b2, x, open, iMin, i + 1, L + 1, placed)
  {
    PendingOpen(open, iMin, i - iMin, L);
    assert i + 1 - iMin == i - iMin + 1;
  }

  /** A blocked index flushes the run. */
  lemma ScanClosed(nodes: map<GridTile, nat>, b1: Boundaries, b2: Boundaries, x: bool, open: seq<bool>, iMin: int,
                   i: int, L: nat, placed: seq<int>)
    requires ScanAt(nodes, b1, b2, x, open, iMin, i, L, placed) && i - iMin < |open| && !open[i - iMin]
    ensures ScanAt(nodes, b1, b2, x, open, iMin, i + 1, 0, placed + Flush(i, L))
  {
    var f := i - iMin;
    PendingClosed(open, iMin, f, L);
    assert iMin + f == i && i + 1 - iMin == f + 1;
    var rest := Pending(open, iMin, f + 1, 0);
    assert Pending(open, iMin, f, L) == Flush(i, L) + rest;
    ConcatAssoc(placed, Flush(i, L), rest);
    forall p | p in placed + Flush(i, L)
      ensures BothFree(nodes, b1, b2, x, p)
    {
      if p !in placed {
        assert p in Flush(i, L);
      }
    }
  }

  /** The pending run is free. */
  lemma ScanRun(nodes: map<GridTile, nat>, b1: Boundaries, b2: Boundaries, x: bool, open: seq<bool>, iMin: int,
                i: int, L: nat, placed: seq<int>)
    requires ScanAt(nodes, b1, b2, x, open, iMin, i, L, placed)
    ensures forall p :: p in Flush(i, L) ==> BothFree(nodes, b1, b2, x, p)
  {
  }

  /** One index of the scan along the border of c1 with c2: a free one extends the run, a
      blocked one flushes it. The run and the placements after the step are L2 and
      placed2. */
  lemma ScanStep(nodes: map<GridTile, nat>, c1: Cluster, c2: Cluster, x: bool, open: seq<bool>, iMin: int,
                 i: int, L: nat, placed: seq<int>, free: bool, L2: nat, placed2: seq<int>)
    requires open == BorderLine(nodes, c1, c2, x) && iMin == BorderStart(c1, x)
    requires ScanAt(nodes, c1.bounds, c2.bounds, x, open, iMin, i, L, placed) && i - iMin < |open|
    requires free == BothFree(nodes, c1.bounds, c2.bounds, x, i)
    requires L2 == (if free then L + 1 else 0) && placed2 == placed + (if free then [] else Flush(i, L))
    ensures ScanAt(nodes, c1.bounds, c2.bounds, x, open, iMin, i + 1, L2, placed2)
  {
    assert open[i - iMin] == free;
    if free {
      ScanOpen(nodes, c1.bounds, c2.bounds, x, open, iMin, i, L, placed);
      assert placed + [] == placed;
    } else {
      ScanClosed(nodes, c1.bounds, c2.bounds, x, open, iMin, i, L, placed);
    }
  }

  /** At the end of the border the last run is flushed. */
  lemma ScanEnd(nodes: map<GridTile, nat>, b1: Boundaries, b2: Boundaries, x: bool, open: seq<bool>, iMin: int,
                i: int, L: nat, placed: seq<int>)
    requires ScanAt(nodes, b1, b2, x, open, iMin, i, L, placed) && i - iMin == |open|
    ensures forall p :: p in Flush(i, L) ==> BothFree(nodes, b1, b2, x, p)
    ensures placed + Flush(i, L) == Placements(open, iMin, 0)
  {
    PendingEnd(open, iMin, L);
    assert iMin + |open| == i;
  }

  /** Flushing a run f after the placements made so far links their ties, then the
      run's; placed2 is the placements after the flush and st the state it leaves. */
  lemma ConcreteTiesStep(s: Sides, nodes: map<GridTile, nat>, b1: Boundaries, b2: Boundaries, x: bool,
                         placed: seq<int>, f: seq<int>, placed2: seq<int>, st: Sides)
    requires forall p :: p in placed ==> BothFree(nodes, b1, b2, x, p)
    requires forall p :: p in f ==> BothFree(nodes, b1, b2, x, p)
    requires placed2 == placed + f
    requires st == TieAll(TieAll(s, ConcreteTies(nodes, b1, b2, x, placed)), ConcreteTies(nodes, b1, b2, x, f))
    ensures forall p :: p in placed2 ==> BothFree(nodes, b1, b2, x, p)
    ensures st == TieAll(s, ConcreteTies(nodes, b1, b2, x, placed2))
  {
    ConcreteTiesConcat(nodes, b1, b2, x, placed, f);
    TieAllConcat(s, ConcreteTies(nodes, b1, b2, x, placed), ConcreteTies(nodes, b1, b2, x, f));
  }

  /** One index of the scan of CreateConcreteBorderNodes, free or blocked, together with
      the links the flush of a blocked one makes: mid is the state before the index and
      st the state after it; i2, L2 and placed2 are the index, the run and the
      placements after it. */
  lemma BorderStep(s0: Sides, nodes: map<GridTile, nat>, c1: Cluster, c2: Cluster, x: bool, open: seq<bool>, iMin: int,
                   i: int, L: nat, placed: seq<int>, free: bool, i2: int, L2: nat, placed2: seq<int>, mid: Sides, st: Sides)
    requires open == BorderLine(nodes, c1, c2, x) && iMin == BorderStart(c1, x)
    requires ScanAt(nodes, c1.bounds, c2.bounds, x, open, iMin, i, L, placed) && i - iMin < |open|
    requires free == BothFree(nodes, c1.bounds, c2.bounds, x, i)
    requires i2 == i + 1 && L2 == (if free then L + 1 else 0) && placed2 == placed + (if free then [] else Flush(i, L))
    requires mid == TieAll(s0, ConcreteTies(nodes, c1.bounds, c2.bounds, x, placed))
    requires st == TieAll(mid, ConcreteTies(nodes, c1.bounds, c2.bounds, x, if free then [] else Flush(i, L)))
    ensures ScanAt(nodes, c1.bounds, c2.bounds, x, open, iMin, i2, L2, placed2)
    ensures st == TieAll(s0, ConcreteTies(nodes, c1.bounds, c2.bounds, x, placed2))
  {
    ScanStep(nodes, c1, c2, x, open, iMin, i, L, placed, free, L2, placed2);
    ConcreteTiesStep(s0, nodes, c1.bounds, c2.bounds, x, placed, if free then [] else Flush(i, L), placed2, st);
  }

  /** The concrete ties between two adjacent clusters fit: the facing tiles are free map
      tiles inside their clusters. */
  lemma ConcreteTiesFit(nodes: map<GridTile, nat>, s: Sides, x: bool, ps: seq<int>)
    requires NodesAt(s.arena, nodes)
    requires Touching(s.c1.bounds, s.c2.bounds, x) && SameSpan(s.c1.bounds, s.c2.bounds, x)
    requires Proper(s.c1.bounds) && Proper(s.c2.bounds)
    requires forall p :: p in ps ==> OnBorder(s.c1.bounds, x, p) && BothFree(nodes, s.c1.bounds, s.c2.bounds, x, p)
    ensures forall t :: t in ConcreteTies(nodes, s.c1.bounds, s.c2.bounds, x, ps) ==> Fits(s.arena, s, t)
  {
    var ts := ConcreteTies(nodes, s.c1.bounds, s.c2.bounds, x, ps);
    forall t | t in ts
      ensures Fits(s.arena, s, t)
    {
      var k :| 0 <= k < |ts| && ts[k] == t;
      FacingTilesInside(s.c1.bounds, s.c2.bounds, x, ps[k]);
    }
  }

  /** What CreateConcreteBorderNodes achieves between adjacent clusters c1 (lower) and
      c2: the arena stays valid and only grows, both dictionaries stay correct, and the
      facing tiles at every placement of the border are paired. */
  lemma ConcreteBorderOk(nodes: map<GridTile, nat>, s: Sides, x: bool)
    requires SidesOk(s) && NodesAt(s.arena, nodes) && Sized(s.c1)
    requires Touching(s.c1.bounds, s.c2.bounds, x) && SameSpan(s.c1.bounds, s.c2.bounds, x)
    requires Proper(s.c1.bounds) && Proper(s.c2.bounds)
    ensures SidesOk(TieAll(s, BorderTies(nodes, s.c1, s.c2, x)))
    ensures Grows(s.arena, TieAll(s, BorderTies(nodes, s.c1, s.c2, x)).arena)
    ensures forall p :: p in Placements(BorderLine(nodes, s.c1, s.c2, x), BorderStart(s.c1, x), 0) ==>
      Paired(TieAll(s, BorderTies(nodes, s.c1, s.c2, x)).arena, TieAll(s, BorderTies(nodes, s.c1, s.c2, x)).c1,
             TieAll(s, BorderTies(nodes, s.c1, s.c2, x)).c2,
             FacingTiles(s.c1.bounds, s.c2.bounds, x, p).0, FacingTiles(s.c1.bounds, s.c2.bounds, x, p).1)
  {
    var ps := Placements(BorderLine(nodes, s.c1, s.c2, x), BorderStart(s.c1, x), 0);
    PlacementsFree(nodes, s.c1, s.c2, x);
    PlacementsOnBorder(nodes, s.c1, s.c2, x);
    var ts := ConcreteTies(nodes, s.c1.bounds, s.c2.bounds, x, ps);
    ConcreteTiesFit(nodes, s, x, ps);
    TieAllOk(s, ts);
    TieAllPaired(s, ts);
    forall p | p in ps
      ensures FacingTiles(s.c1.bounds, s.c2.bounds, x, p).0 == ConcreteTie(nodes, s.c1.bounds, s.c2.bounds, x, p).g1
      ensures ConcreteTie(nodes, s.c1.bounds, s.c2.bounds, x, p) in ts
    {
      var k :| 0 <= k < |ps| && ps[k] == p;
      assert ts[k] == ConcreteTie(nodes, s.c1.bounds, s.c2.bounds, x, p);
    }
  }
}
