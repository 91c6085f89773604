/** The border nodes BuildClusters places above level 0 (Assets/Scripts/GraphUtilities/
    Graph.cs, CreateAbstractBorderNodes and CreateAbstractInterEdges): for every pair of
    touching lower-level clusters of two adjacent parents, the INTER edges leaving each
    lower cluster into the other are collected, and every edge of the first that has a
    twin coming back from the second is lifted into a tie between the two parents. */
module AbstractLinks {
  import opened Wrappers
  import opened GridTiles
  import opened HpaTypes
  import opened GraphLayout
  import opened GraphArena
  import opened BorderLinks

  /** The INTER edges of es whose end node lies inside b, in order. */
  function InterOut(arena: seq<Node>, es: seq<Edge>, b: Boundaries): (r: seq<Edge>)
    ensures |r| <= |es|
  {
    if es == [] then []
    else
      var e := es[|es| - 1];
      InterOut(arena, es[..|es| - 1], b) +
      (if e.kind == INTER && e.end < |arena| && Contains(b, arena[e.end].pos) then [e] else [])
  }

  /** InterOut keeps exactly the INTER edges of es whose end lies inside b. */
  lemma {:induction false} InterOutMeaning(arena: seq<Node>, es: seq<Edge>, b: Boundaries)
    ensures forall e :: e in InterOut(arena, es, b) <==>
      e in es && e.kind == INTER && e.end < |arena| && Contains(b, arena[e.end].pos)
  {
    if es != [] {
      var e := es[|es| - 1];
      assert es == es[..|es| - 1] + [e];
      InterOutMeaning(arena, es[..|es| - 1], b);
    }
  }

  /** InterOut over one more edge of es. */
  lemma InterOutSnoc(arena: seq<Node>, es: seq<Edge>, b: Boundaries, j: nat)
    requires j < |es|
    ensures InterOut(arena, es[..j + 1], b) == InterOut(arena, es[..j], b) +
      (if es[j].kind == INTER && es[j].end < |arena| && Contains(b, arena[es[j].end].pos) then [es[j]] else [])
  {
    assert es[..j + 1][..j] == es[..j];
  }

  /** The edges that one of CreateAbstractInterEdges' collecting loops gathers from the
      first n keys of c's dictionary, in enumeration order: the INTER edges of c's border
      nodes that end inside b. */
  function InterEdges(arena: seq<Node>, c: Cluster, b: Boundaries, n: nat): seq<Edge>
    requires n <= |c.order|
  {
    if n == 0 then []
    else
      var g := c.order[n - 1];
      InterEdges(arena, c, b, n - 1) +
      (if g in c.nodes && c.nodes[g] < |arena| then InterOut(arena, arena[c.nodes[g]].edges, b) else [])
  }

  /** Edge e is stored in one of the first n border nodes of c. */
  ghost predicate FromFirst(arena: seq<Node>, c: Cluster, n: nat, e: Edge)
  {
    exists k :: 0 <= k < n && k < |c.order| && c.order[k] in c.nodes && c.nodes[c.order[k]] < |arena| &&
      e in arena[c.nodes[c.order[k]]].edges
  }

  lemma {:induction false} InterEdgesPrefix(arena: seq<Node>, c: Cluster, b: Boundaries, n: nat)
    requires n <= |c.order|
    ensures forall e :: e in InterEdges(arena, c, b, n) <==>
      FromFirst(arena, c, n, e) && e.kind == INTER && e.end < |arena| && Contains(b, arena[e.end].pos)
  {
    if n > 0 {
      InterEdgesPrefix(arena, c, b, n - 1);
      var g := c.order[n - 1];
      if g in c.nodes && c.nodes[g] < |arena| {
        InterOutMeaning(arena, arena[c.nodes[g]].edges, b);
      }
      forall e | FromFirst(arena, c, n, e)
        ensures FromFirst(arena, c, n - 1, e) ||
          (c.order[n - 1] in c.nodes && c.nodes[c.order[n - 1]] < |arena| && e in arena[c.nodes[c.order[n - 1]]].edges)
      {
        var k :| 0 <= k < n && k < |c.order| && c.order[k] in c.nodes && c.nodes[c.order[k]] < |arena| &&
          e in arena[c.nodes[c.order[k]]].edges;
        if k < n - 1 {
          assert FromFirst(arena, c, n - 1, e);
        }
      }
      forall e | c.order[n - 1] in c.nodes && c.nodes[c.order[n - 1]] < |arena| && e in arena[c.nodes[c.order[n - 1]]].edges
        ensures FromFirst(arena, c, n, e)
      {
        assert 0 <= n - 1 < n;
      }
      forall e | FromFirst(arena, c, n - 1, e)
        ensures FromFirst(arena, c, n, e)
      {
      }
    }
  }

  /** The collected edges are exactly the INTER edges from c's border nodes into d. */
  lemma InterEdgesMeaning(arena: seq<Node>, c: Cluster, d: Cluster)
    requires ValidArena(arena) && DictOk(c) && NodesIn(c, 0, |arena|)
    ensures forall e :: e in InterEdges(arena, c, d.bounds, |c.order|) <==> InterInto(arena, c, d, e)
  {
    InterEdgesPrefix(arena, c, d.bounds, |c.order|);
    forall e
      ensures FromFirst(arena, c, |c.order|, e) <==> e.start in c.nodes.Values && e.start < |arena| && e in arena[e.start].edges
    {
      StoredInBorder(arena, c, e);
    }
  }

  /** An edge is stored in a border node of c exactly when it starts at one. */
  lemma StoredInBorder(arena: seq<Node>, c: Cluster, e: Edge)
    requires ValidArena(arena) && DictOk(c) && NodesIn(c, 0, |arena|)
    ensures FromFirst(arena, c, |c.order|, e) <==> e.start in c.nodes.Values && e.start < |arena| && e in arena[e.start].edges
  {
    if FromFirst(arena, c, |c.order|, e) {
      var k :| 0 <= k < |c.order| && c.order[k] in c.nodes && c.nodes[c.order[k]] < |arena| &&
        e in arena[c.nodes[c.order[k]]].edges;
      var n := c.nodes[c.order[k]];
      var q :| 0 <= q < |arena[n].edges| && arena[n].edges[q] == e;
      assert e.start == n;
    }
    if e.start in c.nodes.Values && e.start < |arena| && e in arena[e.start].edges {
      var g :| g in c.nodes && c.nodes[g] == e.start;
      var k :| 0 <= k < |c.order| && c.order[k] == g;
    }
  }

  /** Every collected edge joins two nodes of the arena. */
  predicate EdgesIn(arena: seq<Node>, es: seq<Edge>)
  {
    forall k :: 0 <= k < |es| ==> es[k].start < |arena| && es[k].end < |arena|
  }

  lemma InterEdgesIn(arena: seq<Node>, c: Cluster, b: Boundaries)
    requires ValidArena(arena)
    ensures EdgesIn(arena, InterEdges(arena, c, b, |c.order|))
  {
    var es := InterEdges(arena, c, b, |c.order|);
    InterEdgesPrefix(arena, c, b, |c.order|);
    forall i | 0 <= i < |es|
      ensures es[i].start < |arena| && es[i].end < |arena|
    {
      assert es[i] in es;
      var k :| 0 <= k < |c.order| && c.order[k] in c.nodes && c.nodes[c.order[k]] < |arena| &&
        es[i] in arena[c.nodes[c.order[k]]].edges;
      var n := c.nodes[c.order[k]];
      var q :| 0 <= q < |arena[n].edges| && arena[n].edges[q] == es[i];
    }
  }

  /** Some edge of es comes back from the node e ends at. */
  predicate HasTwin(es: seq<Edge>, e: Edge)
  {
    exists k :: 0 <= k < |es| && es[k].start == e.end
  }

  /** The inner loop of CreateAbstractInterEdges: looks in e2s for the first edge that
      starts where e1 ends. */
  method FindTwin(e1: Edge, e2s: seq<Edge>) returns (found: bool, j: nat)
    ensures found <==> HasTwin(e2s, e1)
    ensures found ==> j < |e2s| && e2s[j].start == e1.end && forall q :: 0 <= q < j ==> e2s[q].start != e1.end
  {
    j := 0;
    while j < |e2s|
      invariant j <= |e2s|
      invariant forall q :: 0 <= q < j ==> e2s[q].start != e1.end
    {
      if e1.end == e2s[j].start {
        return true, j;
      }
      j := j + 1;
    }
    return false, j;
  }

  /** The tie an edge with a twin is lifted to: border nodes at the tiles of its two ends,
      over those ends. */
  function TwinTie(arena: seq<Node>, e: Edge): (t: Tie)
    requires e.start < |arena| && e.end < |arena|
    ensures t.k1 == e.start && t.k2 == e.end && t.g1 == arena[e.start].pos && t.g2 == arena[e.end].pos
  {
    Tie(arena[e.start].pos, e.start, arena[e.end].pos, e.end)
  }

  /** The pair loop of CreateAbstractInterEdges: in the order of e1s, one tie for every
      edge that has a twin in e2s; the loop breaks at the first twin, so later twins add
      nothing. */
  function AbstractTies(arena: seq<Node>, e1s: seq<Edge>, e2s: seq<Edge>): (r: seq<Tie>)
    requires EdgesIn(arena, e1s)
    ensures |r| <= |e1s|
    ensures forall e :: e in e1s && HasTwin(e2s, e) ==> TwinTie(arena, e) in r
    ensures forall t :: t in r ==> exists e :: e in e1s && HasTwin(e2s, e) && t == TwinTie(arena, e)
  {
    if e1s == [] then []
    else
      var e := e1s[|e1s| - 1];
      assert e1s == e1s[..|e1s| - 1] + [e];
      AbstractTies(arena, e1s[..|e1s| - 1], e2s) + (if HasTwin(e2s, e) then [TwinTie(arena, e)] else [])
  }

  /** CreateAbstractInterEdges for the lower clusters c1 (inside s.c1) and c2 (inside
      s.c2). The guard holds for every valid arena (InterEdgesIn). */
  function LiftPair(s: Sides, c1: Cluster, c2: Cluster): (r: Sides)
    ensures SameShape(s.c1, r.c1) && SameShape(s.c2, r.c2) && DictGrows(s.c1, r.c1) && DictGrows(s.c2, r.c2)
  {
    var e1s := InterEdges(s.arena, c1, c2.bounds, |c1.order|);
    var e2s := InterEdges(s.arena, c2, c1.bounds, |c2.order|);
    if EdgesIn(s.arena, e1s) then TieAll(s, AbstractTies(s.arena, e1s, e2s)) else s
  }

  /** Lower cluster c lies inside parent p and has a correct dictionary over the arena. */
  ghost predicate LowerClusterOk(arena: seq<Node>, c: Cluster, p: Cluster)
  {
    ContainsRect(p.bounds, c.bounds) && BorderOk(arena, c) && DictOk(c) && NodesIn(c, 0, |arena|)
  }

  /** Every lower cluster that parent p lists is one of `lower` and LowerClusterOk. */
  ghost predicate LowerOk(arena: seq<Node>, lower: seq<Cluster>, p: Cluster)
  {
    forall k :: k in p.clusters ==> k < |lower| && LowerClusterOk(arena, lower[k], p)
  }

  lemma LowerKept(a: seq<Node>, b: seq<Node>, c: Cluster, p: Cluster, q: Cluster)
    requires LowerClusterOk(a, c, p) && Grows(a, b) && q.bounds == p.bounds
    ensures LowerClusterOk(b, c, q)
  {
    GrowsKeeps(a, b);
    BorderOkKept(a, b, c);
  }

  lemma LowerOkKept(a: seq<Node>, b: seq<Node>, lower: seq<Cluster>, p: Cluster, q: Cluster)
    requires LowerOk(a, lower, p) && Grows(a, b) && q.bounds == p.bounds && q.clusters == p.clusters
    ensures LowerOk(b, lower, q)
  {
    forall k | k in q.clusters
      ensures k < |lower| && LowerClusterOk(b, lower[k], q)
    {
      LowerKept(a, b, lower[k], p, q);
    }
  }

  /** Every tie of a lifted pair has its children at its tiles, inside the parents. */
  lemma LiftedTiesFit(s: Sides, c1: Cluster, c2: Cluster)
    requires SidesGood(s) && LowerClusterOk(s.arena, c1, s.c1) && LowerClusterOk(s.arena, c2, s.c2)
    ensures EdgesIn(s.arena, InterEdges(s.arena, c1, c2.bounds, |c1.order|))
    ensures forall t ::
      t in AbstractTies(s.arena, InterEdges(s.arena, c1, c2.bounds, |c1.order|), InterEdges(s.arena, c2, c1.bounds, |c2.order|)) ==>
      Fits(s.arena, s, t)
  {
    var a := s.arena;
    var e1s := InterEdges(a, c1, c2.bounds, |c1.order|);
    var e2s := InterEdges(a, c2, c1.bounds, |c2.order|);
    InterEdgesMeaning(a, c1, c2);
    InterEdgesIn(a, c1, c2.bounds);
    forall t | t in AbstractTies(a, e1s, e2s)
      ensures Fits(a, s, t)
    {
      var e :| e in e1s && HasTwin(e2s, e) && t == TwinTie(a, e);
      TwinTieFits(s, c1, c2, e);
    }
  }

  /** The tie of one edge from c1 into c2 has its tiles inside the parents. */
  lemma TwinTieFits(s: Sides, c1: Cluster, c2: Cluster, e: Edge)
    requires LowerClusterOk(s.arena, c1, s.c1) && ContainsRect(s.c2.bounds, c2.bounds)
    requires InterInto(s.arena, c1, c2, e)
    ensures Fits(s.arena, s, TwinTie(s.arena, e))
  {
    var g :| g in c1.nodes && c1.nodes[g] == e.start;
  }

  /** Lifting one pair keeps the parents' dictionaries correct and only appends; and every
      twin pair between c1 and c2 ends up as paired border nodes of the parents at the
      tiles of the twins' ends. */
  lemma LiftPairGood(s: Sides, c1: Cluster, c2: Cluster)
    requires SidesGood(s) && LowerClusterOk(s.arena, c1, s.c1) && LowerClusterOk(s.arena, c2, s.c2)
    ensures SidesGood(LiftPair(s, c1, c2)) && Grows(s.arena, LiftPair(s, c1, c2).arena)
    ensures Lifted(LiftPair(s, c1, c2).arena, LiftPair(s, c1, c2).c1, LiftPair(s, c1, c2).c2, c1, c2, s.arena)
  {
    var a := s.arena;
    var e1s := InterEdges(a, c1, c2.bounds, |c1.order|);
    var e2s := InterEdges(a, c2, c1.bounds, |c2.order|);
    LiftedTiesFit(s, c1, c2);
    var ts := AbstractTies(a, e1s, e2s);
    TieAllGood(s, ts);
    TieAllPaired(s, ts);
    assert TieAll(s, ts) == LiftPair(s, c1, c2);
    TiesLifted(s, c1, c2, TieAll(s, ts));
  }

  /** Once every tie of the pair is paired in r, every twin pair between c1 and c2 is. */
  lemma TiesLifted(s: Sides, c1: Cluster, c2: Cluster, r: Sides)
    requires SidesGood(s) && LowerClusterOk(s.arena, c1, s.c1) && LowerClusterOk(s.arena, c2, s.c2)
    requires EdgesIn(s.arena, InterEdges(s.arena, c1, c2.bounds, |c1.order|))
    requires forall t ::
      t in AbstractTies(s.arena, InterEdges(s.arena, c1, c2.bounds, |c1.order|), InterEdges(s.arena, c2, c1.bounds, |c2.order|)) ==>
      Paired(r.arena, r.c1, r.c2, t.g1, t.g2)
    ensures Lifted(r.arena, r.c1, r.c2, c1, c2, s.arena)
  {
    var a := s.arena;
    var e1s := InterEdges(a, c1, c2.bounds, |c1.order|);
    var e2s := InterEdges(a, c2, c1.bounds, |c2.order|);
    InterEdgesMeaning(a, c1, c2);
    InterEdgesMeaning(a, c2, c1);
    forall e1, e2 | InterInto(a, c1, c2, e1) && InterInto(a, c2, c1, e2) && e2.start == e1.end
      ensures Paired(r.arena, r.c1, r.c2, a[e1.start].pos, a[e1.end].pos)
    {
      assert e1 in e1s && e2 in e2s;
      var k :| 0 <= k < |e2s| && e2s[k] == e2;
      assert HasTwin(e2s, e1);
      assert TwinTie(a, e1) in AbstractTies(a, e1s, e2s);
    }
  }

  /** r extends s: both parents keep their shape, their dictionaries only gain keys and
      stay correct, and the arena only grows. */
  ghost predicate Extends(s: Sides, r: Sides)
  {
    SidesGood(r) && Grows(s.arena, r.arena) &&
    SameShape(s.c1, r.c1) && SameShape(s.c2, r.c2) && DictGrows(s.c1, r.c1) && DictGrows(s.c2, r.c2)
  }

  lemma ExtendsSelf(s: Sides)
    requires SidesGood(s)
    ensures Extends(s, s)
  {
    GrowsSelf(s.arena);
  }

  lemma ExtendsTrans(s: Sides, m: Sides, r: Sides)
    requires Extends(s, m) && Extends(m, r)
    ensures Extends(s, r)
  {
    GrowsTrans(s.arena, m.arena, r.arena);
  }

  /** The inner loop of CreateAbstractBorderNodes, after the first n of the lower clusters
      ks of the second parent, turned s into r: c1, a lower cluster of the first parent, is
      lifted against each of them that it touches along x. */
  ghost predicate RowLifted(s: Sides, lower: seq<Cluster>, c1: Cluster, ks: seq<nat>, n: nat, x: bool, r: Sides)
  {
    Extends(s, r) &&
    forall i :: 0 <= i < n && i < |ks| && ks[i] < |lower| && Touching(c1.bounds, lower[ks[i]].bounds, x) ==>
      Lifted(r.arena, r.c1, r.c2, c1, lower[ks[i]], s.arena)
  }

  /** CreateAbstractBorderNodes, after the first n lower clusters ks1 of the first parent,
      turned s into r: each of them is lifted against every lower cluster ks2 of the second
      parent that it touches along x. */
  ghost predicate GridLifted(s: Sides, lower: seq<Cluster>, ks1: seq<nat>, n: nat, ks2: seq<nat>, x: bool, r: Sides)
  {
    Extends(s, r) &&
    forall i, j ::
      0 <= i < n && i < |ks1| && 0 <= j < |ks2| && ks1[i] < |lower| && ks2[j] < |lower| &&
      Touching(lower[ks1[i]].bounds, lower[ks2[j]].bounds, x) ==>
      Lifted(r.arena, r.c1, r.c2, lower[ks1[i]], lower[ks2[j]], s.arena)
  }

  /** What lifting the row of c1 against ks relies on. */
  ghost predicate RowReady(s: Sides, lower: seq<Cluster>, c1: Cluster, ks: seq<nat>)
  {
    SidesGood(s) && LowerClusterOk(s.arena, c1, s.c1) &&
    forall k :: k in ks ==> k < |lower| && LowerClusterOk(s.arena, lower[k], s.c2)
  }

  /** What lifting the grid of ks1 against ks2 relies on. */
  ghost predicate GridReady(s: Sides, lower: seq<Cluster>, ks1: seq<nat>, ks2: seq<nat>)
  {
    SidesGood(s) &&
    (forall k :: k in ks1 ==> k < |lower| && LowerClusterOk(s.arena, lower[k], s.c1)) &&
    (forall k :: k in ks2 ==> k < |lower| && LowerClusterOk(s.arena, lower[k], s.c2))
  }

  /** One more pair lifted after some earlier ones keeps extending s, and lifts the pair. */
  lemma LiftPairAfter(s: Sides, m: Sides, c1: Cluster, c2: Cluster)
    requires Extends(s, m) && LowerClusterOk(s.arena, c1, s.c1) && LowerClusterOk(s.arena, c2, s.c2)
    ensures Extends(s, LiftPair(m, c1, c2)) && Grows(m.arena, LiftPair(m, c1, c2).arena)
    ensures Lifted(LiftPair(m, c1, c2).arena, LiftPair(m, c1, c2).c1, LiftPair(m, c1, c2).c2, c1, c2, s.arena)
  {
    var r := LiftPair(m, c1, c2);
    LowerKept(s.arena, m.arena, c1, s.c1, m.c1);
    LowerKept(s.arena, m.arena, c2, s.c2, m.c2);
    LiftPairGood(m, c1, c2);
    GrowsTrans(s.arena, m.arena, r.arena);
    LiftedEarlier(r.arena, r.c1, r.c2, c1, c2, s.arena, m.arena);
  }

  /** Once the row has extended s into m, the next pair is ready to be lifted. */
  lemma RowReadyAt(s: Sides, lower: seq<Cluster>, c1: Cluster, ks: seq<nat>, q: nat, m: Sides)
    requires RowReady(s, lower, c1, ks) && q < |ks| && Extends(s, m)
    ensures ks[q] < |lower| && LowerClusterOk(m.arena, c1, m.c1) && LowerClusterOk(m.arena, lower[ks[q]], m.c2)
  {
    assert ks[q] in ks;
    LowerKept(s.arena, m.arena, c1, s.c1, m.c1);
    LowerKept(s.arena, m.arena, lower[ks[q]], s.c2, m.c2);
  }

  /** One iteration of the inner loop: lifting the next pair when it touches, and nothing
      otherwise. */
  lemma RowLiftedStep(s: Sides, lower: seq<Cluster>, c1: Cluster, ks: seq<nat>, q: nat, x: bool, m: Sides, r: Sides)
    requires RowReady(s, lower, c1, ks) && q < |ks| && RowLifted(s, lower, c1, ks, q, x, m)
    requires ks[q] < |lower| && Touching(c1.bounds, lower[ks[q]].bounds, x) ==> r == LiftPair(m, c1, lower[ks[q]])
    requires !(ks[q] < |lower| && Touching(c1.bounds, lower[ks[q]].bounds, x)) ==> r == m
    ensures RowLifted(s, lower, c1, ks, q + 1, x, r)
  {
    var k := ks[q];
    assert k in ks;
    if Touching(c1.bounds, lower[k].bounds, x) {
      LiftPairAfter(s, m, c1, lower[k]);
      RowLiftedKept(s, lower, c1, ks, q, x, m, r);
    }
  }

  /** The pairs lifted before stay lifted as the arena grows and the dictionaries gain keys. */
  lemma RowLiftedKept(s: Sides, lower: seq<Cluster>, c1: Cluster, ks: seq<nat>, q: nat, x: bool, m: Sides, r: Sides)
    requires RowLifted(s, lower, c1, ks, q, x, m)
    requires Grows(m.arena, r.arena) && DictGrows(m.c1, r.c1) && DictGrows(m.c2, r.c2)
    ensures forall i :: 0 <= i < q && i < |ks| && ks[i] < |lower| && Touching(c1.bounds, lower[ks[i]].bounds, x) ==>
      Lifted(r.arena, r.c1, r.c2, c1, lower[ks[i]], s.arena)
  {
    forall i | 0 <= i < q && i < |ks| && ks[i] < |lower| && Touching(c1.bounds, lower[ks[i]].bounds, x)
      ensures Lifted(r.arena, r.c1, r.c2, c1, lower[ks[i]], s.arena)
    {
      LiftedGrows(m.arena, m.c1, m.c2, c1, lower[ks[i]], s.arena, r.arena, r.c1, r.c2);
    }
  }

  /** The lower clusters stay correct for the parents as they were after some rows. */
  lemma LiftGridStep(s: Sides, m: Sides, lower: seq<Cluster>, k: nat, ks2: seq<nat>)
    requires SidesGood(m) && Grows(s.arena, m.arena) && m.c1.bounds == s.c1.bounds && m.c2.bounds == s.c2.bounds
    requires k < |lower| && LowerClusterOk(s.arena, lower[k], s.c1)
    requires forall q :: q in ks2 ==> q < |lower| && LowerClusterOk(s.arena, lower[q], s.c2)
    ensures RowReady(m, lower, lower[k], ks2)
  {
    LowerKept(s.arena, m.arena, lower[k], s.c1, m.c1);
    forall q | q in ks2
      ensures LowerClusterOk(m.arena, lower[q], m.c2)
    {
      LowerKept(s.arena, m.arena, lower[q], s.c2, m.c2);
    }
  }

  /** Once the grid has extended s into m, the next row is ready. */
  lemma GridRowReady(s: Sides, lower: seq<Cluster>, ks1: seq<nat>, ks2: seq<nat>, q: nat, m: Sides)
    requires GridReady(s, lower, ks1, ks2) && q < |ks1| && Extends(s, m)
    ensures ks1[q] < |lower| && RowReady(m, lower, lower[ks1[q]], ks2)
  {
    assert ks1[q] in ks1;
    LiftGridStep(s, m, lower, ks1[q], ks2);
  }

  /** One iteration of the outer loop: a whole row lifted on top of the earlier rows. */
  lemma GridLiftedStep(s: Sides, lower: seq<Cluster>, ks1: seq<nat>, ks2: seq<nat>, q: nat, x: bool, m: Sides, r: Sides)
    requires q < |ks1| && ks1[q] < |lower| && GridLifted(s, lower, ks1, q, ks2, x, m)
    requires RowLifted(m, lower, lower[ks1[q]], ks2, |ks2|, x, r)
    ensures GridLifted(s, lower, ks1, q + 1, ks2, x, r)
  {
    ExtendsTrans(s, m, r);
    forall i, j | 0 <= i < q + 1 && i < |ks1| && 0 <= j < |ks2| && ks1[i] < |lower| && ks2[j] < |lower| &&
                  Touching(lower[ks1[i]].bounds, lower[ks2[j]].bounds, x)
      ensures Lifted(r.arena, r.c1, r.c2, lower[ks1[i]], lower[ks2[j]], s.arena)
    {
      if i == q {
        LiftedEarlier(r.arena, r.c1, r.c2, lower[ks1[i]], lower[ks2[j]], s.arena, m.arena);
      } else {
        LiftedGrows(m.arena, m.c1, m.c2, lower[ks1[i]], lower[ks2[j]], s.arena, r.arena, r.c1, r.c2);
      }
    }
  }

  /** The ties of one more edge: its own tie follows those before it exactly when it has a twin. */
  lemma AbstractTiesSnoc(a0: seq<Node>, e1s: seq<Edge>, e2s: seq<Edge>, i: nat)
    requires 0 < i <= |e1s| && EdgesIn(a0, e1s)
    ensures HasTwin(e2s, e1s[i - 1]) ==>
      AbstractTies(a0, e1s[..i], e2s) == AbstractTies(a0, e1s[..i - 1], e2s) + [TwinTie(a0, e1s[i - 1])]
    ensures !HasTwin(e2s, e1s[i - 1]) ==> AbstractTies(a0, e1s[..i], e2s) == AbstractTies(a0, e1s[..i - 1], e2s)
  {
    assert e1s[..i][..i - 1] == e1s[..i - 1];
    assert e1s[..i][i - 1] == e1s[i - 1];
    var pre := AbstractTies(a0, e1s[..i - 1], e2s);
    assert pre + [] == pre;
  }

  /** One round of the pair loop of CreateAbstractInterEdges over e1s[i - 1]: it adds the
      edge's tie exactly when the edge has a twin. */
  lemma LiftStep(s0: Sides, a0: seq<Node>, e1s: seq<Edge>, e2s: seq<Edge>, i: nat, found: bool, mid: Sides, st: Sides)
    requires 0 < i <= |e1s| && EdgesIn(a0, e1s)
    requires mid == TieAll(s0, AbstractTies(a0, e1s[..i - 1], e2s))
    requires found ==> HasTwin(e2s, e1s[i - 1]) && st == TieUp(mid, TwinTie(a0, e1s[i - 1]))
    requires !found ==> !HasTwin(e2s, e1s[i - 1]) && st == mid
    ensures st == TieAll(s0, AbstractTies(a0, e1s[..i], e2s))
  {
    var pre := AbstractTies(a0, e1s[..i - 1], e2s);
    AbstractTiesSnoc(a0, e1s, e2s, i);
    if found {
      TieAllSnoc(s0, pre, TwinTie(a0, e1s[i - 1]));
    }
  }
}
