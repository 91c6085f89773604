/** The runs of ConnectNodes calls in Assets/Scripts/GraphUtilities/Graph.cs: the pairs
    GenerateIntraEdges and ConnectToBorder search between, in the order they visit them,
    and the arena once every call has added its two INTRA edges (or nothing, when its
    search came back empty). */
module ConnectFold {
  import opened GridTiles
  import opened HpaTypes
  import opened GraphArena

  /** `new List<Node>(c.Nodes.Values)`: the border nodes of c in enumeration order. */
  function BorderNodes(c: Cluster): (ns: seq<nat>)
    requires Listed(c)
    ensures |ns| == |c.order|
    ensures forall k :: 0 <= k < |ns| ==> ns[k] == c.nodes[c.order[k]]
  {
    seq(|c.order|, k requires 0 <= k < |c.order| => c.nodes[c.order[k]])
  }

  /** The calls ConnectNodes(n, t) for each t of `targets`, in order. */
  function Fan(n: nat, targets: seq<nat>): (ps: seq<(nat, nat)>)
    ensures |ps| == |targets|
    ensures forall k :: 0 <= k < |ps| ==> ps[k] == (n, targets[k])
  {
    seq(|targets|, k requires 0 <= k < |targets| => (n, targets[k]))
  }

  /** The calls of the first i rounds of GenerateIntraEdges' outer loop: ns[r] with each
      ns[j], j > r, for r < i. */
  function IntraPairs(ns: seq<nat>, i: nat): seq<(nat, nat)>
    requires i <= |ns|
  {
    if i == 0 then [] else IntraPairs(ns, i - 1) + Fan(ns[i - 1], ns[i..])
  }

  /** Round i - 1 of the outer loop visits its node `head` == ns[i - 1] with each later
      node, `rest` == ns[i..]. */
  lemma RowPairs(ns: seq<nat>, i: nat, head: nat, rest: seq<nat>)
    requires 0 < i <= |ns| && head == ns[i - 1] && rest == ns[i..]
    ensures IntraPairs(ns, i) == IntraPairs(ns, i - 1) + Fan(head, rest)
    ensures forall b :: i - 1 < b < |ns| ==> (head, ns[b]) in Fan(head, rest)
    ensures forall p :: p in Fan(head, rest) ==> exists b :: i - 1 < b < |ns| && p == (head, ns[b])
  {
    var row := Fan(head, rest);
    forall b | i - 1 < b < |ns|
      ensures (head, ns[b]) in row
    {
      assert row[b - i] == (head, ns[b]);
    }
    forall p | p in row
      ensures exists b :: i - 1 < b < |ns| && p == (head, ns[b])
    {
      var k :| 0 <= k < |row| && row[k] == p;
      assert p == (head, ns[i + k]);
    }
  }

  /** The outer loop visits every pair a < b of border nodes... */
  lemma {:induction false} IntraPairsComplete(ns: seq<nat>, i: nat)
    requires i <= |ns|
    ensures forall a, b :: 0 <= a < i && a < b < |ns| ==> (ns[a], ns[b]) in IntraPairs(ns, i)
  {
    if i > 0 {
      IntraPairsComplete(ns, i - 1);
      RowPairs(ns, i, ns[i - 1], ns[i..]);
    }
  }

  /** ...and nothing else. */
  lemma {:induction false} IntraPairsSound(ns: seq<nat>, i: nat)
    requires i <= |ns|
    ensures forall p :: p in IntraPairs(ns, i) ==> exists a, b :: 0 <= a < i && a < b < |ns| && p == (ns[a], ns[b])
  {
    if i > 0 {
      IntraPairsSound(ns, i - 1);
      RowPairs(ns, i, ns[i - 1], ns[i..]);
    }
  }

  /** Every pair names a node of an arena of n nodes. */
  predicate Within(pairs: seq<(nat, nat)>, n: nat)
  {
    forall k :: 0 <= k < |pairs| ==> pairs[k].0 < n && pairs[k].1 < n
  }

  /** One ConnectNodes(n1, n2) whose search returned `path`: nothing when it is empty,
      the two INTRA edges otherwise. */
  function ConnectIf(arena: seq<Node>, n1: nat, n2: nat, path: seq<Edge>): (r: seq<Node>)
    requires n1 < |arena| && n2 < |arena|
    ensures |r| == |arena|
  {
    if path == [] then arena else Connect(arena, n1, n2, path)
  }

  /** ConnectNodes on each of `pairs` in turn, the k-th search having returned paths[k]. */
  function ConnectAll(arena: seq<Node>, pairs: seq<(nat, nat)>, paths: seq<seq<Edge>>): (r: seq<Node>)
    requires |pairs| == |paths| && Within(pairs, |arena|)
    ensures |r| == |arena|
    decreases |pairs|
  {
    if pairs == [] then arena
    else
      var n := |pairs| - 1;
      ConnectIf(ConnectAll(arena, pairs[..n], paths[..n]), pairs[n].0, pairs[n].1, paths[n])
  }

  /** Each search that found something found a path inside b between the children of two
      distinct nodes. */
  ghost predicate Bridges(arena: seq<Node>, pairs: seq<(nat, nat)>, paths: seq<seq<Edge>>, b: Boundaries)
  {
    |pairs| == |paths| &&
    forall k :: 0 <= k < |paths| && paths[k] != [] ==>
      pairs[k].0 != pairs[k].1 && Bridge(arena, paths[k], pairs[k].0, pairs[k].1, b)
  }

  /** n1 and n2 carry the two edges ConnectNodes adds for `path`: n1 -> n2 over it and
      n2 -> n1 over it reversed, both weighing its total. */
  ghost predicate Joined(arena: seq<Node>, n1: nat, n2: nat, path: seq<Edge>)
  {
    n1 < |arena| && n2 < |arena| &&
    Edge(n1, n2, INTRA, SumWeights(path), path) in arena[n1].edges &&
    Edge(n2, n1, INTRA, SumWeights(path), Reverse(path)) in arena[n2].edges
  }

  lemma JoinedGrows(a: seq<Node>, b: seq<Node>, n1: nat, n2: nat, path: seq<Edge>)
    requires Joined(a, n1, n2, path) && Grows(a, b)
    ensures Joined(b, n1, n2, path)
  {
    EdgeStays(a, b, n1, Edge(n1, n2, INTRA, SumWeights(path), path));
    EdgeStays(a, b, n2, Edge(n2, n1, INTRA, SumWeights(path), Reverse(path)));
  }

  lemma ConnectIfGrows(arena: seq<Node>, n1: nat, n2: nat, path: seq<Edge>)
    requires n1 < |arena| && n2 < |arena|
    ensures Grows(arena, ConnectIf(arena, n1, n2, path))
    ensures path != [] ==> Joined(ConnectIf(arena, n1, n2, path), n1, n2, path)
  {
    if path == [] {
      GrowsSelf(arena);
    } else {
      ConnectGrows(arena, n1, n2, path);
      var w := SumWeights(path);
      var a1 := AddEdge(arena, n1, Edge(n1, n2, INTRA, w, path));
      AddEdgeGrows(a1, n2, Edge(n2, n1, INTRA, w, Reverse(path)));
      EdgeStays(a1, Connect(arena, n1, n2, path), n1, Edge(n1, n2, INTRA, w, path));
    }
  }

  /** One more call extends the run. */
  lemma ConnectAllSnoc(arena: seq<Node>, pairs: seq<(nat, nat)>, paths: seq<seq<Edge>>, p: (nat, nat), path: seq<Edge>)
    requires |pairs| == |paths| && Within(pairs, |arena|) && p.0 < |arena| && p.1 < |arena|
    ensures Within(pairs + [p], |arena|)
    ensures ConnectAll(arena, pairs + [p], paths + [path]) == ConnectIf(ConnectAll(arena, pairs, paths), p.0, p.1, path)
  {
    assert (pairs + [p])[..|pairs|] == pairs;
    assert (paths + [path])[..|paths|] == paths;
  }

  lemma WithinConcat(ps1: seq<(nat, nat)>, ps2: seq<(nat, nat)>, n: nat)
    requires Within(ps1, n) && Within(ps2, n)
    ensures Within(ps1 + ps2, n)
  {
    forall k | 0 <= k < |ps1 + ps2|
      ensures (ps1 + ps2)[k].0 < n && (ps1 + ps2)[k].1 < n
    {
      if k >= |ps1| {
        assert (ps1 + ps2)[k] == ps2[k - |ps1|];
      }
    }
  }

  /** Two runs one after the other are one run. */
  lemma {:induction false} ConnectAllConcat(arena: seq<Node>, ps1: seq<(nat, nat)>, qs1: seq<seq<Edge>>,
                                            ps2: seq<(nat, nat)>, qs2: seq<seq<Edge>>)
    requires |ps1| == |qs1| && |ps2| == |qs2| && Within(ps1, |arena|) && Within(ps2, |arena|)
    ensures Within(ps1 + ps2, |arena|)
    ensures ConnectAll(arena, ps1 + ps2, qs1 + qs2) == ConnectAll(ConnectAll(arena, ps1, qs1), ps2, qs2)
    decreases |ps2|
  {
    WithinConcat(ps1, ps2, |arena|);
    if ps2 == [] {
      assert ps1 + ps2 == ps1 && qs1 + qs2 == qs1;
    } else {
      var n := |ps2| - 1;
      var init, last := ps2[..n], ps2[n];
      DropLastConcat(ps1, ps2);
      DropLastConcat(qs1, qs2);
      assert Within(init, |arena|);
      ConnectAllConcat(arena, ps1, qs1, init, qs2[..n]);
    }
  }

  /** A run only appends edges. */
  lemma {:induction false} ConnectAllGrows(arena: seq<Node>, pairs: seq<(nat, nat)>, paths: seq<seq<Edge>>)
    requires |pairs| == |paths| && Within(pairs, |arena|)
    ensures Grows(arena, ConnectAll(arena, pairs, paths))
    decreases |pairs|
  {
    if pairs == [] {
      GrowsSelf(arena);
    } else {
      var n := |pairs| - 1;
      var a := ConnectAll(arena, pairs[..n], paths[..n]);
      ConnectAllGrows(arena, pairs[..n], paths[..n]);
      ConnectIfGrows(a, pairs[n].0, pairs[n].1, paths[n]);
      GrowsTrans(arena, a, ConnectAll(arena, pairs, paths));
    }
  }

  /** After the run, every pair whose search found a path carries the two edges over it:
      the mirrored INTRA edges ConnectNodes promises. */
  lemma {:induction false} ConnectAllJoins(arena: seq<Node>, pairs: seq<(nat, nat)>, paths: seq<seq<Edge>>, k: nat)
    requires |pairs| == |paths| && Within(pairs, |arena|) && k < |pairs| && paths[k] != []
    ensures Joined(ConnectAll(arena, pairs, paths), pairs[k].0, pairs[k].1, paths[k])
    decreases |pairs|
  {
    var n := |pairs| - 1;
    var a := ConnectAll(arena, pairs[..n], paths[..n]);
    ConnectIfGrows(a, pairs[n].0, pairs[n].1, paths[n]);
    if k < n {
      ConnectAllJoins(arena, pairs[..n], paths[..n], k);
      JoinedGrows(a, ConnectAll(arena, pairs, paths), pairs[k].0, pairs[k].1, paths[k]);
    }
  }

  /** A node that no pair names keeps its edges. */
  lemma {:induction false} ConnectAllFrame(arena: seq<Node>, pairs: seq<(nat, nat)>, paths: seq<seq<Edge>>, m: nat)
    requires |pairs| == |paths| && Within(pairs, |arena|) && m < |arena|
    requires forall k :: 0 <= k < |pairs| ==> pairs[k].0 != m && pairs[k].1 != m
    ensures ConnectAll(arena, pairs, paths)[m] == arena[m]
    decreases |pairs|
  {
    if pairs != [] {
      var n := |pairs| - 1;
      var a := ConnectAll(arena, pairs[..n], paths[..n]);
      ConnectAllFrame(arena, pairs[..n], paths[..n], m);
      if paths[n] != [] {
        ConnectGrows(a, pairs[n].0, pairs[n].1, paths[n]);
      }
    }
  }

  lemma BridgesGrow(a: seq<Node>, b: seq<Node>, pairs: seq<(nat, nat)>, paths: seq<seq<Edge>>, bounds: Boundaries)
    requires Bridges(a, pairs, paths, bounds) && Grows(a, b)
    ensures Bridges(b, pairs, paths, bounds)
  {
    forall k | 0 <= k < |paths| && paths[k] != []
      ensures Bridge(b, paths[k], pairs[k].0, pairs[k].1, bounds)
    {
      BridgeGrows(a, b, paths[k], pairs[k].0, pairs[k].1, bounds);
    }
  }

  /** One more call of ConnectNodes, whose search returned `path` over the arena before
      it, extends both the run and its bridges. */
  lemma BridgesStep(before: seq<Node>, after: seq<Node>, pairs: seq<(nat, nat)>, paths: seq<seq<Edge>>,
                    p: (nat, nat), path: seq<Edge>, bounds: Boundaries)
    requires Bridges(before, pairs, paths, bounds) && p.0 < |before| && p.1 < |before|
    requires path != [] ==> p.0 != p.1 && Bridge(before, path, p.0, p.1, bounds)
    requires after == ConnectIf(before, p.0, p.1, path)
    ensures Bridges(after, pairs + [p], paths + [path], bounds) && Grows(before, after)
  {
    ConnectIfGrows(before, p.0, p.1, path);
    BridgesGrow(before, after, pairs, paths, bounds);
    if path != [] {
      BridgeGrows(before, after, path, p.0, p.1, bounds);
    }
    var ps, qs := pairs + [p], paths + [path];
    forall k | 0 <= k < |qs| && qs[k] != []
      ensures ps[k].0 != ps[k].1 && Bridge(after, qs[k], ps[k].0, ps[k].1, bounds)
    {
      if k < |pairs| {
        assert ps[k] == pairs[k] && qs[k] == paths[k];
      }
    }
  }

  lemma BridgesConcat(arena: seq<Node>, ps1: seq<(nat, nat)>, qs1: seq<seq<Edge>>,
                      ps2: seq<(nat, nat)>, qs2: seq<seq<Edge>>, bounds: Boundaries)
    requires Bridges(arena, ps1, qs1, bounds) && Bridges(arena, ps2, qs2, bounds)
    ensures Bridges(arena, ps1 + ps2, qs1 + qs2, bounds)
  {
    var ps, qs := ps1 + ps2, qs1 + qs2;
    forall k | 0 <= k < |qs| && qs[k] != []
      ensures ps[k].0 != ps[k].1 && Bridge(arena, qs[k], ps[k].0, ps[k].1, bounds)
    {
      if k < |ps1| {
        assert ps[k] == ps1[k] && qs[k] == qs1[k];
      } else {
        assert ps[k] == ps2[k - |ps1|] && qs[k] == qs2[k - |qs1|];
      }
    }
  }

  /** One round of the outer loop of GenerateIntraEdges: the run over the first i rows,
      followed by the run over row i, is the run over the first i + 1 rows. */
  lemma IntraRowStep(a0: seq<Node>, before: seq<Node>, after: seq<Node>, ns: seq<nat>, i: nat,
                     paths: seq<seq<Edge>>, row: seq<seq<Edge>>, bounds: Boundaries)
    requires i < |ns| && |before| == |a0|
    requires Within(IntraPairs(ns, i), |a0|) && |paths| == |IntraPairs(ns, i)|
    requires before == ConnectAll(a0, IntraPairs(ns, i), paths) && Bridges(before, IntraPairs(ns, i), paths, bounds)
    requires Within(Fan(ns[i], ns[i + 1..]), |before|) && |row| == |Fan(ns[i], ns[i + 1..])|
    requires after == ConnectAll(before, Fan(ns[i], ns[i + 1..]), row) && Grows(before, after)
    requires Bridges(after, Fan(ns[i], ns[i + 1..]), row, bounds)
    ensures Within(IntraPairs(ns, i + 1), |a0|) && |paths + row| == |IntraPairs(ns, i + 1)|
    ensures after == ConnectAll(a0, IntraPairs(ns, i + 1), paths + row)
    ensures Bridges(after, IntraPairs(ns, i + 1), paths + row, bounds)
  {
    RowPairs(ns, i + 1, ns[i], ns[i + 1..]);
    ConnectAllConcat(a0, IntraPairs(ns, i), paths, Fan(ns[i], ns[i + 1..]), row);
    BridgesGrow(before, after, IntraPairs(ns, i), paths, bounds);
    BridgesConcat(after, IntraPairs(ns, i), paths, Fan(ns[i], ns[i + 1..]), row, bounds);
  }

  /** After ConnectFrom(c, i) has visited border nodes i + 1 .. j - 1, from a0: the arena
      is the run of ConnectNodes from node i to each of them, and each search that found a
      path found it inside c. */
  ghost predicate RowRun(a0: seq<Node>, arena: seq<Node>, c: Cluster, ns: seq<nat>, i: nat, j: nat, paths: seq<seq<Edge>>)
  {
    Listed(c) && ns == BorderNodes(c) && i < j <= |c.order| &&
    BorderOk(arena, c) && IntraAdded(a0, arena, c) &&
    |paths| == j - i - 1 && Within(Fan(ns[i], ns[i + 1..j]), |a0|) &&
    arena == ConnectAll(a0, Fan(ns[i], ns[i + 1..j]), paths) && Bridges(arena, Fan(ns[i], ns[i + 1..j]), paths, c.bounds)
  }

  /** Before its first ConnectNodes, ConnectFrom has done nothing. */
  lemma RowStart(a0: seq<Node>, c: Cluster, i: nat)
    requires Listed(c) && BorderOk(a0, c) && i < |c.order|
    ensures RowRun(a0, a0, c, BorderNodes(c), i, i + 1, [])
  {
    IntraAddedNone(a0, c);
    assert BorderNodes(c)[i + 1..i + 1] == [];
  }

  /** One ConnectNodes of ConnectFrom(c, i), on node i and node j, extends its run. */
  lemma RowStep(a0: seq<Node>, before: seq<Node>, after: seq<Node>, c: Cluster, ns: seq<nat>, i: nat, j: nat,
                paths: seq<seq<Edge>>, path: seq<Edge>)
    requires RowRun(a0, before, c, ns, i, j, paths) && j < |c.order| && ValidArena(before)
    requires path != [] ==> ns[i] != ns[j] && Bridge(before, path, ns[i], ns[j], c.bounds)
    requires path != [] ==> after == Connect(before, ns[i], ns[j], path)
    requires path == [] ==> after == before
    ensures RowRun(a0, after, c, ns, i, j + 1, paths + [path]) && ValidArena(after)
  {
    assert ns[i] == c.nodes[c.order[i]] && ns[j] == c.nodes[c.order[j]];
    RowArenaStep(a0, before, after, c, ns[i], ns[j], path);
    FanStep(a0, before, after, ns[i], ns, i + 1, j, paths, path, c.bounds);
  }

  /** One ConnectNodes between two border nodes of c keeps the arena well formed and
      the edges added since a0 inside c. */
  lemma RowArenaStep(a0: seq<Node>, before: seq<Node>, after: seq<Node>, c: Cluster, n1: nat, n2: nat, path: seq<Edge>)
    requires IntraAdded(a0, before, c) && BorderOk(before, c) && ValidArena(before)
    requires n1 in c.nodes.Values && n2 in c.nodes.Values && n1 < |before| && n2 < |before|
    requires path != [] ==> n1 != n2 && Bridge(before, path, n1, n2, c.bounds)
    requires path != [] ==> after == Connect(before, n1, n2, path)
    requires path == [] ==> after == before
    ensures IntraAdded(a0, after, c) && BorderOk(after, c) && ValidArena(after)
    ensures after == ConnectIf(before, n1, n2, path)
  {
    if path != [] {
      ConnectGrows(before, n1, n2, path);
      IntraAddedConnect(a0, before, c, n1, n2, path);
      GrowsKeeps(before, after);
      BorderOkKept(before, after, c);
    }
  }

  /** One ConnectNodes(n, ns[j]) extends the run from n over ns[lo..j]. */
  lemma FanStep(a0: seq<Node>, before: seq<Node>, after: seq<Node>, n: nat, ns: seq<nat>, lo: nat, j: nat,
                paths: seq<seq<Edge>>, path: seq<Edge>, bounds: Boundaries)
    requires lo <= j < |ns| && n < |a0| && ns[j] < |a0| && |paths| == j - lo
    requires Within(Fan(n, ns[lo..j]), |a0|) && before == ConnectAll(a0, Fan(n, ns[lo..j]), paths)
    requires Bridges(before, Fan(n, ns[lo..j]), paths, bounds)
    requires path != [] ==> n != ns[j] && Bridge(before, path, n, ns[j], bounds)
    requires after == ConnectIf(before, n, ns[j], path)
    ensures Within(Fan(n, ns[lo..j + 1]), |a0|) && |paths + [path]| == j + 1 - lo
    ensures after == ConnectAll(a0, Fan(n, ns[lo..j + 1]), paths + [path])
    ensures Bridges(after, Fan(n, ns[lo..j + 1]), paths + [path], bounds) && Grows(before, after)
  {
    BridgesStep(before, after, Fan(n, ns[lo..j]), paths, (n, ns[j]), path, bounds);
    FanSuffixSnoc(n, ns, lo, j);
    ConnectAllSnoc(a0, Fan(n, ns[lo..j]), paths, (n, ns[j]), path);
  }

  /** After the first i rounds of GenerateIntraEdges' outer loop over c, from a0: the
      arena is the run of ConnectNodes over the pairs of those rows, and each search that
      found a path found it inside c. */
  ghost predicate IntraRun(a0: seq<Node>, arena: seq<Node>, c: Cluster, ns: seq<nat>, i: nat, paths: seq<seq<Edge>>)
  {
    Listed(c) && ns == BorderNodes(c) && i <= |c.order| &&
    BorderOk(arena, c) && IntraAdded(a0, arena, c) &&
    Within(IntraPairs(ns, i), |a0|) && |paths| == |IntraPairs(ns, i)| &&
    arena == ConnectAll(a0, IntraPairs(ns, i), paths) && Bridges(arena, IntraPairs(ns, i), paths, c.bounds)
  }

  /** Before its first round, GenerateIntraEdges has done nothing. */
  lemma IntraStart(a0: seq<Node>, c: Cluster)
    requires Listed(c) && BorderOk(a0, c)
    ensures IntraRun(a0, a0, c, BorderNodes(c), 0, [])
  {
    IntraAddedNone(a0, c);
  }

  /** The whole of one round of GenerateIntraEdges' outer loop: what ConnectFrom(c, i)
      promises, added to what the first i rounds did, is what the first i + 1 rounds do. */
  lemma IntraLoopStep(a0: seq<Node>, before: seq<Node>, after: seq<Node>, c: Cluster, ns: seq<nat>, i: nat,
                      paths: seq<seq<Edge>>, row: seq<seq<Edge>>)
    requires IntraRun(a0, before, c, ns, i, paths) && i < |c.order|
    requires RowRun(before, after, c, ns, i, |c.order|, row)
    ensures IntraRun(a0, after, c, ns, i + 1, paths + row)
  {
    assert ns[i + 1..|c.order|] == ns[i + 1..];
    IntraAddedTrans(a0, before, after, c);
    GrowsKeeps(before, after);
    BorderOkKept(before, after, c);
    IntraRowStep(a0, before, after, ns, i, paths, row, c.bounds);
  }

  /** After ConnectToBorder's loop has visited the first q border nodes of c, from a1 (the
      arena with the fresh node n): the arena is the run of ConnectNodes from n to each of
      them, and each search that found a path found it inside c. */
  ghost predicate EntryRun(a1: seq<Node>, arena: seq<Node>, c: Cluster, n: nat, ns: seq<nat>, q: nat,
                            paths: seq<seq<Edge>>)
  {
    Listed(c) && ns == BorderNodes(c) && q <= |c.order| && n < |a1| && BorderOk(a1, c) &&
    |paths| == q && Within(Fan(n, ns[..q]), |a1|) &&
    arena == ConnectAll(a1, Fan(n, ns[..q]), paths) && Bridges(arena, Fan(n, ns[..q]), paths, c.bounds)
  }

  lemma EntryStart(a1: seq<Node>, c: Cluster, n: nat)
    requires Listed(c) && BorderOk(a1, c) && n < |a1|
    ensures EntryRun(a1, a1, c, n, BorderNodes(c), 0, [])
  {
    assert BorderNodes(c)[..0] == [];
  }

  /** One ConnectNodes of ConnectToBorder, on n and border node q, extends its run. */
  lemma EntryStep(a1: seq<Node>, before: seq<Node>, after: seq<Node>, c: Cluster, n: nat, ns: seq<nat>, q: nat,
                   paths: seq<seq<Edge>>, path: seq<Edge>)
    requires EntryRun(a1, before, c, n, ns, q, paths) && q < |c.order|
    requires path != [] ==> n != ns[q] && Bridge(before, path, n, ns[q], c.bounds)
    requires after == ConnectIf(before, n, ns[q], path)
    ensures EntryRun(a1, after, c, n, ns, q + 1, paths + [path]) && Grows(before, after)
  {
    BorderNodesAt(a1, c);
    BridgesStep(before, after, Fan(n, ns[..q]), paths, (n, ns[q]), path, c.bounds);
    FanSnoc(n, ns, q);
    ConnectAllSnoc(a1, Fan(n, ns[..q]), paths, (n, ns[q]), path);
  }

  lemma EntryDone(a1: seq<Node>, arena: seq<Node>, c: Cluster, n: nat, paths: seq<seq<Edge>>)
    requires Listed(c) && EntryRun(a1, arena, c, n, BorderNodes(c), |c.order|, paths)
    ensures |paths| == |c.order| && Within(Fan(n, BorderNodes(c)), |a1|)
    ensures arena == ConnectAll(a1, Fan(n, BorderNodes(c)), paths)
    ensures Bridges(arena, Fan(n, BorderNodes(c)), paths, c.bounds)
  {
    assert BorderNodes(c)[..|c.order|] == BorderNodes(c);
  }

  /** A finished run only grew the arena, and touched no node at or above `lo` but n. */
  lemma EntryRunFrame(a1: seq<Node>, arena: seq<Node>, c: Cluster, n: nat, paths: seq<seq<Edge>>, lo: nat)
    requires Listed(c) && EntryRun(a1, arena, c, n, BorderNodes(c), |c.order|, paths) && NodesIn(c, 0, lo)
    ensures Grows(a1, arena) && |arena| == |a1|
    ensures forall k :: lo <= k < |arena| && k != n ==> arena[k] == a1[k]
  {
    var ns := BorderNodes(c);
    var pairs := Fan(n, ns[..|c.order|]);
    ConnectAllGrows(a1, pairs, paths);
    forall k | lo <= k < |arena| && k != n
      ensures arena[k] == a1[k]
    {
      forall j | 0 <= j < |pairs|
        ensures pairs[j].0 != k && pairs[j].1 != k
      {
        assert ns[j] == c.nodes[c.order[j]];
      }
      ConnectAllFrame(a1, pairs, paths, k);
    }
  }

  /** The border nodes of a correct dictionary are nodes of the arena, and its values. */
  lemma BorderNodesAt(arena: seq<Node>, c: Cluster)
    requires BorderOk(arena, c) && Listed(c)
    ensures forall k :: 0 <= k < |c.order| ==> BorderNodes(c)[k] < |arena| && BorderNodes(c)[k] in c.nodes.Values
  {
  }

  lemma FanWithin(n: nat, targets: seq<nat>, size: nat)
    requires n < size && forall k :: 0 <= k < |targets| ==> targets[k] < size
    ensures Within(Fan(n, targets), size)
  {
  }

  lemma {:induction false} IntraPairsWithin(ns: seq<nat>, i: nat, size: nat)
    requires i <= |ns| && forall k :: 0 <= k < |ns| ==> ns[k] < size
    ensures Within(IntraPairs(ns, i), size)
  {
    if i > 0 {
      IntraPairsWithin(ns, i - 1, size);
      FanWithin(ns[i - 1], ns[i..], size);
      WithinConcat(IntraPairs(ns, i - 1), Fan(ns[i - 1], ns[i..]), size);
    }
  }

  lemma FanSnoc(n: nat, ns: seq<nat>, j: nat)
    requires j < |ns|
    ensures Fan(n, ns[..j + 1]) == Fan(n, ns[..j]) + [(n, ns[j])]
  {
  }

  lemma FanSuffixSnoc(n: nat, ns: seq<nat>, i: nat, j: nat)
    requires i <= j < |ns|
    ensures Fan(n, ns[i..j + 1]) == Fan(n, ns[i..j]) + [(n, ns[j])]
  {
  }

  /** The intra edges GenerateIntraEdges gave cluster c, the search of its k-th pair of
      border nodes having returned paths[k]: each pair joined by a path inside c carries
      the two mirrored INTRA edges over it. */
  ghost predicate IntraJoined(arena: seq<Node>, c: Cluster, paths: seq<seq<Edge>>)
  {
    Listed(c) &&
    var ps := IntraPairs(BorderNodes(c), |c.order|);
    |paths| == |ps| &&
    forall k :: 0 <= k < |ps| && paths[k] != [] ==>
      ps[k].0 != ps[k].1 && Joined(arena, ps[k].0, ps[k].1, paths[k]) &&
      Bridge(arena, paths[k], ps[k].0, ps[k].1, c.bounds)
  }

  /** The run GenerateIntraEdges makes over c joins every pair its searches connected. */
  lemma IntraJoinedRun(a: seq<Node>, b: seq<Node>, c: Cluster, paths: seq<seq<Edge>>)
    requires Listed(c) && IntraRun(a, b, c, BorderNodes(c), |c.order|, paths)
    ensures IntraJoined(b, c, paths)
  {
    var ps := IntraPairs(BorderNodes(c), |c.order|);
    forall k | 0 <= k < |ps| && paths[k] != []
      ensures Joined(b, ps[k].0, ps[k].1, paths[k])
    {
      ConnectAllJoins(a, ps, paths, k);
    }
  }

  lemma IntraJoinedGrows(a: seq<Node>, b: seq<Node>, c: Cluster, paths: seq<seq<Edge>>)
    requires IntraJoined(a, c, paths) && Grows(a, b)
    ensures IntraJoined(b, c, paths)
  {
    var ps := IntraPairs(BorderNodes(c), |c.order|);
    forall k | 0 <= k < |ps| && paths[k] != []
      ensures Joined(b, ps[k].0, ps[k].1, paths[k]) && Bridge(b, paths[k], ps[k].0, ps[k].1, c.bounds)
    {
      JoinedGrows(a, b, ps[k].0, ps[k].1, paths[k]);
      BridgeGrows(a, b, paths[k], ps[k].0, ps[k].1, c.bounds);
    }
  }

  /** The first k clusters of a level carry the intra edges their searches found. */
  ghost predicate LevelJoined(arena: seq<Node>, cs: seq<Cluster>, paths: seq<seq<seq<Edge>>>, k: nat)
  {
    |paths| == k <= |cs| && forall q :: 0 <= q < k ==> IntraJoined(arena, cs[q], paths[q])
  }

  /** GenerateIntraEdges on cluster k, which only adds edges, keeps the earlier clusters'. */
  lemma LevelJoinedStep(a: seq<Node>, b: seq<Node>, cs: seq<Cluster>, paths: seq<seq<seq<Edge>>>, k: nat,
                        ps: seq<seq<Edge>>)
    requires LevelJoined(a, cs, paths, k) && k < |cs| && Grows(a, b) && IntraJoined(b, cs[k], ps)
    ensures LevelJoined(b, cs, paths + [ps], k + 1)
  {
    forall q | 0 <= q < k
      ensures IntraJoined(b, cs[q], paths[q])
    {
      IntraJoinedGrows(a, b, cs[q], paths[q]);
    }
  }

  /** Every cluster of every level built carries the intra edges its searches found:
      level i's cluster q with the paths intra[i][q]. */
  ghost predicate IntraBuilt(arena: seq<Node>, C: seq<seq<Cluster>>, intra: seq<seq<seq<seq<Edge>>>>)
  {
    |intra| == |C| &&
    forall i :: 0 <= i < |C| ==>
      |intra[i]| == |C[i]| && forall q :: 0 <= q < |C[i]| ==> IntraJoined(arena, C[i][q], intra[i][q])
  }

  lemma IntraBuiltGrows(a: seq<Node>, b: seq<Node>, C: seq<seq<Cluster>>, intra: seq<seq<seq<seq<Edge>>>>)
    requires IntraBuilt(a, C, intra) && Grows(a, b)
    ensures IntraBuilt(b, C, intra)
  {
    forall i, q | 0 <= i < |C| && 0 <= q < |C[i]|
      ensures IntraJoined(b, C[i][q], intra[i][q])
    {
      IntraJoinedGrows(a, b, C[i][q], intra[i][q]);
    }
  }

  /** A new level whose clusters all carry their intra edges extends the levels built. */
  lemma IntraBuiltStep(a: seq<Node>, b: seq<Node>, C: seq<seq<Cluster>>, intra: seq<seq<seq<seq<Edge>>>>,
                       cs: seq<Cluster>, level: seq<seq<seq<Edge>>>)
    requires IntraBuilt(a, C, intra) && Grows(a, b)
    requires |level| == |cs| && forall q :: 0 <= q < |cs| ==> IntraJoined(b, cs[q], level[q])
    ensures IntraBuilt(b, C + [cs], intra + [level])
  {
    IntraBuiltGrows(a, b, C, intra);
    var C2, intra2 := C + [cs], intra + [level];
    forall i | 0 <= i < |C2|
      ensures |intra2[i]| == |C2[i]| && forall q :: 0 <= q < |C2[i]| ==> IntraJoined(b, C2[i][q], intra2[i][q])
    {
      if i < |C| {
        assert C2[i] == C[i] && intra2[i] == intra[i];
      }
    }
  }
}
