/** The shortest-path search of route/dijkstra.go. */
module Dijkstra {
  import opened Prelude
  import opened Walks

  datatype Vertex = Vertex(from: map<Address, int>, to: map<Address, int>)

  type DirectedGraph = map<Address, Vertex>

  /** What the search knows: the best distance found to each node and a path of that length. */
  datatype Table = Table(dist: map<Address, int>, paths: map<Address, seq<Address>>)

  // ----- the search on values -----

  /** `p` leads from the source over settled nodes to `v`, for `d`. */
  ghost predicate Leads(arcs: Arcs, source: Address, settled: set<Address>, p: seq<Address>, v: Address, d: int) {
    && Joins(arcs, p, source, v)
    && Weight(arcs, p) == d
    && NoRepeats(p)
    && forall i :: 0 <= i < |p| - 1 ==> p[i] in settled
  }

  ghost predicate Tracked(arcs: Arcs, source: Address, settled: set<Address>, t: Table) {
    && source in settled && settled <= t.paths.Keys
    && (forall v :: v in t.dist ==> t.dist[v] <= MAX_INT64)
    && (forall v :: v in t.paths <==> v in t.dist && t.dist[v] < MAX_INT64)
    && (forall v :: v in t.paths ==> Leads(arcs, source, settled, t.paths[v], v, t.dist[v]))
  }

  /** No walk to a settled node is shorter than its distance. */
  ghost predicate Shortest(arcs: Arcs, source: Address, settled: set<Address>, t: Table)
    requires settled <= t.dist.Keys
  {
    forall p, v :: v in settled && Joins(arcs, p, source, v) ==> t.dist[v] <= Weight(arcs, p)
  }

  ghost predicate Relaxed(arcs: Arcs, some: set<Address>, t: Table)
    requires some <= t.dist.Keys
  {
    forall x, y :: x in some && (x, y) in arcs ==> ArcRelaxed(arcs, t, x, y)
  }

  ghost predicate ArcRelaxed(arcs: Arcs, t: Table, x: Address, y: Address)
    requires x in t.dist && (x, y) in arcs
  {
    y in t.dist && t.dist[y] <= t.dist[x] + arcs[(x, y)]
  }

  /** Paths without a repeated node are short enough for a signed word. */
  ghost predicate WeightsFit(arcs: Arcs, source: Address) {
    forall p :: IsWalk(arcs, p) && p[0] == source && NoRepeats(p) ==> Weight(arcs, p) < MAX_INT64
  }

  /** One turn of the first loop of `searchPathDijkstra`. */
  function RelaxArc(t: Table, settled: set<Address>, x: Address, y: Address, w: int): (r: Table)
    requires x in t.dist && x in t.paths
    ensures t.dist.Keys <= r.dist.Keys && t.paths.Keys <= r.paths.Keys
  {
    var dist := if y in t.dist then t.dist else t.dist[y := MAX_INT64];
    if y in settled then t.(dist := dist)
    else
      var d := Signed64(dist[x] + w);
      if d < dist[y] then Table(dist[y := d], t.paths[y := t.paths[x] + [y]]) else t.(dist := dist)
  }

  /** The first loop, visiting the arcs of `x` in the given order. */
  function RelaxAll(t: Table, settled: set<Address>, x: Address, to: map<Address, int>, order: seq<Address>): (r: Table)
    requires x in t.dist && x in t.paths && forall y :: y in order ==> y in to
    ensures t.dist.Keys <= r.dist.Keys && t.paths.Keys <= r.paths.Keys
  {
    if order == [] then t
    else
      var y := order[|order| - 1];
      RelaxArc(RelaxAll(t, settled, x, to, order[..|order| - 1]), settled, x, y, to[y])
  }

  lemma ExtendedLeads(arcs: Arcs, source: Address, settled: set<Address>, p: seq<Address>, x: Address, y: Address, d: int)
    requires Leads(arcs, source, settled, p, x, d) && x in settled && y !in settled && (x, y) in arcs
    ensures Leads(arcs, source, settled, p + [y], y, d + arcs[(x, y)])
  {
    Extend(arcs, p, y);
  }

  lemma ImprovedTracks(arcs: Arcs, source: Address, settled: set<Address>, t: Table, y: Address, d: int, p: seq<Address>)
    requires Tracked(arcs, source, settled, t) && y !in settled
    requires Leads(arcs, source, settled, p, y, d) && d < MAX_INT64
    ensures Tracked(arcs, source, settled, Table(t.dist[y := d], t.paths[y := p]))
  {
  }

  /** `t` knows at least as much as `before`, and the same about settled nodes. */
  ghost predicate Refines(settled: set<Address>, before: Table, t: Table) {
    && before.dist.Keys <= t.dist.Keys
    && (forall v :: v in settled && v in before.dist ==> t.dist[v] == before.dist[v])
    && (forall v :: v in before.dist ==> t.dist[v] <= before.dist[v])
  }

  /** The table with an entry for `y`, as the loop begins a turn. */
  function Known(t: Table, y: Address): Table {
    if y in t.dist then t else t.(dist := t.dist[y := MAX_INT64])
  }

  lemma KnownTracks(arcs: Arcs, source: Address, settled: set<Address>, t: Table, y: Address)
    requires Tracked(arcs, source, settled, t)
    ensures Tracked(arcs, source, settled, Known(t, y))
  {
    if y !in t.dist {
      NewNodeTracks(arcs, source, settled, t, y);
    }
  }

  lemma NewNodeTracks(arcs: Arcs, source: Address, settled: set<Address>, t: Table, y: Address)
    requires Tracked(arcs, source, settled, t) && y !in t.dist
    ensures Tracked(arcs, source, settled, t.(dist := t.dist[y := MAX_INT64]))
  {
  }

  lemma RelaxArcShape(arcs: Arcs, settled: set<Address>, t: Table, x: Address, y: Address)
    requires x in t.dist && x in t.paths && x in settled && (x, y) in arcs
    requires y in settled ==> y in t.dist
    requires y in t.dist ==> t.dist[y] <= MAX_INT64
    requires 0 <= t.dist[x] + arcs[(x, y)] < MAX_INT64 || y in settled
    ensures var r := RelaxArc(t, settled, x, y, arcs[(x, y)]);
            && Refines(settled, t, r) && r.dist.Keys == t.dist.Keys + {y}
            && (y !in settled ==> ArcRelaxed(arcs, r, x, y))
  {
  }

  /** The path over a settled node and one more arc, which cannot overflow. */
  lemma Candidate(arcs: Arcs, source: Address, settled: set<Address>, t: Table, x: Address, y: Address)
    requires Tracked(arcs, source, settled, t) && NonNegative(arcs) && WeightsFit(arcs, source)
    requires x in settled && y !in settled && (x, y) in arcs
    ensures Leads(arcs, source, settled, t.paths[x] + [y], y, t.dist[x] + arcs[(x, y)])
    ensures 0 <= t.dist[x] + arcs[(x, y)] < MAX_INT64
  {
    assert Leads(arcs, source, settled, t.paths[x], x, t.dist[x]);
    WeightNonNegative(arcs, t.paths[x]);
    ExtendedLeads(arcs, source, settled, t.paths[x], x, y, t.dist[x]);
  }

  /** Relaxing an arc of a settled node keeps every entry a real path. */
  lemma RelaxArcTracks(arcs: Arcs, source: Address, settled: set<Address>, t: Table, x: Address, y: Address)
    requires Tracked(arcs, source, settled, t) && NonNegative(arcs) && WeightsFit(arcs, source)
    requires x in settled && (x, y) in arcs
    ensures Tracked(arcs, source, settled, RelaxArc(t, settled, x, y, arcs[(x, y)]))
  {
    KnownTracks(arcs, source, settled, t, y);
    if y in settled {
      RelaxArcSettled(t, settled, x, y, arcs[(x, y)]);
    } else {
      Candidate(arcs, source, settled, t, x, y);
      RelaxArcBetters(arcs, source, settled, t, x, y, arcs[(x, y)]);
    }
  }

  lemma RelaxArcBetters(arcs: Arcs, source: Address, settled: set<Address>, t: Table, x: Address, y: Address, w: int)
    requires x in t.dist && x in t.paths && x in settled && y !in settled && 0 <= t.dist[x] + w < MAX_INT64
    requires Tracked(arcs, source, settled, Known(t, y))
    requires Leads(arcs, source, settled, t.paths[x] + [y], y, t.dist[x] + w)
    ensures Tracked(arcs, source, settled, RelaxArc(t, settled, x, y, w))
  {
    RelaxArcIs(t, settled, x, y, w);
    BetterTracks(arcs, source, settled, Known(t, y), y, t.dist[x] + w, t.paths[x] + [y], RelaxArc(t, settled, x, y, w));
  }

  /** The shorter of the known and the new path to an unsettled node. */
  function Better(t: Table, y: Address, d: int, p: seq<Address>): Table
    requires y in t.dist
  {
    if d < t.dist[y] then Table(t.dist[y := d], t.paths[y := p]) else t
  }

  lemma BetterTracks(arcs: Arcs, source: Address, settled: set<Address>, t: Table, y: Address, d: int, p: seq<Address>,
                     r: Table)
    requires Tracked(arcs, source, settled, t) && y !in settled && y in t.dist
    requires Leads(arcs, source, settled, p, y, d) && d < MAX_INT64 && r == Better(t, y, d, p)
    ensures Tracked(arcs, source, settled, r)
  {
    if d < t.dist[y] {
      ImprovedTracks(arcs, source, settled, t, y, d, p);
    }
  }

  lemma RelaxArcSettled(t: Table, settled: set<Address>, x: Address, y: Address, w: int)
    requires x in t.dist && x in t.paths && y in settled
    ensures RelaxArc(t, settled, x, y, w) == Known(t, y)
  {
  }

  lemma RelaxArcIs(t: Table, settled: set<Address>, x: Address, y: Address, w: int)
    requires x in t.dist && x in t.paths && x in settled && y !in settled && 0 <= t.dist[x] + w < MAX_INT64
    ensures RelaxArc(t, settled, x, y, w) == Better(Known(t, y), y, t.dist[x] + w, t.paths[x] + [y])
  {
  }

  /** Whatever the order, the visited arcs are relaxed and every entry stays a real path. */
  lemma {:induction false} RelaxAllTracks(arcs: Arcs, source: Address, settled: set<Address>, before: Table, x: Address,
                                          to: map<Address, int>, order: seq<Address>)
    requires Tracked(arcs, source, settled, before) && NonNegative(arcs) && WeightsFit(arcs, source) && x in settled
    requires forall y :: y in to ==> (x, y) in arcs && arcs[(x, y)] == to[y]
    requires forall y :: y in order ==> y in to
    ensures var t := RelaxAll(before, settled, x, to, order);
            && Tracked(arcs, source, settled, t) && Refines(settled, before, t)
            && t.dist.Keys <= before.dist.Keys + to.Keys
            && forall y :: y in order && y !in settled ==> ArcRelaxed(arcs, t, x, y)
    decreases |order|
  {
    if order != [] {
      var init, y := order[..|order| - 1], order[|order| - 1];
      RelaxAllTracks(arcs, source, settled, before, x, to, init);
      var t := RelaxAll(before, settled, x, to, init);
      RelaxArcTracks(arcs, source, settled, t, x, y);
      if y !in settled {
        Candidate(arcs, source, settled, t, x, y);
      }
      RelaxArcShape(arcs, settled, t, x, y);
      var r := RelaxArc(t, settled, x, y, to[y]);
      forall z | z in order && z !in settled ensures ArcRelaxed(arcs, r, x, z) {
        assert z != y ==> z in init && ArcRelaxed(arcs, t, x, z);
      }
    }
  }

  /** A walk that leaves the settled nodes passes an unsettled node that is already known and no farther. */
  lemma {:induction false} WalkLeaves(arcs: Arcs, source: Address, settled: set<Address>, t: Table, p: seq<Address>)
    returns (y: Address)
    requires Tracked(arcs, source, settled, t) && Shortest(arcs, source, settled, t) && Relaxed(arcs, settled, t)
    requires NonNegative(arcs)
    requires IsWalk(arcs, p) && p[0] == source && p[|p| - 1] !in settled
    ensures y in t.dist && y !in settled && t.dist[y] <= Weight(arcs, p)
    decreases |p|
  {
    var init, x := p[..|p| - 1], p[|p| - 2];
    if x in settled {
      y := p[|p| - 1];
      assert Joins(arcs, init, source, x);
    } else {
      y := WalkLeaves(arcs, source, settled, t, init);
    }
  }

  ghost predicate Nearest(settled: set<Address>, t: Table, n: Address) {
    && n in t.dist && n !in settled
    && forall v :: v in t.dist && v !in settled ==> t.dist[n] <= t.dist[v]
  }

  /** The nearest unsettled node can be settled. */
  lemma SettleNearest(arcs: Arcs, source: Address, settled: set<Address>, t: Table, n: Address)
    requires Tracked(arcs, source, settled, t) && Shortest(arcs, source, settled, t) && Relaxed(arcs, settled, t)
    requires NonNegative(arcs) && Nearest(settled, t, n) && t.dist[n] < MAX_INT64
    ensures Tracked(arcs, source, settled + {n}, t) && Shortest(arcs, source, settled + {n}, t)
  {
    forall p | Joins(arcs, p, source, n) ensures t.dist[n] <= Weight(arcs, p) {
      var y := WalkLeaves(arcs, source, settled, t, p);
    }
    forall v | v in t.paths ensures Leads(arcs, source, settled + {n}, t.paths[v], v, t.dist[v]) {
      assert Leads(arcs, source, settled, t.paths[v], v, t.dist[v]);
    }
  }

  lemma SettledTable(arcs: Arcs, source: Address, settled: set<Address>, t: Table, n: Address, next: set<Address>)
    requires Tracked(arcs, source, settled, t) && Shortest(arcs, source, settled, t) && Relaxed(arcs, settled, t)
    requires NonNegative(arcs) && Nearest(settled, t, n) && t.dist[n] < MAX_INT64 && next == settled + {n}
    ensures Tracked(arcs, source, next, t) && Shortest(arcs, source, next, t) && Relaxed(arcs, next - {n}, t)
  {
    SettleNearest(arcs, source, settled, t, n);
    assert next - {n} == settled;
  }

  /** When no unsettled node has a distance, no walk leads out of the settled ones. */
  lemma NoWalkOut(arcs: Arcs, source: Address, settled: set<Address>, t: Table, target: Address)
    requires Tracked(arcs, source, settled, t) && Shortest(arcs, source, settled, t) && Relaxed(arcs, settled, t)
    requires NonNegative(arcs) && WeightsFit(arcs, source) && target !in settled
    requires forall v :: v in t.dist && v !in settled ==> t.dist[v] >= MAX_INT64
    ensures target !in t.paths
    ensures forall p :: !Joins(arcs, p, source, target)
  {
    forall p | Joins(arcs, p, source, target) ensures false {
      NoExit(arcs, source, settled, t, p);
    }
  }

  lemma {:induction false} NoExit(arcs: Arcs, source: Address, settled: set<Address>, t: Table, p: seq<Address>)
    requires Tracked(arcs, source, settled, t) && Relaxed(arcs, settled, t)
    requires NonNegative(arcs) && WeightsFit(arcs, source)
    requires forall v :: v in t.dist && v !in settled ==> t.dist[v] >= MAX_INT64
    requires IsWalk(arcs, p) && p[0] == source
    ensures p[|p| - 1] in settled
    decreases |p|
  {
    if |p| > 1 {
      var x, y := p[|p| - 2], p[|p| - 1];
      NoExit(arcs, source, settled, t, p[..|p| - 1]);
      if y !in settled {
        assert Leads(arcs, source, settled, t.paths[x], x, t.dist[x]);
        ExtendedLeads(arcs, source, settled, t.paths[x], x, y, t.dist[x]);
      }
    }
  }

  /** What the search leaves behind for the target. */
  ghost predicate Answers(arcs: Arcs, source: Address, target: Address, t: Table) {
    && (target in t.paths <==> exists p :: Joins(arcs, p, source, target))
    && (target in t.paths ==>
          && Joins(arcs, t.paths[target], source, target)
          && NoRepeats(t.paths[target])
          && forall p :: Joins(arcs, p, source, target) ==> Weight(arcs, t.paths[target]) <= Weight(arcs, p))
  }

  lemma SettledAnswers(arcs: Arcs, source: Address, settled: set<Address>, t: Table, target: Address)
    requires Tracked(arcs, source, settled, t) && Shortest(arcs, source, settled, t) && target in settled
    ensures Answers(arcs, source, target, t)
  {
    assert Leads(arcs, source, settled, t.paths[target], target, t.dist[target]);
  }

  // ----- the search itself -----

  ghost predicate Represents(g: DirectedGraph, arcs: Arcs) {
    forall x, y :: ((x, y) in arcs <==> x in g && y in g[x].to) && ((x, y) in arcs ==> arcs[(x, y)] == g[x].to[y])
  }

  ghost predicate Closed(g: DirectedGraph) {
    forall x :: x in g ==> g[x].to.Keys <= g.Keys
  }

  ghost predicate Searchable(g: DirectedGraph, arcs: Arcs, source: Address) {
    Represents(g, arcs) && Closed(g) && NonNegative(arcs) && WeightsFit(arcs, source)
  }

  class Search {
    const graph: DirectedGraph
    const source: Address
    ghost const arcs: Arcs
    var dist: map<Address, int>
    var prev: map<Address, int>
    var paths: map<Address, seq<Address>>

    function Known(): Table
      reads this
    {
      Table(dist, paths)
    }

    ghost predicate Sound()
      reads this
    {
      && Searchable(graph, arcs, source)
      && Tracked(arcs, source, prev.Keys, Known()) && Shortest(arcs, source, prev.Keys, Known())
      && dist.Keys <= graph.Keys + {source}
    }

    /** The maps that `GetPairShortestPath` starts with. */
    constructor (graph: DirectedGraph, source: Address, ghost arcs: Arcs)
      requires Searchable(graph, arcs, source)
      ensures this.graph == graph && this.source == source && this.arcs == arcs
      ensures Sound() && prev.Keys == {source}
    {
      this.graph, this.source, this.arcs := graph, source, arcs;
      dist, prev, paths := map[source := 0], map[source := 0], map[source := [source]];
      new;
      assert Leads(arcs, source, prev.Keys, [source], source, 0);
      forall p, v | v in prev && Joins(arcs, p, source, v) ensures dist[v] <= Weight(arcs, p) {
        WeightNonNegative(arcs, p);
      }
    }

    method RelaxNode(x: Address, y: Address, distance: int)
      requires x in dist && x in paths
      modifies this`dist, this`paths
      ensures Known() == RelaxArc(old(Known()), prev.Keys, x, y, distance)
    {
      if y !in dist {
        dist := dist[y := MAX_INT64];
      }
      if y !in prev && Signed64(dist[x] + distance) < dist[y] {
        paths := paths[y := paths[x] + [y]];
        dist := dist[y := Signed64(dist[x] + distance)];
      }
    }

    /** The first loop: every node reachable over one arc from `x`, in any order. */
    method RelaxNodes(x: Address, to: map<Address, int>) returns (ghost order: seq<Address>)
      requires x in dist && x in paths
      modifies this`dist, this`paths
      ensures forall y :: y in order <==> y in to
      ensures Known() == RelaxAll(old(Known()), prev.Keys, x, to, order)
    {
      var rest := to;
      order := [];
      while rest != map[]
        invariant forall y :: y in to <==> y in order || y in rest
        invariant forall y :: y in rest ==> rest[y] == to[y]
        invariant x in dist && x in paths && Known() == RelaxAll(old(Known()), prev.Keys, x, to, order)
        decreases |rest|
      {
        var y :| y in rest;
        RelaxNode(x, y, rest[y]);
        assert (order + [y])[..|order|] == order;
        order := order + [y];
        assert (rest - {y}).Keys == rest.Keys - {y};
        rest := rest - {y};
      }
    }

    method Relax(x: Address)
      requires Sound() && x in prev && Relaxed(arcs, prev.Keys - {x}, Known())
      modifies this`dist, this`paths
      ensures Sound() && Relaxed(arcs, prev.Keys, Known())
    {
      var to := if x in graph then graph[x].to else map[];
      ghost var before := Known();
      ghost var order := RelaxNodes(x, to);
      RelaxedInOrder(graph, arcs, source, prev.Keys, before, x, to, order);
    }

    /** The second loop: the nearest unsettled node, the target first among equals. */
    method FindNearest(target: Address) returns (nearest: Address, minDistance: int)
      requires prev.Keys <= dist.Keys && forall v :: v in dist ==> dist[v] <= MAX_INT64
      ensures minDistance <= MAX_INT64
      ensures minDistance == MAX_INT64 ==> forall v :: v in dist && v !in prev ==> dist[v] >= MAX_INT64
      ensures minDistance < MAX_INT64 ==> Nearest(prev.Keys, Known(), nearest) && minDistance == dist[nearest]
      ensures minDistance < MAX_INT64 && target in dist && target !in prev && dist[target] == minDistance ==>
                nearest == target
    {
      nearest, minDistance := 0, MAX_INT64;
      var rest := dist.Keys;
      while rest != {}
        invariant rest <= dist.Keys
        invariant minDistance <= MAX_INT64
        invariant forall v :: v in dist && v !in rest && v !in prev ==> minDistance <= dist[v]
        invariant minDistance < MAX_INT64 ==> nearest in dist && nearest !in prev && dist[nearest] == minDistance
        invariant target in dist && target !in rest && target !in prev ==>
                    dist[target] == minDistance < MAX_INT64 ==> nearest == target
        decreases rest
      {
        var node :| node in rest;
        if node !in prev {
          if dist[node] < minDistance {
            nearest, minDistance := node, dist[node];
          }
          if dist[node] == minDistance && node == target {
            nearest, minDistance := node, dist[node];
          }
        }
        rest := rest - {node};
      }
    }

    /** `searchPathDijkstra`. */
    method SearchPath(from: Address, target: Address)
      requires Sound() && from in prev && Relaxed(arcs, prev.Keys - {from}, Known())
      requires target in prev ==> from == target
      modifies this
      ensures Answers(arcs, source, target, Known())
      decreases graph.Keys + {source} - prev.Keys
    {
      if from == target {
        SettledAnswers(arcs, source, prev.Keys, Known(), target);
        return;
      }
      Relax(from);
      var next := Advance(target);
      if next.Some? {
        SearchPath(next.value, target);
      }
    }

    /** Settles the nearest node, or finds that the target cannot be reached. */
    method Advance(target: Address) returns (next: Option<Address>)
      requires Sound() && Relaxed(arcs, prev.Keys, Known()) && target !in prev
      modifies this`prev
      ensures next.None? ==> Answers(arcs, source, target, Known())
      ensures next.Some? ==>
                && Sound() && next.value in graph.Keys + {source} && next.value !in old(prev)
                && prev.Keys == old(prev.Keys) + {next.value}
                && Relaxed(arcs, prev.Keys - {next.value}, Known())
    {
      var nearest, minDistance := FindNearest(target);
      if minDistance == MAX_INT64 {
        NoWalkOut(arcs, source, prev.Keys, Known(), target);
        return None;
      }
      Settle(nearest);
      return Some(nearest);
    }

    /** Records the nearest node with its rank. */
    method Settle(nearest: Address)
      requires Sound() && Relaxed(arcs, prev.Keys, Known())
      requires Nearest(prev.Keys, Known(), nearest) && dist[nearest] < MAX_INT64
      modifies this`prev
      ensures Sound() && prev == old(prev)[nearest := |old(prev)|]
      ensures Relaxed(arcs, prev.Keys - {nearest}, Known())
    {
      SettledTable(arcs, source, prev.Keys, Known(), nearest, prev[nearest := |prev|].Keys);
      prev := prev[nearest := |prev|];
    }
  }

  lemma BackArcRelaxed(arcs: Arcs, source: Address, settled: set<Address>, t: Table, x: Address, y: Address)
    requires Tracked(arcs, source, settled, t) && Shortest(arcs, source, settled, t)
    requires x in settled && y in settled && (x, y) in arcs
    ensures ArcRelaxed(arcs, t, x, y)
  {
    assert Leads(arcs, source, settled, t.paths[x], x, t.dist[x]);
    Extend(arcs, t.paths[x], y);
    assert Joins(arcs, t.paths[x] + [y], source, y);
  }

  lemma ShortestKept(arcs: Arcs, source: Address, settled: set<Address>, before: Table, t: Table)
    requires settled <= before.dist.Keys && Shortest(arcs, source, settled, before) && Refines(settled, before, t)
    ensures Shortest(arcs, source, settled, t)
  {
  }

  lemma AllRelaxed(arcs: Arcs, source: Address, settled: set<Address>, x: Address, before: Table, t: Table)
    requires Tracked(arcs, source, settled, t) && Shortest(arcs, source, settled, t)
    requires x in settled && settled <= before.dist.Keys && Relaxed(arcs, settled - {x}, before)
    requires Refines(settled, before, t)
    requires forall y :: (x, y) in arcs && y !in settled ==> ArcRelaxed(arcs, t, x, y)
    ensures Relaxed(arcs, settled, t)
  {
    forall z, y | z in settled && (z, y) in arcs ensures ArcRelaxed(arcs, t, z, y) {
      if z != x {
        assert ArcRelaxed(arcs, before, z, y);
      } else if y in settled {
        BackArcRelaxed(arcs, source, settled, t, x, y);
      }
    }
  }

  lemma RelaxedInOrder(g: DirectedGraph, arcs: Arcs, source: Address, settled: set<Address>, before: Table, x: Address,
                       to: map<Address, int>, order: seq<Address>)
    requires Searchable(g, arcs, source) && Tracked(arcs, source, settled, before)
    requires Shortest(arcs, source, settled, before) && before.dist.Keys <= g.Keys + {source}
    requires x in settled && Relaxed(arcs, settled - {x}, before)
    requires to == (if x in g then g[x].to else map[]) && forall y :: y in order <==> y in to
    ensures var t := RelaxAll(before, settled, x, to, order);
            && Tracked(arcs, source, settled, t) && Shortest(arcs, source, settled, t)
            && Relaxed(arcs, settled, t) && t.dist.Keys <= g.Keys + {source}
  {
    RelaxAllTracks(arcs, source, settled, before, x, to, order);
    var t := RelaxAll(before, settled, x, to, order);
    ShortestKept(arcs, source, settled, before, t);
    AllRelaxed(arcs, source, settled, x, before, t);
  }

  // ----- building the graph -----

  /** The graph `NewDirectGraph` promises: the live nodes, each edge stored at both its ends. */
  ghost predicate IsGraphOver(g: DirectedGraph, nodes: map<Address, int>, blacklist: seq<Address>, edges: Arcs) {
    && (forall a :: a in g <==> Live(nodes, blacklist, a))
    && forall a :: a in g ==> IsVertexOver(g[a], a, g.Keys, edges)
  }

  ghost predicate IsVertexOver(v: Vertex, a: Address, live: set<Address>, edges: Arcs) {
    && (forall b :: b in v.from <==> (a, b) in edges && b in live)
    && (forall b :: b in v.from ==> v.from[b] == edges[(a, b)])
    && (forall b :: b in v.to <==> (b, a) in edges && b in live)
    && (forall b :: b in v.to ==> v.to[b] == edges[(b, a)])
  }

  function Link(g: DirectedGraph, a: Address, b: Address, w: int): DirectedGraph {
    if a in g && b in g then
      var g1 := g[a := g[a].(from := g[a].from[b := w])];
      g1[b := g1[b].(to := g1[b].to[a := w])]
    else g
  }

  lemma LinkAdds(g: DirectedGraph, nodes: map<Address, int>, blacklist: seq<Address>, edges: Arcs, a: Address, b: Address,
                 w: int)
    requires IsGraphOver(g, nodes, blacklist, edges)
    ensures IsGraphOver(Link(g, a, b, w), nodes, blacklist, edges[(a, b) := w])
  {
    var g' := Link(g, a, b, w);
    forall c | c in g ensures IsVertexOver(g'[c], c, g.Keys, edges[(a, b) := w]) {
      LinkedVertex(g, a, b, w, c);
      LinkVertex(g[c], c, g.Keys, edges, a, b, w);
    }
    LinkedVertexKeys(g, a, b, w);
  }

  lemma LinkedVertexKeys(g: DirectedGraph, a: Address, b: Address, w: int)
    ensures Link(g, a, b, w).Keys == g.Keys
  {
  }

  lemma LinkedVertex(g: DirectedGraph, a: Address, b: Address, w: int, c: Address)
    requires c in g
    ensures c in Link(g, a, b, w)
    ensures Link(g, a, b, w)[c] == Vertex(if c == a && b in g then g[c].from[b := w] else g[c].from,
                                          if c == b && a in g then g[c].to[a := w] else g[c].to)
  {
  }

  lemma LinkVertex(v: Vertex, c: Address, live: set<Address>, edges: Arcs, a: Address, b: Address, w: int)
    requires IsVertexOver(v, c, live, edges)
    ensures IsVertexOver(Vertex(if c == a && b in live then v.from[b := w] else v.from,
                                if c == b && a in live then v.to[a := w] else v.to), c, live, edges[(a, b) := w])
  {
  }

  method NewDirectGraph(nodes: map<Address, int>, edges: Arcs, blacklist: seq<Address>) returns (g: DirectedGraph)
    ensures IsGraphOver(g, nodes, blacklist, edges)
  {
    var blackSet: map<Address, int> := map[];
    for k := 0 to |blacklist|
      invariant forall a :: a in blackSet <==> a in blacklist[..k]
    {
      assert blacklist[..k + 1] == blacklist[..k] + [blacklist[k]];
      blackSet := blackSet[blacklist[k] := k];
    }
    assert blacklist[..|blacklist|] == blacklist;
    g := map[];
    var rest := nodes.Keys;
    while rest != {}
      invariant rest <= nodes.Keys
      invariant forall a :: a in g <==> Live(nodes, blacklist, a) && a !in rest
      invariant forall a :: a in g ==> g[a] == Vertex(map[], map[])
      decreases rest
    {
      var key :| key in rest;
      if key !in blackSet {
        g := g[key := Vertex(map[], map[])];
      }
      rest := rest - {key};
    }
    g := LinkEdges(nodes, edges, blacklist, g);
  }

  /** The loop over the edges, in any order. */
  method LinkEdges(nodes: map<Address, int>, edges: Arcs, blacklist: seq<Address>, bare: DirectedGraph)
    returns (g: DirectedGraph)
    requires IsGraphOver(bare, nodes, blacklist, map[])
    ensures IsGraphOver(g, nodes, blacklist, edges)
  {
    g := bare;
    var rest := edges;
    ghost var done: Arcs := map[];
    while rest != map[]
      invariant IsGraphOver(g, nodes, blacklist, done)
      invariant forall e :: e in edges <==> e in done || e in rest
      invariant forall e :: e in done ==> done[e] == edges[e]
      invariant forall e :: e in rest ==> rest[e] == edges[e]
      decreases |rest|
    {
      var e :| e in rest;
      LinkAdds(g, nodes, blacklist, done, e.0, e.1, rest[e]);
      g := Link(g, e.0, e.1, rest[e]);
      done := done[(e.0, e.1) := rest[e]];
      assert (rest - {e}).Keys == rest.Keys - {e};
      rest := rest - {e};
    }
    assert done == edges;
  }

  /** The search follows the edges backwards. */
  ghost function Backwards(live: Arcs): Arcs {
    map e | e in (set f | f in live :: (f.1, f.0)) :: live[(e.1, e.0)]
  }

  lemma BackwardsTransposes(live: Arcs)
    ensures Transposed(Backwards(live), live) && Transposed(live, Backwards(live))
  {
    forall x, y ensures (x, y) in Backwards(live) <==> (y, x) in live {
      if (y, x) in live {
        var f := (y, x);
        assert (f.1, f.0) == (x, y);
      }
    }
  }

  lemma GraphRepresents(g: DirectedGraph, nodes: map<Address, int>, blacklist: seq<Address>, edges: Arcs)
    requires IsGraphOver(g, nodes, blacklist, edges)
    ensures Represents(g, Backwards(LiveEdges(nodes, edges, blacklist))) && Closed(g)
  {
    var live := LiveEdges(nodes, edges, blacklist);
    BackwardsTransposes(live);
    forall x, y ensures (x, y) in Backwards(live) <==> x in g && y in g[x].to {
      assert (y, x) in live <==> (y, x) in edges && Live(nodes, blacklist, y) && Live(nodes, blacklist, x);
    }
  }

  lemma BackwardsFits(live: Arcs, source: Address)
    requires RoutesFit(live, source)
    ensures WeightsFit(Backwards(live), source)
  {
    var arcs := Backwards(live);
    BackwardsTransposes(live);
    forall p | IsWalk(arcs, p) && p[0] == source && NoRepeats(p) ensures Weight(arcs, p) < MAX_INT64 {
      ReverseWalk(arcs, live, p);
      ReverseEnds(p);
      ReverseNoRepeats(p);
    }
  }

  // ----- the answer -----

  method ReverseInPlace(a: array<Address>)
    modifies a
    ensures a[..] == Reverse(old(a[..]))
  {
    ghost var was := a[..];
    var i, j := 0, a.Length - 1;
    while i < j
      invariant i + j == a.Length - 1 && 0 <= i <= j + 1
      invariant forall k :: 0 <= k < i ==> a[k] == was[a.Length - 1 - k] && a[a.Length - 1 - k] == was[k]
      invariant forall k :: i <= k <= j ==> a[k] == was[k]
    {
      a[i], a[j] := a[j], a[i];
      i, j := i + 1, j - 1;
    }
    if a.Length > 0 {
      ReverseEnds(was);
      forall k | 0 <= k < a.Length ensures a[k] == Reverse(was)[k] {
        ReverseAt(was, k);
        if k > j {
          assert a[a.Length - 1 - (a.Length - 1 - k)] == was[a.Length - 1 - k];
        }
      }
    }
    assert a[..] == Reverse(was);
  }

  /** A shortest walk backwards, reversed, is a lightest route. */
  lemma ReversedAnswer(live: Arcs, from: Address, to: Address, t: Table)
    requires Answers(Backwards(live), from, to, t)
    ensures IsLightest(live, from, to, Reverse(if to in t.paths then t.paths[to] else []))
  {
    var arcs := Backwards(live);
    BackwardsTransposes(live);
    forall q | Joins(live, q, to, from)
      ensures Joins(arcs, Reverse(q), from, to) && Weight(arcs, Reverse(q)) == Weight(live, q)
    {
      ReverseWalk(live, arcs, q);
      ReverseEnds(q);
    }
    if to in t.paths {
      ReverseWalk(arcs, live, t.paths[to]);
      ReverseEnds(t.paths[to]);
      ReverseNoRepeats(t.paths[to]);
    }
  }

  /** `GetPairShortestPath`. */
  method GetPairShortestPath(g: DirectedGraph, from: Address, to: Address, ghost live: Arcs) returns (path: seq<Address>)
    requires Searchable(g, Backwards(live), from)
    ensures IsLightest(live, from, to, path)
  {
    var search := new Search(g, from, Backwards(live));
    assert search.prev.Keys - {from} == {};
    search.SearchPath(from, to);
    ReversedAnswer(live, from, to, search.Known());
    path := Reversed(if to in search.paths then search.paths[to] else []);
  }

  method Reversed(found: seq<Address>) returns (path: seq<Address>)
    ensures path == Reverse(found)
  {
    var slice := new Address[|found|](i => if 0 <= i < |found| then found[i] else 0);
    assert slice[..] == found;
    ReverseInPlace(slice);
    path := slice[..];
  }

  lemma NetworkSearchable(g: DirectedGraph, nodes: map<Address, int>, edges: Arcs, blacklist: seq<Address>, source: Address)
    requires IsGraphOver(g, nodes, blacklist, edges) && NonNegative(edges)
    requires RoutesFit(LiveEdges(nodes, edges, blacklist), source)
    ensures Searchable(g, Backwards(LiveEdges(nodes, edges, blacklist)), source)
  {
    GraphRepresents(g, nodes, blacklist, edges);
    BackwardsFits(LiveEdges(nodes, edges, blacklist), source);
  }

  /**
   `NewTopology` and `GetShortPathTree`: terminates with a lightest route from the
   target to the source that avoids the blacklist, empty exactly when none exists.
   */
  method ShortestPath(nodes: map<Address, int>, edges: Arcs, blacklist: seq<Address>, from: Address, to: Address)
    returns (path: seq<Address>)
    requires NonNegative(edges) && RoutesFit(LiveEdges(nodes, edges, blacklist), from)
    ensures IsLightest(LiveEdges(nodes, edges, blacklist), from, to, path)
    ensures |path| > 1 ==> forall i :: 0 <= i < |path| ==> Live(nodes, blacklist, path[i])
  {
    var g := NewDirectGraph(nodes, edges, blacklist);
    NetworkSearchable(g, nodes, edges, blacklist, from);
    path := GetPairShortestPath(g, from, to, LiveEdges(nodes, edges, blacklist));
    if |path| > 1 {
      RouteAvoidsBlacklist(nodes, edges, blacklist, path);
    }
  }
}
