/** A network on which the route loop finds nothing although there is a route by a usable hop. */
module RouteLimits {
  import opened Prelude
  import opened Walks
  import opened RouteSelection
  import Mediator

  /** The source 1, a refused hop 2, the target 3 and a usable hop 4: 1 - 2 - 3 and 1 - 4 - 2. */
  const NODES: map<Address, int> := map[1 := 1, 2 := 1, 3 := 1, 4 := 1]

  const EDGES: Arcs := map[(1, 2) := 1, (2, 1) := 1, (2, 3) := 1, (3, 2) := 1,
                           (1, 4) := 1, (4, 1) := 1, (4, 2) := 1, (2, 4) := 1]

  /** Both hops lead to node 1 over edges of one weight, and the edge between them weighs something. */
  ghost predicate DetourHeavier(arcs: Arcs) {
    arcs.Keys == EDGES.Keys && arcs[(2, 1)] == arcs[(4, 1)] && arcs[(2, 4)] >= 1
  }

  lemma AllLive(arcs: Arcs)
    requires arcs.Keys == EDGES.Keys
    ensures LiveEdges(NODES, arcs, []) == arcs
  {
    forall e | e in arcs ensures e.0 in NODES && e.1 in NODES {
      assert e in EDGES;
    }
  }

  lemma EdgesListed()
    ensures (3, 2) in EDGES && (2, 1) in EDGES && (4, 1) in EDGES && (2, 4) in EDGES
    ensures EDGES[(2, 1)] == EDGES[(4, 1)] == EDGES[(2, 4)] == 1
  {
  }

  lemma WeighedDetour(strategy: Strategy, amount: uint64, schedules: map<Address, Mediator.FeeSchedule>, visited: nat)
    requires Penalizes(strategy)
    ensures DetourHeavier(Reweigh(strategy, EDGES, amount, visited, schedules))
  {
    EdgesListed();
    EndDecides(strategy, EDGES, amount, visited, schedules, (2, 1), (4, 1));
    NewWeightPositive(strategy, EDGES, amount, visited, schedules, (2, 4));
  }

  /** A new weight depends on the edge's second end alone. */
  lemma EndDecides(strategy: Strategy, edges: Arcs, amount: uint64, visited: nat,
                   schedules: map<Address, Mediator.FeeSchedule>, e: (Address, Address), f: (Address, Address))
    requires e in edges && f in edges && e.1 == f.1 && edges[e] == edges[f]
    ensures var w := Reweigh(strategy, edges, amount, visited, schedules);
            w[e] == w[f]
  {
  }

  lemma NewWeightPositive(strategy: Strategy, edges: Arcs, amount: uint64, visited: nat,
                          schedules: map<Address, Mediator.FeeSchedule>, e: (Address, Address))
    requires Penalizes(strategy) && e in edges && edges[e] >= 1
    ensures Reweigh(strategy, edges, amount, visited, schedules)[e] >= 1
  {
    var schedule := ScheduleOf(schedules, e.1);
    Mediator.FeeWithinLimit(amount, schedule);
    if !strategy.Plain? {
      EdgeWeightPositive(strategy, amount - Mediator.AmountWithoutFees(amount, schedule), visited);
    }
  }

  lemma TwoRoutes(arcs: Arcs, path: seq<Address>)
    requires arcs.Keys == EDGES.Keys && Joins(arcs, path, 3, 1) && NoRepeats(path)
    ensures path == [3, 2, 1] || path == [3, 2, 4, 1]
  {
    WalkArc(arcs, path, 0);
    WalkArc(arcs, path, 1);
    if path[2] == 4 {
      WalkArc(arcs, path, 2);
    }
  }

  lemma ShortWalk(arcs: Arcs)
    requires (3, 2) in arcs && (2, 1) in arcs
    ensures IsWalk(arcs, [3, 2, 1]) && Weight(arcs, [3, 2, 1]) == arcs[(3, 2)] + arcs[(2, 1)]
  {
    WalkCons(arcs, 2, [1]);
    WalkCons(arcs, 3, [2, 1]);
    assert [2] + [1] == [2, 1] && [3] + [2, 1] == [3, 2, 1];
  }

  lemma LongWalk(arcs: Arcs)
    requires (3, 2) in arcs && (2, 4) in arcs && (4, 1) in arcs
    ensures IsWalk(arcs, [3, 2, 4, 1])
    ensures Weight(arcs, [3, 2, 4, 1]) == arcs[(3, 2)] + arcs[(2, 4)] + arcs[(4, 1)]
  {
    WalkCons(arcs, 4, [1]);
    WalkCons(arcs, 2, [4, 1]);
    WalkCons(arcs, 3, [2, 4, 1]);
    assert [4] + [1] == [4, 1] && [2] + [4, 1] == [2, 4, 1] && [3] + [2, 4, 1] == [3, 2, 4, 1];
  }

  /** Whatever the strategy, the first round's lightest route goes by the refused hop. */
  lemma FirstRound(arcs: Arcs, path: seq<Address>)
    requires DetourHeavier(arcs) && IsLightest(arcs, 1, 3, path)
    ensures path == [3, 2, 1]
  {
    EdgesListed();
    ShortWalk(arcs);
    LongWalk(arcs);
    assert Joins(arcs, [3, 2, 1], 3, 1);
    TwoRoutes(arcs, path);
  }

  /** With node 2 blacklisted nothing leads to the target any more. */
  lemma SecondRound(arcs: Arcs, path: seq<Address>)
    requires arcs.Keys == EDGES.Keys && IsLightest(LiveEdges(NODES, arcs, [2]), 1, 3, path)
    ensures path == []
  {
    if path != [] {
      WalkArc(LiveEdges(NODES, arcs, [2]), path, 0);
    }
  }

  lemma FirstSearch(q: Query, path: seq<Address>)
    requires q.nodes == NODES && q.edges == EDGES && q.from == 1 && q.to == 3 && Penalizes(q.strategy)
    requires Searched(q, [], path)
    ensures path == [3, 2, 1]
  {
    WeighedDetour(q.strategy, q.amount, q.schedules, 0);
    AllLive(Reweigh(q.strategy, EDGES, q.amount, 0, q.schedules));
    FirstRound(Reweigh(q.strategy, EDGES, q.amount, 0, q.schedules), path);
  }

  lemma SecondSearch(q: Query, path: seq<Address>)
    requires q.nodes == NODES && q.edges == EDGES && q.from == 1 && q.to == 3
    requires Searched(q, [2], path)
    ensures path == []
  {
    SecondRound(Reweigh(q.strategy, EDGES, q.amount, 1, q.schedules), path);
  }

  /**
   A refused hop is blacklisted as an intermediate node too: whatever the strategy, on
   this network the loop can only answer none, although 1 - 4 - 2 - 3 is a route whose
   first hop is usable.
   */
  lemma MissesRoute(q: Query, hop: Option<Address>)
    requires q.nodes == NODES && q.edges == EDGES && q.from == 1 && q.to == 3 && Penalizes(q.strategy)
    requires 2 !in q.usable && 4 in q.usable
    requires CanAnswer(q, [], hop)
    ensures hop == None && FirstHop(LiveEdges(q.nodes, q.edges, []), q.from, q.to, 4)
  {
    var path :| Searched(q, [], path) && AnswersBy(q, [], hop, path);
    FirstSearch(q, path);
    assert [] + [2] == [2];
    SecondAnswer(q, hop);
    DetourRoute();
  }

  lemma SecondAnswer(q: Query, hop: Option<Address>)
    requires q.nodes == NODES && q.edges == EDGES && q.from == 1 && q.to == 3
    requires CanAnswer(q, [2], hop)
    ensures hop == None
  {
    var path :| Searched(q, [2], path) && AnswersBy(q, [2], hop, path);
    SecondSearch(q, path);
  }

  lemma DetourRoute()
    ensures FirstHop(LiveEdges(NODES, EDGES, []), 1, 3, 4)
  {
    AllLive(EDGES);
    EdgesListed();
    LongWalk(EDGES);
    assert Joins(EDGES, [3, 2, 4, 1], 3, 1) && [3, 2, 4, 1][2] == 4;
  }
}
