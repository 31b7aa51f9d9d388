/** What the weights of service/route.go mean for a whole route. */
module RouteWeights {
  import opened Prelude
  import opened Walks
  import opened RouteSelection
  import Mediator

  type Schedules = map<Address, Mediator.FeeSchedule>

  /** What a node keeps of the amount by its own schedule, or by the default one; `Mediator.FeeCharged` says how much. */
  function HopFee(amount: uint64, schedules: Schedules, a: Address): int {
    amount - Mediator.AmountWithoutFees(amount, if a in schedules then schedules[a] else DEFAULT_FEE)
  }

  /** The fees of all nodes of a route from the second on; routes run from the target to the source. */
  function Fees(amount: uint64, schedules: Schedules, p: seq<Address>): int {
    if |p| <= 1 then 0 else Fees(amount, schedules, p[..|p| - 1]) + HopFee(amount, schedules, p[|p| - 1])
  }

  lemma ShortEdge(edges: Arcs, amount: uint64, visited: nat, schedules: Schedules, e: (Address, Address))
    requires e in edges
    ensures Reweigh(Short, edges, amount, visited, schedules)[e] == 1 + HopFee(amount, schedules, e.1)
  {
    WeighedEdge(Short, edges, amount, visited, schedules, e);
  }

  /** Weighed by fee, a route weighs its hops plus its fees. */
  lemma {:induction false} ShortWeight(nodes: map<Address, int>, edges: Arcs, bad: seq<Address>, amount: uint64,
                                       visited: nat, schedules: Schedules, p: seq<Address>)
    requires IsWalk(LiveEdges(nodes, edges, bad), p)
    ensures var live := LiveEdges(nodes, Reweigh(Short, edges, amount, visited, schedules), bad);
            IsWalk(live, p) && Weight(live, p) == |p| - 1 + Fees(amount, schedules, p)
  {
    if |p| > 1 {
      ShortWeight(nodes, edges, bad, amount, visited, schedules, p[..|p| - 1]);
      ShortEdge(edges, amount, visited, schedules, (p[|p| - 2], p[|p| - 1]));
    }
  }

  /** The search then answers with a route of the fewest hops and fees together. */
  lemma ShortRouteCheapest(nodes: map<Address, int>, edges: Arcs, bad: seq<Address>, amount: uint64, visited: nat,
                           schedules: Schedules, from: Address, to: Address, path: seq<Address>, other: seq<Address>)
    requires IsLightest(LiveEdges(nodes, Reweigh(Short, edges, amount, visited, schedules), bad), from, to, path)
    requires Joins(LiveEdges(nodes, edges, bad), other, to, from)
    ensures path != [] && Joins(LiveEdges(nodes, edges, bad), path, to, from)
    ensures |path| + Fees(amount, schedules, path) <= |other| + Fees(amount, schedules, other)
  {
    var weighed := Reweigh(Short, edges, amount, visited, schedules);
    ShortWeight(nodes, edges, bad, amount, visited, schedules, other);
    assert Joins(LiveEdges(nodes, weighed, bad), other, to, from);
    RouteSurvives(nodes, weighed, edges, bad, bad, path);
    ShortWeight(nodes, edges, bad, amount, visited, schedules, path);
  }

  lemma RoundedUp(x: real)
    ensures (Ceil(x) - 1) as real < x <= Ceil(x) as real
  {
    var floor := (-x).Floor;
    assert floor as real <= -x < (floor + 1) as real;
    assert Ceil(x) == -floor;
  }

  /** Weighed by penalty, an edge weighs one, its penalized fee and the penalized rounds so far, rounded up once. */
  lemma DiverseWeight(strategy: Strategy, fee: int, visited: nat)
    requires strategy.Diverse?
    ensures var w := EdgeWeight(strategy, fee, visited);
            var exact := 1.0 + fee as real * strategy.feePenalty + visited as real * strategy.diversityPenalty;
            (w - 1) as real < exact <= w as real
  {
    var exact := 1.0 + fee as real * strategy.feePenalty + visited as real * strategy.diversityPenalty;
    assert EdgeWeight(strategy, fee, visited) == Ceil(exact);
    RoundedUp(exact);
  }

  lemma WeighedEdge(strategy: Strategy, edges: Arcs, amount: uint64, visited: nat, schedules: Schedules,
                    e: (Address, Address))
    requires !strategy.Plain? && e in edges
    ensures Reweigh(strategy, edges, amount, visited, schedules)[e]
         == EdgeWeight(strategy, HopFee(amount, schedules, e.1), visited)
  {
    FeeKept(amount, schedules, e.1);
  }

  lemma FeeKept(amount: uint64, schedules: Schedules, a: Address)
    ensures amount - Mediator.AmountWithoutFees(amount, ScheduleOf(schedules, a)) == HopFee(amount, schedules, a)
  {
  }

  /** A strategy without weighing leaves every edge as it was. */
  lemma PlainEdges(edges: Arcs, amount: uint64, visited: nat, schedules: Schedules)
    ensures Reweigh(Plain, edges, amount, visited, schedules) == edges
  {
  }

  /** A node without a schedule of its own keeps one token and a thousandth, up to a fifth. */
  lemma DefaultFee(amount: uint64, schedules: Schedules, a: Address)
    requires a !in schedules && amount < MAX64
    ensures var fee := HopFee(amount, schedules, a);
            if 5 * (1 + amount / 1000) <= amount then fee == 1 + amount / 1000 else 5 * fee <= amount < 5 * fee + 5
  {
    var fee := 1 + amount / 1000;
    assert Mediator.ScheduledFee(amount, DEFAULT_FEE, fee);
    Mediator.FeeCharged(amount, DEFAULT_FEE, fee);
  }
}
