/** Choosing the first hop: the retry loop of service/route.go, and how the two searches of route/ compare. */
module RouteSelection {
  import opened Prelude
  import opened Walks
  import opened Channel
  import opened Ledger
  import opened Agreement
  import opened NettingChannelState
  import Dijkstra
  import DepthFirst
  import Mediator

  // ----- the two searches on one network -----

  ghost predicate EndPointsListed(nodes: map<Address, int>, edges: Arcs) {
    forall e :: e in edges ==> e.0 in nodes && e.1 in nodes
  }

  ghost predicate UnitWeights(edges: Arcs) {
    forall e :: e in edges ==> edges[e] == 1
  }

  lemma {:induction false} UnitWeight(arcs: Arcs, p: seq<Address>)
    requires UnitWeights(arcs) && IsWalk(arcs, p)
    ensures Weight(arcs, p) == |p| - 1
  {
    if |p| > 1 {
      UnitWeight(arcs, p[..|p| - 1]);
    }
  }

  lemma SameNetwork(nodes: map<Address, int>, edges: Arcs, blacklist: seq<Address>)
    requires EndPointsListed(nodes, edges)
    ensures DepthFirst.OpenEdges(edges, blacklist) == LiveEdges(nodes, edges, blacklist)
  {
  }

  /** The enumerator's answer: all simple routes, each once, shortest first. */
  ghost predicate IsEnumeration(arcs: Arcs, from: Address, to: Address, paths: seq<seq<Address>>) {
    && DepthFirst.ByLength(paths) && DepthFirst.Once(paths)
    && forall p :: p in paths <==> Joins(arcs, p, to, from) && NoRepeats(p)
  }

  /** With unit weights the first enumerated path is as long as the lightest one. */
  lemma FirstIsLightest(nodes: map<Address, int>, edges: Arcs, blacklist: seq<Address>, from: Address, to: Address,
                        paths: seq<seq<Address>>, path: seq<Address>)
    requires EndPointsListed(nodes, edges) && UnitWeights(edges)
    requires IsEnumeration(DepthFirst.OpenEdges(edges, blacklist), from, to, paths)
    requires IsLightest(LiveEdges(nodes, edges, blacklist), from, to, path)
    ensures paths == [] <==> path == []
    ensures paths != [] ==> |paths[0]| == |path|
  {
    var live := LiveEdges(nodes, edges, blacklist);
    SameNetwork(nodes, edges, blacklist);
    if paths != [] {
      assert paths[0] in paths;
      UnitWeight(live, paths[0]);
      UnitWeight(live, path);
    }
    if path != [] {
      assert path in paths;
      var i :| 0 <= i < |paths| && paths[i] == path;
      assert i > 0 ==> |paths[0]| <= |paths[i]|;
    }
  }

  /** Both searches on one network; the enumerator gives up on a network without live nodes or edges. */
  method CompareSearches(nodes: map<Address, int>, edges: Arcs, blacklist: seq<Address>, from: Address, to: Address)
    returns (paths: seq<seq<Address>>, path: seq<Address>)
    requires EndPointsListed(nodes, edges) && UnitWeights(edges)
    requires RoutesFit(LiveEdges(nodes, edges, blacklist), from)
    ensures from != to || LiveEdges(nodes, edges, blacklist) != map[] ==>
              (paths == [] <==> path == []) && (paths != [] ==> |paths[0]| == |path|)
    ensures from == to && LiveEdges(nodes, edges, blacklist) == map[] ==> paths == [] && path == [from]
  {
    ghost var open := DepthFirst.OpenEdges(edges, blacklist);
    SameNetwork(nodes, edges, blacklist);
    var topology := new DepthFirst.Topology(nodes, edges, blacklist);
    ghost var added := topology.GetPairPathSorted(from, to, open);
    paths := topology.sp;
    assert multiset(paths) == multiset(added) && |multiset(paths)| == |paths|;
    path := Dijkstra.ShortestPath(nodes, edges, blacklist, from, to);
    if open == map[] {
      NoArcs(open, from, to, path);
    } else {
      var e :| e in open;
      assert e.0 in topology.nodes;
      DepthFirst.FirstCallListsAll(open, from, to, added, paths);
      FirstIsLightest(nodes, edges, blacklist, from, to, paths, path);
    }
  }

  lemma NoArcs(arcs: Arcs, from: Address, to: Address, path: seq<Address>)
    requires arcs == map[] && IsLightest(arcs, from, to, path)
    ensures path == if from == to then [from] else []
  {
    if from == to {
      assert Joins(arcs, [from], to, from);
    }
  }

  // ----- edge weights -----

  datatype Strategy = Diverse(feePenalty: real, diversityPenalty: real) | Short | Plain

  const DEFAULT_FEE: Mediator.FeeSchedule := Mediator.FeeSchedule(1, 1_000_000)

  function ScheduleOf(schedules: map<Address, Mediator.FeeSchedule>, a: Address): Mediator.FeeSchedule {
    if a in schedules then schedules[a] else DEFAULT_FEE
  }

  function Ceil(x: real): int {
    -((-x).Floor)
  }

  /** The weight `CalculateEdgeWeightByPenalty` or `CalculateEdgeWeightByFee` gives an edge, in exact arithmetic. */
  function EdgeWeight(strategy: Strategy, fee: int, visited: nat): int
    requires !strategy.Plain?
  {
    if strategy.Short? then 1 + fee
    else Ceil(1.0 + fee as real * strategy.feePenalty + visited as real * strategy.diversityPenalty)
  }

  function Reweigh(strategy: Strategy, edges: Arcs, amount: uint64, visited: nat,
                   schedules: map<Address, Mediator.FeeSchedule>): (r: Arcs)
    ensures r.Keys == edges.Keys
  {
    if strategy.Plain? then edges
    else
      map e | e in edges ::
        EdgeWeight(strategy, amount - Mediator.AmountWithoutFees(amount, ScheduleOf(schedules, e.1)), visited)
  }

  predicate Penalizes(strategy: Strategy) {
    strategy.Diverse? ==> strategy.feePenalty >= 0.0 && strategy.diversityPenalty >= 0.0
  }

  lemma EdgeWeightPositive(strategy: Strategy, fee: int, visited: nat)
    requires !strategy.Plain? && Penalizes(strategy) && fee >= 0
    ensures EdgeWeight(strategy, fee, visited) >= 1
  {
    if strategy.Diverse? {
      ProductNonNegative(fee as real, strategy.feePenalty);
      ProductNonNegative(visited as real, strategy.diversityPenalty);
    }
  }

  /** Reweighing never makes an edge negative, so the search may run on the result. */
  lemma ReweighNonNegative(strategy: Strategy, edges: Arcs, amount: uint64, visited: nat,
                           schedules: map<Address, Mediator.FeeSchedule>)
    requires NonNegative(edges) && Penalizes(strategy)
    ensures NonNegative(Reweigh(strategy, edges, amount, visited, schedules))
  {
    if !strategy.Plain? {
      forall e | e in edges ensures Reweigh(strategy, edges, amount, visited, schedules)[e] >= 0 {
        var schedule := ScheduleOf(schedules, e.1);
        Mediator.FeeWithinLimit(amount, schedule);
        EdgeWeightPositive(strategy, amount - Mediator.AmountWithoutFees(amount, schedule), visited);
      }
    }
  }

  /** Overwriting the weights again forgets the last ones. */
  lemma ReweighAgain(strategy: Strategy, edges: Arcs, edges': Arcs, amount: uint64, visited: nat,
                     schedules: map<Address, Mediator.FeeSchedule>)
    requires edges.Keys == edges'.Keys && (strategy.Plain? ==> edges == edges')
    ensures Reweigh(strategy, edges, amount, visited, schedules) == Reweigh(strategy, edges', amount, visited, schedules)
  {
  }

  lemma ProductNonNegative(x: real, y: real)
    requires x >= 0.0 && y >= 0.0
    ensures x * y >= 0.0
  {
  }

  // ----- the retry loop -----

  /** What the node knows about its surroundings when it looks for a route. */
  datatype Surroundings = Surroundings(dns: set<Address>, dnsOnChain: set<Address>, reachable: set<Address>,
                                       channels: map<Address, NettingChannel>)

  function DnsOf(s: Surroundings): set<Address> {
    if s.dns != {} then s.dns else s.dnsOnChain
  }

  ghost predicate RouteAvailable(c: NettingChannel, amount: uint64)
    reads c, c.our, c.partner
  {
    GetStatus(c.Value()) == Opened && amount <= GetDistributable(c.our.Value(), c.partner.Value())
  }

  ghost predicate Usable(s: Surroundings, to: Address, amount: uint64, hop: Address)
    reads s.channels.Values, set c | c in s.channels.Values :: c.our, set c | c in s.channels.Values :: c.partner
  {
    && (hop == to || hop in DnsOf(s))
    && hop in s.reachable
    && hop in s.channels && RouteAvailable(s.channels[hop], amount)
  }

  /** `checkRouteAvailable`. */
  method CheckRouteAvailable(c: NettingChannel, amount: uint64) returns (ok: bool)
    ensures ok == RouteAvailable(c, amount)
  {
    if GetStatus(c.Value()) != Opened {
      return false;
    }
    var distributable := Distributable(c.our, c.partner);
    return amount <= distributable;
  }

  /** On solvent ends a channel is available exactly when it is open and its owner can still pay the amount. */
  lemma AvailableIff(c: NettingChannel, amount: uint64)
    requires EndValid(c.our.Value()) && EndValid(c.partner.Value()) && BothSolvent(c.our.Value(), c.partner.Value())
    ensures var e := c.our.Value();
            RouteAvailable(c, amount) <==>
              && c.settleTx == None && c.closeTx == None
              && Outstanding(ViewOf(e)) + amount <= Credit(e, c.partner.Value())
              && Outstanding(ViewOf(e)) + amount <= MAX64
  {
    DistributableTrue(c.our.Value(), c.partner.Value());
  }

  method CheckHop(s: Surroundings, to: Address, amount: uint64, hop: Address) returns (ok: bool)
    ensures ok == Usable(s, to, amount, hop)
  {
    if hop != to && hop !in DnsOf(s) {
      return false;
    }
    if hop !in s.reachable || hop !in s.channels {
      return false;
    }
    ok := CheckRouteAvailable(s.channels[hop], amount);
  }

  /** The routes of one round stay routes when fewer nodes are blacklisted and edges are weighed anew. */
  lemma {:induction false} RouteSurvives(nodes: map<Address, int>, edges: Arcs, edges': Arcs, less: seq<Address>,
                                         more: seq<Address>, p: seq<Address>)
    requires edges.Keys == edges'.Keys && forall a :: a in less ==> a in more
    requires IsWalk(LiveEdges(nodes, edges, more), p)
    ensures IsWalk(LiveEdges(nodes, edges', less), p)
  {
    if |p| > 1 {
      RouteSurvives(nodes, edges, edges', less, more, p[..|p| - 1]);
    }
  }

  /** A route that meets no blacklisted node is still there. */
  lemma {:induction false} RouteStays(nodes: map<Address, int>, edges: Arcs, edges': Arcs, less: seq<Address>,
                                      more: seq<Address>, p: seq<Address>)
    requires edges.Keys == edges'.Keys && IsWalk(LiveEdges(nodes, edges, less), p)
    requires forall i :: 0 <= i < |p| ==> p[i] !in more
    ensures IsWalk(LiveEdges(nodes, edges', more), p)
  {
    if |p| > 1 {
      RouteStays(nodes, edges, edges', less, more, p[..|p| - 1]);
    }
  }

  lemma {:induction false} SubWalk(nodes: map<Address, int>, edges: Arcs, blacklist: seq<Address>, p: seq<Address>)
    requires IsWalk(LiveEdges(nodes, edges, blacklist), p)
    ensures IsWalk(edges, p) && Weight(edges, p) == Weight(LiveEdges(nodes, edges, blacklist), p)
  {
    if |p| > 1 {
      SubWalk(nodes, edges, blacklist, p[..|p| - 1]);
    }
  }

  lemma LiveRoutesFit(nodes: map<Address, int>, edges: Arcs, blacklist: seq<Address>, source: Address)
    requires RoutesFit(edges, source)
    ensures RoutesFit(LiveEdges(nodes, edges, blacklist), source)
  {
    var live := LiveEdges(nodes, edges, blacklist);
    forall p | IsWalk(live, p) && p[|p| - 1] == source && NoRepeats(p) ensures Weight(live, p) < MAX_INT64 {
      SubWalk(nodes, edges, blacklist, p);
    }
  }

  /** The hop before the source on some route of the network that avoids the blacklist. */
  ghost predicate FirstHop(live: Arcs, from: Address, to: Address, hop: Address) {
    exists p :: Joins(live, p, to, from) && |p| > 1 && p[|p| - 2] == hop
  }

  ghost predicate MeetsAny(p: seq<Address>, nodes: set<Address>) {
    exists i :: 0 <= i < |p| - 1 && p[i] in nodes
  }

  /** Every route of more than one node meets one of `nodes` before its last node. */
  ghost predicate AllRoutesMeet(live: Arcs, from: Address, to: Address, nodes: set<Address>) {
    forall p :: Joins(live, p, to, from) && NoRepeats(p) && |p| > 1 ==> MeetsAny(p, nodes)
  }

  /** When a round finds no route, every route meets a node that was blacklisted since. */
  lemma NoRouteLeft(nodes: map<Address, int>, edges: Arcs, edges': Arcs, less: seq<Address>, more: seq<Address>,
                    from: Address, to: Address, path: seq<Address>)
    requires edges.Keys == edges'.Keys && (from in more ==> from in less)
    requires IsLightest(LiveEdges(nodes, edges', more), from, to, path) && |path| < 2
    ensures AllRoutesMeet(LiveEdges(nodes, edges, less), from, to, Elements(more) - Elements(less))
  {
    var live := LiveEdges(nodes, edges, less);
    forall p | Joins(live, p, to, from) && NoRepeats(p) && |p| > 1
      ensures MeetsAny(p, Elements(more) - Elements(less))
    {
      RouteAvoidsBlacklist(nodes, edges, less, p);
      if forall i :: 0 <= i < |p| ==> p[i] !in more {
        RouteStays(nodes, edges, edges', less, more, p);
        assert Joins(LiveEdges(nodes, edges', more), p, to, from);
      } else {
        var i :| 0 <= i < |p| && p[i] in more;
        assert p[i] in Elements(more) - Elements(less);
      }
    }
  }

  /** A round's hop is a listed node that was not blacklisted, and not the source. */
  lemma HopIsNew(nodes: map<Address, int>, edges: Arcs, edges': Arcs, less: seq<Address>, more: seq<Address>,
                 from: Address, to: Address, path: seq<Address>)
    requires edges.Keys == edges'.Keys && forall a :: a in less ==> a in more
    requires IsLightest(LiveEdges(nodes, edges', more), from, to, path) && |path| >= 2
    ensures var hop := path[|path| - 2];
            && hop in nodes && hop !in more && hop != from
            && FirstHop(LiveEdges(nodes, edges, less), from, to, hop)
    ensures !AllRoutesMeet(LiveEdges(nodes, edges, less), from, to, Elements(more) - Elements(less))
  {
    RouteAvoidsBlacklist(nodes, edges', more, path);
    RouteSurvives(nodes, edges', edges, less, more, path);
    assert Joins(LiveEdges(nodes, edges, less), path, to, from);
    assert !MeetsAny(path, Elements(more) - Elements(less));
  }

  lemma FewerNodes(nodes: map<Address, int>, bad: seq<Address>, hop: Address)
    requires hop in nodes && hop !in bad
    ensures nodes.Keys - Elements(bad + [hop]) < nodes.Keys - Elements(bad)
    ensures |nodes.Keys - Elements(bad + [hop])| == |nodes.Keys - Elements(bad)| - 1
    ensures Elements(bad + [hop]) == Elements(bad) + {hop}
  {
    assert Elements(bad + [hop]) == Elements(bad) + {hop};
    assert nodes.Keys - Elements(bad + [hop]) == (nodes.Keys - Elements(bad)) - {hop};
    assert hop in nodes.Keys - Elements(bad);
  }

  /** The blacklist has grown by the refused hops, none of which is the source. */
  ghost predicate Narrowed(nodes: map<Address, int>, less: seq<Address>, bad: seq<Address>, refused: set<Address>,
                           from: Address)
  {
    && (forall a :: a in less ==> a in bad)
    && refused == Elements(bad) - Elements(less) && from !in refused
    && |less| <= |bad| && |bad| + |nodes.Keys - Elements(bad)| <= |less| + |nodes|
  }

  lemma NarrowsOn(nodes: map<Address, int>, less: seq<Address>, bad: seq<Address>, refused: set<Address>, from: Address,
                  hop: Address)
    requires Narrowed(nodes, less, bad, refused, from) && hop in nodes && hop !in bad && hop != from
    ensures Narrowed(nodes, less, bad + [hop], refused + {hop}, from)
    ensures nodes.Keys - Elements(bad + [hop]) < nodes.Keys - Elements(bad)
  {
    FewerNodes(nodes, bad, hop);
  }

  /** The edge map as a round overwrites it. */
  method WeighEdges(strategy: Strategy, ghost edges: Arcs, current: Arcs, amount: uint64, visited: nat,
                    schedules: map<Address, Mediator.FeeSchedule>, ghost from: Address)
    returns (next: Arcs)
    requires current.Keys == edges.Keys && NonNegative(current) && (strategy.Plain? ==> current == edges)
    requires Penalizes(strategy) && RoutesFit(Reweigh(strategy, edges, amount, visited, schedules), from)
    ensures next.Keys == edges.Keys && NonNegative(next) && RoutesFit(next, from)
    ensures strategy.Plain? ==> next == edges
    ensures next == Reweigh(strategy, edges, amount, visited, schedules)
  {
    ReweighAgain(strategy, current, edges, amount, visited, schedules);
    ReweighNonNegative(strategy, current, amount, visited, schedules);
    next := Reweigh(strategy, current, amount, visited, schedules);
  }

  /** Every weighing the loop can come to leaves the routes light enough for a signed word. */
  ghost predicate AlwaysFits(nodes: map<Address, int>, edges: Arcs, from: Address, amount: uint64, badAddrs: seq<Address>,
                             strategy: Strategy, schedules: map<Address, Mediator.FeeSchedule>)
  {
    forall visited :: |badAddrs| <= visited <= |badAddrs| + |nodes| ==>
      RoutesFit(Reweigh(strategy, edges, amount, visited, schedules), from)
  }

  /** What a call of the loop works with; `usable` are the hops it would not refuse. */
  datatype Query = Query(nodes: map<Address, int>, edges: Arcs, usable: set<Address>, from: Address, to: Address,
                         amount: uint64, strategy: Strategy, schedules: map<Address, Mediator.FeeSchedule>)

  ghost function UsableHops(s: Surroundings, to: Address, amount: uint64): set<Address>
    reads s.channels.Values, set c | c in s.channels.Values :: c.our, set c | c in s.channels.Values :: c.partner
  {
    set a | a in s.channels && Usable(s, to, amount, a)
  }

  /**
   A first hop is usable exactly when it is the target or a DNS node (the chain's list counts
   when no other is known), is reachable, and its channel is open and can still pay the amount.
   */
  lemma UsableIff(s: Surroundings, to: Address, amount: uint64, hop: Address)
    requires hop in s.channels ==>
               && EndValid(s.channels[hop].our.Value()) && EndValid(s.channels[hop].partner.Value())
               && BothSolvent(s.channels[hop].our.Value(), s.channels[hop].partner.Value())
    ensures hop in UsableHops(s, to, amount) <==>
              && (hop == to || hop in s.dns || (s.dns == {} && hop in s.dnsOnChain))
              && hop in s.reachable && hop in s.channels
              && var c := s.channels[hop].Value();
              && c.settleTx == None && c.closeTx == None
              && Outstanding(ViewOf(c.our)) + amount <= Credit(c.our, c.partner)
              && Outstanding(ViewOf(c.our)) + amount <= MAX64
  {
    if hop in s.channels {
      AvailableIff(s.channels[hop], amount);
    }
  }

  /** A round's search: a lightest route under its weights that avoids the blacklist. */
  ghost predicate Searched(q: Query, bad: seq<Address>, path: seq<Address>) {
    IsLightest(LiveEdges(q.nodes, Reweigh(q.strategy, q.edges, q.amount, |bad|, q.schedules), bad), q.from, q.to, path)
  }

  /** `hop` is an answer the loop can give from the blacklist `bad` on. */
  ghost predicate CanAnswer(q: Query, bad: seq<Address>, hop: Option<Address>)
    decreases q.nodes.Keys - Elements(bad)
  {
    exists path :: Searched(q, bad, path) && AnswersBy(q, bad, hop, path)
  }

  ghost predicate AnswersBy(q: Query, bad: seq<Address>, hop: Option<Address>, path: seq<Address>)
    decreases q.nodes.Keys - Elements(bad), 0
  {
    if |path| < 2 then hop == None
    else
      var next := path[|path| - 2];
      if next in q.usable then hop == Some(next)
      else if next !in q.nodes || next in bad then false
      else
        FewerNodes(q.nodes, bad, next);
        CanAnswer(q, bad + [next], hop)
  }

  /** Whatever the loop can answer from `bad` on is an answer to the whole call. */
  ghost predicate Leads(q: Query, badAddrs: seq<Address>, bad: seq<Address>)
  {
    forall hop :: CanAnswer(q, bad, hop) ==> CanAnswer(q, badAddrs, hop)
  }

  /** Every refused node is unusable and begins some route. */
  ghost predicate RefusedHops(q: Query, badAddrs: seq<Address>, refused: set<Address>)
  {
    forall a :: a in refused ==>
      a !in q.usable && FirstHop(LiveEdges(q.nodes, q.edges, badAddrs), q.from, q.to, a)
  }

  /**
   Every simple route meets, before its last node, a node that begins some route and is
   not usable as a hop; a caller can look for a route that does not.
   */
  ghost predicate NoUsableStart(live: Arcs, from: Address, to: Address, usable: set<Address>) {
    forall p :: Joins(live, p, to, from) && NoRepeats(p) && |p| > 1 ==>
      exists i :: 0 <= i < |p| - 1 && p[i] !in usable && FirstHop(live, from, to, p[i])
  }

  lemma RefusedOnAll(q: Query, badAddrs: seq<Address>, refused: set<Address>)
    requires RefusedHops(q, badAddrs, refused)
    requires AllRoutesMeet(LiveEdges(q.nodes, q.edges, badAddrs), q.from, q.to, refused)
    ensures NoUsableStart(LiveEdges(q.nodes, q.edges, badAddrs), q.from, q.to, q.usable)
  {
    var live := LiveEdges(q.nodes, q.edges, badAddrs);
    forall p | Joins(live, p, q.to, q.from) && NoRepeats(p) && |p| > 1
      ensures exists i :: 0 <= i < |p| - 1 && p[i] !in q.usable && FirstHop(live, q.from, q.to, p[i])
    {
      var i :| 0 <= i < |p| - 1 && p[i] in refused;
    }
  }

  lemma RoundEnds(q: Query, badAddrs: seq<Address>, bad: seq<Address>, path: seq<Address>, hop: Option<Address>)
    requires Leads(q, badAddrs, bad) && Searched(q, bad, path)
    requires |path| >= 2 ==> path[|path| - 2] in q.usable
    requires hop == if |path| < 2 then None else Some(path[|path| - 2])
    ensures CanAnswer(q, badAddrs, hop)
  {
    assert AnswersBy(q, bad, hop, path);
  }

  lemma RoundLeads(q: Query, badAddrs: seq<Address>, bad: seq<Address>, path: seq<Address>, refused: set<Address>)
    requires Leads(q, badAddrs, bad) && Searched(q, bad, path) && |path| >= 2
    requires path[|path| - 2] !in q.usable && path[|path| - 2] in q.nodes && path[|path| - 2] !in bad
    requires FirstHop(LiveEdges(q.nodes, q.edges, badAddrs), q.from, q.to, path[|path| - 2])
    requires RefusedHops(q, badAddrs, refused)
    ensures Leads(q, badAddrs, bad + [path[|path| - 2]])
    ensures RefusedHops(q, badAddrs, refused + {path[|path| - 2]})
  {
    var next := path[|path| - 2];
    forall hop | CanAnswer(q, bad + [next], hop) ensures CanAnswer(q, badAddrs, hop) {
      assert AnswersBy(q, bad, hop, path);
    }
  }

  /** One round of the loop: a search on new weights and the current blacklist. */
  method Round(ghost q: Query, nodes: map<Address, int>, current: Arcs, from: Address, to: Address, amount: uint64,
               ghost badAddrs: seq<Address>, bad: seq<Address>, ghost refused: set<Address>, strategy: Strategy,
               schedules: map<Address, Mediator.FeeSchedule>)
    returns (next: Arcs, path: seq<Address>)
    requires q == Query(nodes, q.edges, q.usable, from, to, amount, strategy, schedules)
    requires current.Keys == q.edges.Keys && NonNegative(current) && (strategy.Plain? ==> current == q.edges)
    requires Penalizes(strategy) && AlwaysFits(nodes, q.edges, from, amount, badAddrs, strategy, schedules)
    requires Narrowed(nodes, badAddrs, bad, refused, from)
    ensures next.Keys == q.edges.Keys && NonNegative(next) && (strategy.Plain? ==> next == q.edges)
    ensures Searched(q, bad, path)
    ensures |path| < 2 <==> AllRoutesMeet(LiveEdges(nodes, q.edges, badAddrs), from, to, refused)
    ensures |path| >= 2 ==>
              && var hop := path[|path| - 2];
              && hop in nodes && hop !in bad && hop != from
              && FirstHop(LiveEdges(nodes, q.edges, badAddrs), from, to, hop)
  {
    next := WeighEdges(strategy, q.edges, current, amount, |bad|, schedules, from);
    LiveRoutesFit(nodes, next, bad, from);
    path := Dijkstra.ShortestPath(nodes, next, bad, from, to);
    if |path| < 2 {
      NoRouteLeft(nodes, q.edges, next, badAddrs, bad, from, to, path);
    } else {
      HopIsNew(nodes, q.edges, next, badAddrs, bad, from, to, path);
    }
  }

  /**
   `GetBestRoutesByDijkstra`: terminates, and a hop it returns is usable, outside the
   given blacklist and on a route to the target.  It returns none exactly when no DNS
   node is known or every route meets a refused hop, each of which is unusable and
   begins some route itself.
   */
  method BestRoute(nodes: map<Address, int>, edges: Arcs, s: Surroundings, from: Address, to: Address, amount: uint64,
                   badAddrs: seq<Address>, strategy: Strategy, schedules: map<Address, Mediator.FeeSchedule>,
                   ghost usable: set<Address>)
    returns (hop: Option<Address>, ghost refused: set<Address>)
    requires usable == UsableHops(s, to, amount)
    requires NonNegative(edges) && Penalizes(strategy)
    requires AlwaysFits(nodes, edges, from, amount, badAddrs, strategy, schedules)
    ensures hop.Some? ==>
              && hop.value in usable && hop.value !in badAddrs
              && FirstHop(LiveEdges(nodes, edges, badAddrs), from, to, hop.value)
    ensures forall a :: a in refused ==>
              a !in usable && FirstHop(LiveEdges(nodes, edges, badAddrs), from, to, a)
    ensures hop.None? <==>
              DnsOf(s) == {} || AllRoutesMeet(LiveEdges(nodes, edges, badAddrs), from, to, refused)
    ensures hop.None? && DnsOf(s) != {} ==> NoUsableStart(LiveEdges(nodes, edges, badAddrs), from, to, usable)
    ensures DnsOf(s) != {} ==>
              CanAnswer(Query(nodes, edges, usable, from, to, amount, strategy, schedules), badAddrs, hop)
  {
    refused := {};
    if DnsOf(s) == {} {
      return None, refused;
    }
    ghost var q := Query(nodes, edges, usable, from, to, amount, strategy, schedules);
    var bad, current := badAddrs, edges;
    while true
      invariant Narrowed(nodes, badAddrs, bad, refused, from)
      invariant RefusedHops(q, badAddrs, refused)
      invariant current.Keys == edges.Keys && NonNegative(current) && (strategy.Plain? ==> current == edges)
      invariant Leads(q, badAddrs, bad)
      decreases nodes.Keys - Elements(bad)
    {
      var path;
      current, path := Round(q, nodes, current, from, to, amount, badAddrs, bad, refused, strategy, schedules);
      if |path| < 2 {
        RoundEnds(q, badAddrs, bad, path, None);
        RefusedOnAll(q, badAddrs, refused);
        return None, refused;
      }
      var nextHop := path[|path| - 2];
      var ok := CheckHop(s, to, amount, nextHop);
      if ok {
        RoundEnds(q, badAddrs, bad, path, Some(nextHop));
        return Some(nextHop), refused;
      }
      RoundLeads(q, badAddrs, bad, path, refused);
      NarrowsOn(nodes, badAddrs, bad, refused, from, nextHop);
      bad := bad + [nextHop];
      refused := refused + {nextHop};
    }
  }
}
