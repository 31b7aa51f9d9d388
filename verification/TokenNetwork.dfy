/**
 The indexes a token network derives from its channels and routes
 (transfer/state.go, transfer/tokennetwork.go) agree with them after every operation.
 */
module TokenNetwork {
  import opened Prelude
  import opened NettingChannelState
  import Walks
  import RouteSelection

  type Nodes = map<Address, int>

  // ----- the graph index -----

  function OutEdges(edges: Walks.Arcs, a: Address): set<(Address, Address)> {
    set e | e in edges && e.0 == a
  }

  ghost predicate Symmetric(edges: Walks.Arcs) {
    forall x, y :: (x, y) in edges <==> (y, x) in edges
  }

  /** What `Nodes` should say about an address: its edges, and one more for the local node. */
  function Degree(edges: Walks.Arcs, local: Address, a: Address): nat {
    |OutEdges(edges, a)| + (if a == local then 1 else 0)
  }

  ghost predicate Counts(nodes: Nodes, edges: Walks.Arcs, local: Address) {
    && (forall a :: a in nodes <==> Degree(edges, local, a) > 0)
    && (forall a :: a in nodes ==> nodes[a] == Degree(edges, local, a))
  }

  function Counted(nodes: Nodes, a: Address): Nodes {
    nodes[a := if a in nodes then nodes[a] + 1 else 1]
  }

  function Discounted(nodes: Nodes, a: Address): Nodes {
    if a !in nodes then nodes
    else if nodes[a] <= 1 then nodes - {a}
    else nodes[a := nodes[a] - 1]
  }

  lemma EdgeAdded(edges: Walks.Arcs, local: Address, x: Address, y: Address)
    requires (x, y) !in edges
    ensures forall a :: Degree(edges[(x, y) := 1], local, a) == Degree(edges, local, a) + (if a == x then 1 else 0)
  {
    var more := edges[(x, y) := 1];
    forall a ensures Degree(more, local, a) == Degree(edges, local, a) + (if a == x then 1 else 0) {
      if a == x {
        assert OutEdges(more, a) == OutEdges(edges, a) + {(x, y)};
      } else {
        assert OutEdges(more, a) == OutEdges(edges, a);
      }
    }
  }

  lemma EdgeRemoved(edges: Walks.Arcs, local: Address, x: Address, y: Address)
    requires (x, y) in edges
    ensures forall a :: Degree(edges - {(x, y)}, local, a) == Degree(edges, local, a) - (if a == x then 1 else 0)
  {
    var less := edges - {(x, y)};
    forall a ensures Degree(less, local, a) == Degree(edges, local, a) - (if a == x then 1 else 0) {
      if a == x {
        assert OutEdges(edges, a) == OutEdges(less, a) + {(x, y)};
      } else {
        assert OutEdges(less, a) == OutEdges(edges, a);
      }
    }
  }

  lemma AddingCounts(nodes: Nodes, edges: Walks.Arcs, local: Address, x: Address, y: Address)
    requires Counts(nodes, edges, local) && (x, y) !in edges
    ensures Counts(Counted(nodes, x), edges[(x, y) := 1], local)
  {
    EdgeAdded(edges, local, x, y);
    assert Degree(edges[(x, y) := 1], local, x) == Degree(edges, local, x) + 1;
  }

  lemma RemovingCounts(nodes: Nodes, edges: Walks.Arcs, local: Address, x: Address, y: Address)
    requires Counts(nodes, edges, local) && (x, y) in edges
    ensures Counts(Discounted(nodes, x), edges - {(x, y)}, local)
  {
    EdgeRemoved(edges, local, x, y);
    assert Degree(edges - {(x, y)}, local, x) == Degree(edges, local, x) - 1;
  }

  /** Every end point of an edge is a node, as the route search expects. */
  lemma EndPointsAreNodes(nodes: Nodes, edges: Walks.Arcs, local: Address)
    requires Counts(nodes, edges, local) && Symmetric(edges)
    ensures RouteSelection.EndPointsListed(nodes, edges)
  {
    forall e | e in edges ensures e.0 in nodes && e.1 in nodes {
      var x, y := e.0, e.1;
      assert (x, y) in edges && (y, x) in edges;
      assert (x, y) in OutEdges(edges, x) && (y, x) in OutEdges(edges, y);
    }
  }

  // ----- the partner index -----

  type ChannelMap = map<nat, NettingChannel>

  function PartnerOf(c: NettingChannel): Address {
    c.partner.address
  }

  ghost predicate Identified(channels: ChannelMap) {
    forall id :: id in channels ==> channels[id].key.channelId == id
  }

  /** The index holds exactly the channels, under their partner and their id. */
  ghost predicate Indexes(partners: map<Address, ChannelMap>, channels: ChannelMap) {
    && (forall a, id :: a in partners && id in partners[a] ==> id in channels && partners[a][id] == channels[id])
    && (forall a, id :: a in partners && id in partners[a] ==> PartnerOf(channels[id]) == a)
    && (forall id :: id in channels ==> PartnerOf(channels[id]) in partners && id in partners[PartnerOf(channels[id])])
  }

  ghost predicate NoEmptyGroup(partners: map<Address, ChannelMap>) {
    forall a :: a in partners ==> partners[a] != map[]
  }

  function Group(partners: map<Address, ChannelMap>, a: Address): ChannelMap {
    if a in partners then partners[a] else map[]
  }

  /** Two indexes of the same channels differ in empty groups at most. */
  lemma IndexUnique(p: map<Address, ChannelMap>, q: map<Address, ChannelMap>, channels: ChannelMap)
    requires Indexes(p, channels) && Indexes(q, channels)
    ensures forall a :: Group(p, a) == Group(q, a)
    ensures NoEmptyGroup(p) && NoEmptyGroup(q) ==> p == q
  {
    forall a ensures Group(p, a) == Group(q, a) {
      GroupIs(p, channels, a);
      GroupIs(q, channels, a);
    }
    if NoEmptyGroup(p) && NoEmptyGroup(q) {
      forall a ensures (a in p <==> a in q) && (a in p ==> p[a] == q[a]) {
        assert Group(p, a) == Group(q, a);
      }
    }
  }

  lemma GroupIs(p: map<Address, ChannelMap>, channels: ChannelMap, a: Address)
    requires Indexes(p, channels)
    ensures forall id :: id in Group(p, a) <==> id in channels && PartnerOf(channels[id]) == a
    ensures forall id :: id in Group(p, a) ==> Group(p, a)[id] == channels[id]
  {
  }

  function Filed(partners: map<Address, ChannelMap>, id: nat, c: NettingChannel): map<Address, ChannelMap> {
    partners[PartnerOf(c) := Group(partners, PartnerOf(c))[id := c]]
  }

  lemma FilingIndexes(partners: map<Address, ChannelMap>, channels: ChannelMap, id: nat, c: NettingChannel)
    requires Indexes(partners, channels) && (id in channels ==> channels[id] == c)
    ensures Indexes(Filed(partners, id, c), channels[id := c])
    ensures NoEmptyGroup(partners) ==> NoEmptyGroup(Filed(partners, id, c))
  {
    assert id in Filed(partners, id, c)[PartnerOf(c)];
  }

  function Unfiled(partners: map<Address, ChannelMap>, id: nat, a: Address): map<Address, ChannelMap> {
    partners[a := Group(partners, a) - {id}]
  }

  lemma UnfilingIndexes(partners: map<Address, ChannelMap>, channels: ChannelMap, id: nat)
    requires Indexes(partners, channels) && id in channels
    ensures Indexes(Unfiled(partners, id, PartnerOf(channels[id])), channels - {id})
  {
  }

  // ----- the operations -----

  class TokenNetworkState {
    const local: Address
    var nodes: Nodes
    var edges: Walks.Arcs
    var channels: ChannelMap
    var partners: map<Address, ChannelMap>

    ghost predicate GraphValid()
      reads this`nodes, this`edges
    {
      Symmetric(edges) && Counts(nodes, edges, local)
    }

    ghost predicate IndexValid()
      reads this`channels, this`partners
    {
      Identified(channels) && Indexes(partners, channels)
    }

    ghost predicate Valid()
      reads this
    {
      GraphValid() && IndexValid()
    }

    /** `NewTokenNetworkState`. */
    constructor (local: Address)
      ensures Valid() && this.local == local
      ensures nodes == map[local := 1] && edges == map[] && channels == map[] && partners == map[]
    {
      this.local := local;
      nodes, edges, channels, partners := map[local := 1], map[], map[], map[];
      new;
      assert forall a :: OutEdges(edges, a) == {};
    }

    /** One half of `AddRoute`: an edge that is already there is not counted again. */
    method AddEdge(x: Address, y: Address) returns (added: bool)
      requires Counts(nodes, edges, local)
      modifies this`nodes, this`edges
      ensures Counts(nodes, edges, local)
      ensures added == ((x, y) !in old(edges))
      ensures edges == if added then old(edges)[(x, y) := 1] else old(edges)
    {
      added := (x, y) !in edges;
      if added {
        AddingCounts(nodes, edges, local, x, y);
        edges := edges[(x, y) := 1];
        nodes := nodes[x := if x in nodes then nodes[x] + 1 else 1];
      }
    }

    /** `AddRoute`. */
    method AddRoute(addr1: Address, addr2: Address)
      requires GraphValid()
      modifies this`nodes, this`edges
      ensures GraphValid()
      ensures edges.Keys == old(edges.Keys) + {(addr1, addr2), (addr2, addr1)}
      ensures forall e :: e in edges ==> edges[e] == if e in old(edges) then old(edges)[e] else 1
    {
      var added := AddEdge(addr1, addr2);
      if !added {
        return;
      }
      added := AddEdge(addr2, addr1);
    }

    /** One half of `DelRoute`: a node without edges is deleted, unless it is the local one. */
    method DelEdge(x: Address, y: Address)
      requires Counts(nodes, edges, local)
      modifies this`nodes, this`edges
      ensures Counts(nodes, edges, local)
      ensures edges == old(edges) - {(x, y)}
    {
      if (x, y) in edges {
        RemovingCounts(nodes, edges, local, x, y);
        edges := edges - {(x, y)};
        if x in nodes {
          if nodes[x] <= 1 {
            nodes := nodes - {x};
          } else {
            nodes := nodes[x := nodes[x] - 1];
          }
        }
      } else {
        assert edges == edges - {(x, y)};
      }
    }

    /** `DelRoute`. */
    method DelRoute(channelId: nat)
      requires GraphValid()
      modifies this`nodes, this`edges
      ensures GraphValid()
      ensures edges ==
              if channelId in channels then
                var c := channels[channelId];
                old(edges) - {(c.our.address, PartnerOf(c)), (PartnerOf(c), c.our.address)}
              else old(edges)
    {
      if channelId in channels {
        var addr1, addr2 := channels[channelId].our.address, channels[channelId].partner.address;
        DelEdge(addr1, addr2);
        DelEdge(addr2, addr1);
        assert old(edges) - {(addr1, addr2)} - {(addr2, addr1)} == old(edges) - {(addr1, addr2), (addr2, addr1)};
      }
    }

    /** Enters a channel into the channel map and under its partner. */
    method File(c: NettingChannel)
      requires IndexValid()
      requires c.key.channelId in channels ==> channels[c.key.channelId] == c
      modifies this`channels, this`partners
      ensures IndexValid() && channels == old(channels)[c.key.channelId := c]
    {
      var channelId := c.key.channelId;
      FilingIndexes(partners, channels, channelId, c);
      channels := channels[channelId := c];
      var group: ChannelMap := Group(partners, c.partner.address)[channelId := c];
      partners := partners[c.partner.address := group];
    }

    /** Deletes a channel from both maps. */
    method Unfile(channelId: nat)
      requires IndexValid() && channelId in channels
      modifies this`channels, this`partners
      ensures IndexValid() && channels == old(channels) - {channelId}
    {
      UnfilingIndexes(partners, channels, channelId);
      var a := channels[channelId].partner.address;
      channels := channels - {channelId};
      partners := partners[a := Group(partners, a) - {channelId}];
    }

    /** `handleChannelNew`. */
    method HandleChannelNew(c: NettingChannel)
      requires Valid()
      modifies this
      ensures Valid()
      ensures channels == if c.key.channelId in old(channels) then old(channels) else old(channels)[c.key.channelId := c]
      ensures (c.our.address, PartnerOf(c)) in edges && (PartnerOf(c), c.our.address) in edges
    {
      AddRoute(c.our.address, c.partner.address);
      if c.key.channelId !in channels {
        File(c);
      }
    }

    /** `subDispatchToChannelById`, given whether the channel's own transition settled and removed it. */
    method SubDispatchToChannelById(channelId: nat, settled: bool)
      requires IndexValid()
      modifies this`channels, this`partners
      ensures IndexValid()
      ensures channels == if settled then old(channels) - {channelId} else old(channels)
    {
      if channelId !in channels {
        assert channels == channels - {channelId};
      } else if settled {
        Unfile(channelId);
      } else {
        File(channels[channelId]);
        assert channels == old(channels);
      }
    }

    /** `handleBatchUnlock`: visits the channels in any order, given which of them their own transition removed. */
    method HandleBatchUnlock(participant1: Address, participant2: Address, settled: set<nat>)
      requires IndexValid()
      modifies this`channels, this`partners
      ensures IndexValid()
      ensures channels == Remaining(old(channels), {}, participant1, participant2, settled)
    {
      ghost var was := channels;
      var rest := channels.Keys;
      while rest != {}
        invariant IndexValid() && rest <= was.Keys
        invariant channels == Remaining(was, rest, participant1, participant2, settled)
        decreases rest
      {
        var id :| id in rest;
        VisitedNext(was, rest, participant1, participant2, settled, id);
        if Between(channels[id], participant1, participant2) && id in settled {
          Unfile(id);
        }
        rest := rest - {id};
      }
    }

    /** `AdjustTokenNetworkState`: rebuilds the partner index, which changes nothing but empty groups. */
    method AdjustTokenNetworkState()
      requires IndexValid()
      modifies this`partners
      ensures IndexValid() && NoEmptyGroup(partners)
      ensures forall a :: Group(partners, a) == Group(old(partners), a)
    {
      var rebuilt := Regroup();
      IndexUnique(rebuilt, partners, channels);
      partners := rebuilt;
    }

    /** Its loop over the channels, in any order. */
    method Regroup() returns (rebuilt: map<Address, ChannelMap>)
      requires Identified(channels)
      ensures Indexes(rebuilt, channels) && NoEmptyGroup(rebuilt)
    {
      rebuilt := map[];
      var rest := channels.Keys;
      ghost var done: ChannelMap := map[];
      while rest != {}
        invariant rest <= channels.Keys
        invariant forall id :: id in channels <==> id in done || id in rest
        invariant forall id :: id in done ==> done[id] == channels[id]
        invariant Indexes(rebuilt, done) && NoEmptyGroup(rebuilt)
        decreases rest
      {
        var id :| id in rest;
        var v := channels[id];
        FilingIndexes(rebuilt, done, id, v);
        var group: ChannelMap := Group(rebuilt, v.partner.address)[v.key.channelId := v];
        rebuilt := rebuilt[v.partner.address := group];
        done := done[id := v];
        rest := rest - {id};
      }
      assert done == channels;
    }
  }

  /** The channels that are still to be visited or were not removed. */
  ghost function Remaining(was: ChannelMap, rest: set<nat>, p: Address, q: Address, settled: set<nat>): ChannelMap {
    map id | id in was && (id in rest || !(id in settled && Parties(was[id]) == multiset{p, q})) :: was[id]
  }

  lemma VisitedNext(was: ChannelMap, rest: set<nat>, p: Address, q: Address, settled: set<nat>, id: nat)
    requires id in rest && id in was
    ensures var now := Remaining(was, rest, p, q, settled);
            && id in now && now[id] == was[id]
            && Remaining(was, rest - {id}, p, q, settled) ==
                 if id in settled && Between(was[id], p, q) then now - {id} else now
  {
    BothOrders(was[id], p, q);
  }

  /** The two addresses of a channel, in no order. */
  ghost function Parties(c: NettingChannel): multiset<Address> {
    multiset{c.our.address, c.partner.address}
  }

  lemma BothOrders(c: NettingChannel, p: Address, q: Address)
    ensures Between(c, p, q) <==> Parties(c) == multiset{p, q}
  {
    if Parties(c) == multiset{p, q} {
      assert c.our.address in multiset{p, q} && p in Parties(c);
      if c.our.address == p {
        assert multiset{c.partner.address} == Parties(c) - multiset{p} == multiset{q};
        assert c.partner.address in multiset{q};
      } else {
        assert multiset{c.partner.address} == Parties(c) - multiset{q} == multiset{p};
        assert c.partner.address in multiset{p};
      }
    }
  }

  predicate Between(c: NettingChannel, p: Address, q: Address) {
    || (c.our.address == p && c.partner.address == q)
    || (c.our.address == q && c.partner.address == p)
  }
}
