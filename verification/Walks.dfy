/** Walks in a weighted directed graph, the terms in which both searches of route/ are specified. */
module Walks {
  import opened Prelude

  type Arcs = map<(Address, Address), int>

  ghost predicate IsWalk(arcs: Arcs, p: seq<Address>) {
    && p != []
    && (|p| > 1 ==> IsWalk(arcs, p[..|p| - 1]) && (p[|p| - 2], p[|p| - 1]) in arcs)
  }

  ghost function Weight(arcs: Arcs, p: seq<Address>): int
    requires IsWalk(arcs, p)
  {
    if |p| == 1 then 0 else Weight(arcs, p[..|p| - 1]) + arcs[(p[|p| - 2], p[|p| - 1])]
  }

  ghost predicate Joins(arcs: Arcs, p: seq<Address>, a: Address, b: Address) {
    IsWalk(arcs, p) && p[0] == a && p[|p| - 1] == b
  }

  ghost predicate NoRepeats(p: seq<Address>) {
    forall i, j :: 0 <= i < j < |p| ==> p[i] != p[j]
  }

  ghost function Elements(p: seq<Address>): set<Address> {
    set a | a in p
  }

  ghost predicate NonNegative(arcs: Arcs) {
    forall e :: e in arcs ==> arcs[e] >= 0
  }

  lemma Extend(arcs: Arcs, p: seq<Address>, y: Address)
    requires IsWalk(arcs, p) && (p[|p| - 1], y) in arcs
    ensures IsWalk(arcs, p + [y])
    ensures Weight(arcs, p + [y]) == Weight(arcs, p) + arcs[(p[|p| - 1], y)]
  {
    assert (p + [y])[..|p|] == p;
  }

  lemma {:induction false} WeightNonNegative(arcs: Arcs, p: seq<Address>)
    requires NonNegative(arcs) && IsWalk(arcs, p)
    ensures Weight(arcs, p) >= 0
  {
    if |p| > 1 {
      WeightNonNegative(arcs, p[..|p| - 1]);
    }
  }

  lemma {:induction false} WalkCons(arcs: Arcs, x: Address, p: seq<Address>)
    requires p != []
    ensures IsWalk(arcs, [x] + p) <==> (x, p[0]) in arcs && IsWalk(arcs, p)
    ensures IsWalk(arcs, [x] + p) ==> Weight(arcs, [x] + p) == arcs[(x, p[0])] + Weight(arcs, p)
    decreases |p|
  {
    var q := [x] + p;
    if |p| == 1 {
      assert q[..1] == [x];
    } else {
      assert q[..|p|] == [x] + p[..|p| - 1];
      WalkCons(arcs, x, p[..|p| - 1]);
    }
  }

  /** The nodes of a walk with at least one arc are end points of arcs. */
  lemma {:induction false} WalkNodes(arcs: Arcs, p: seq<Address>, i: nat)
    requires IsWalk(arcs, p) && |p| > 1 && i < |p|
    ensures exists e :: e in arcs && (e.0 == p[i] || e.1 == p[i])
  {
    if i >= |p| - 2 {
      assert (p[|p| - 2], p[|p| - 1]) in arcs;
    } else {
      WalkNodes(arcs, p[..|p| - 1], i);
    }
  }

  lemma {:induction false} WalkArc(arcs: Arcs, p: seq<Address>, i: nat)
    requires IsWalk(arcs, p) && i + 1 < |p|
    ensures (p[i], p[i + 1]) in arcs
  {
    if i + 2 < |p| {
      WalkArc(arcs, p[..|p| - 1], i);
    }
  }

  // ----- the other way round -----

  ghost predicate Transposed(a: Arcs, b: Arcs) {
    forall x, y :: ((x, y) in a <==> (y, x) in b) && ((x, y) in a ==> a[(x, y)] == b[(y, x)])
  }

  function Reverse(p: seq<Address>): seq<Address> {
    if p == [] then [] else [p[|p| - 1]] + Reverse(p[..|p| - 1])
  }

  lemma {:induction false} ReverseAt(p: seq<Address>, k: nat)
    requires k < |p|
    ensures |Reverse(p)| == |p| && Reverse(p)[k] == p[|p| - 1 - k]
  {
    if |p| > 1 {
      ReverseAt(p[..|p| - 1], if k > 0 then k - 1 else 0);
    }
  }

  lemma ReverseEnds(p: seq<Address>)
    requires p != []
    ensures |Reverse(p)| == |p| && Reverse(p)[0] == p[|p| - 1] && Reverse(p)[|p| - 1] == p[0]
  {
    ReverseAt(p, 0);
    ReverseAt(p, |p| - 1);
  }

  lemma ReverseNoRepeats(p: seq<Address>)
    requires NoRepeats(p)
    ensures NoRepeats(Reverse(p))
  {
    forall i, j | 0 <= i < j < |Reverse(p)| ensures Reverse(p)[i] != Reverse(p)[j] {
      ReverseAt(p, 0);
      ReverseAt(p, i);
      ReverseAt(p, j);
    }
  }

  /** Reversing a walk gives a walk of the same weight against the arcs. */
  lemma {:induction false} ReverseWalk(a: Arcs, b: Arcs, p: seq<Address>)
    requires Transposed(a, b) && IsWalk(a, p)
    ensures IsWalk(b, Reverse(p)) && Weight(b, Reverse(p)) == Weight(a, p)
  {
    if |p| == 1 {
      assert Reverse(p) == p;
    } else {
      var init, last := p[..|p| - 1], p[|p| - 1];
      ReverseWalk(a, b, init);
      ReverseEnds(init);
      assert (init[|init| - 1], last) in a;
      WalkCons(b, last, Reverse(init));
    }
  }

  // ----- the part of a network a search may use -----

  predicate Live(nodes: map<Address, int>, blacklist: seq<Address>, a: Address) {
    a in nodes && a !in blacklist
  }

  ghost function LiveEdges(nodes: map<Address, int>, edges: Arcs, blacklist: seq<Address>): Arcs {
    map e | e in edges && Live(nodes, blacklist, e.0) && Live(nodes, blacklist, e.1) :: edges[e]
  }

  /** A route from `to` to `from` with at least one hop uses listed nodes outside the blacklist only. */
  lemma RouteAvoidsBlacklist(nodes: map<Address, int>, edges: Arcs, blacklist: seq<Address>, p: seq<Address>)
    requires IsWalk(LiveEdges(nodes, edges, blacklist), p) && |p| > 1
    ensures forall i :: 0 <= i < |p| ==> Live(nodes, blacklist, p[i])
  {
    forall i | 0 <= i < |p| ensures Live(nodes, blacklist, p[i]) {
      WalkNodes(LiveEdges(nodes, edges, blacklist), p, i);
    }
  }

  /** `path` is a lightest route of the network from `to` to `from`, or empty when there is none. */
  ghost predicate IsLightest(live: Arcs, from: Address, to: Address, path: seq<Address>) {
    && (path == [] <==> forall q :: !Joins(live, q, to, from))
    && (path != [] ==>
          && Joins(live, path, to, from)
          && NoRepeats(path)
          && forall q :: Joins(live, q, to, from) ==> Weight(live, path) <= Weight(live, q))
  }

  /** Routes into `source` without a repeated node weigh less than the largest signed word. */
  ghost predicate RoutesFit(live: Arcs, source: Address) {
    forall p :: IsWalk(live, p) && p[|p| - 1] == source && NoRepeats(p) ==> Weight(live, p) < MAX_INT64
  }
}
