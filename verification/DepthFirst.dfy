/** The simple-path enumerator of route/dfs.go. */
module DepthFirst {
  import opened Prelude
  import opened Walks

  type Paths = seq<seq<Address>>

  // ----- what it enumerates -----

  /**
   `p` continues `q` to a simple route that ends in `from`, and no shorter continuation
   on the way is one of the paths `seen` in earlier calls.
   */
  ghost predicate Completes(arcs: Arcs, from: Address, seen: Paths, q: seq<Address>, p: seq<Address>) {
    && q <= p && IsWalk(arcs, p) && NoRepeats(p) && p[|p| - 1] == from
    && forall k :: |q| <= k < |p| ==> p[..k] !in seen
  }

  ghost predicate Once(paths: Paths) {
    forall i, j :: 0 <= i < j < |paths| ==> paths[i] != paths[j]
  }

  ghost predicate ByLength(paths: Paths) {
    forall i, j :: 0 <= i < j < |paths| ==> |paths[i]| <= |paths[j]|
  }

  /** A walk that has arrived goes no further. */
  lemma ArrivedOnly(arcs: Arcs, from: Address, seen: Paths, q: seq<Address>)
    requires IsWalk(arcs, q) && NoRepeats(q) && q[|q| - 1] == from
    ensures forall p :: Completes(arcs, from, seen, q, p) <==> p == q
  {
    forall p | Completes(arcs, from, seen, q, p) ensures p == q {
      assert p[|q| - 1] == q[|q| - 1] == p[|p| - 1];
    }
  }

  /** A walk that has not arrived goes on over one of the arcs, to a node it has not passed. */
  lemma GoesOn(arcs: Arcs, from: Address, seen: Paths, q: seq<Address>, p: seq<Address>)
    requires q != [] && q[|q| - 1] != from && Completes(arcs, from, seen, q, p)
    ensures |p| > |q| && (q[|q| - 1], p[|q|]) in arcs && p[|q|] !in q
    ensures Completes(arcs, from, seen, q + [p[|q|]], p) && q !in seen
  {
    assert |p| == |q| ==> p == q;
    WalkArc(arcs, p, |q| - 1);
    assert p[..|q|] == q;
    forall i | 0 <= i < |q| ensures q[i] != p[|q|] {
      assert q[i] == p[i];
    }
  }

  lemma GoesOnVia(arcs: Arcs, from: Address, seen: Paths, q: seq<Address>, n: Address, p: seq<Address>)
    requires Completes(arcs, from, seen, q + [n], p) && q !in seen
    ensures Completes(arcs, from, seen, q, p) && |p| > |q| && p[|q|] == n
  {
    assert (q + [n])[..|q|] == q && p[..|q|] == q;
    assert p[|q|] == (q + [n])[|q|];
  }

  /** The completions of `q` whose next node is one of `done`. */
  ghost predicate CompletesVia(arcs: Arcs, from: Address, seen: Paths, q: seq<Address>, done: set<Address>, p: seq<Address>) {
    Completes(arcs, from, seen, q, p) && |p| > |q| && p[|q|] in done
  }

  lemma AppendVia(arcs: Arcs, from: Address, seen: Paths, q: seq<Address>, done: set<Address>, n: Address, added: Paths, more: Paths)
    requires ListsVia(arcs, from, seen, q, done, added) && Lists(arcs, from, seen, q + [n], more)
    requires q != [] && q[|q| - 1] != from && n !in done && q !in seen
    ensures ListsVia(arcs, from, seen, q, done + {n}, added + more)
  {
    forall p | p in more ensures CompletesVia(arcs, from, seen, q, {n}, p) {
      GoesOnVia(arcs, from, seen, q, n, p);
    }
    forall p | CompletesVia(arcs, from, seen, q, {n}, p) ensures p in more {
      GoesOn(arcs, from, seen, q, p);
    }
    forall i, j | 0 <= i < |added| && 0 <= j < |more| ensures added[i] != more[j] {
      assert added[i] in added && more[j] in more;
    }
  }

  /** `added` lists those completions, each once. */
  ghost predicate ListsVia(arcs: Arcs, from: Address, seen: Paths, q: seq<Address>, done: set<Address>, added: Paths) {
    Once(added) && forall p :: p in added <==> CompletesVia(arcs, from, seen, q, done, p)
  }

  ghost predicate Lists(arcs: Arcs, from: Address, seen: Paths, q: seq<Address>, added: Paths) {
    Once(added) && forall p :: p in added <==> Completes(arcs, from, seen, q, p)
  }

  lemma ListedAll(arcs: Arcs, from: Address, seen: Paths, q: seq<Address>, done: set<Address>, added: Paths)
    requires ListsVia(arcs, from, seen, q, done, added) && q != [] && q[|q| - 1] != from
    requires forall n :: (q[|q| - 1], n) in arcs ==> n in done
    ensures Lists(arcs, from, seen, q, added)
  {
    forall p | Completes(arcs, from, seen, q, p) ensures p in added {
      GoesOn(arcs, from, seen, q, p);
    }
  }

  // ----- the search -----

  ghost predicate Covers(edges: map<Address, map<Address, int>>, arcs: Arcs) {
    forall a, b :: (a in edges && b in edges[a]) <==> (a, b) in arcs
  }

  ghost function Targets(arcs: Arcs): set<Address> {
    set e | e in arcs :: e.1
  }

  lemma FewerLeft(arcs: Arcs, q: seq<Address>, n: Address)
    requires q != [] && (q[|q| - 1], n) in arcs && n !in q
    ensures Targets(arcs) - Elements(q + [n]) < Targets(arcs) - Elements(q)
  {
    assert n in Targets(arcs) by {
      var e := (q[|q| - 1], n);
      assert e in arcs && e.1 == n;
    }
    assert n in Targets(arcs) - Elements(q) && n !in Targets(arcs) - Elements(q + [n]);
  }

  class Topology {
    var nodes: map<Address, int>
    var edges: map<Address, map<Address, int>>
    var sp: Paths

    /** `NewTopology`: keeps what the blacklist does not name; the end points of an edge need not be listed. */
    constructor (nodes: map<Address, int>, edges: Arcs, blacklist: seq<Address>)
      ensures sp == [] && Covers(this.edges, OpenEdges(edges, blacklist))
      ensures this.edges == map[] <==> OpenEdges(edges, blacklist) == map[]
      ensures this.nodes == map a | a in nodes && a !in blacklist :: nodes[a]
    {
      this.nodes := map a | a in nodes && a !in blacklist :: nodes[a];
      this.edges := map[];
      sp := [];
      new;
      this.edges := GroupEdges(edges, blacklist);
      GroupedCovers(this.edges, OpenEdges(edges, blacklist));
    }

    method Walked(path: seq<Address>, n: Address) returns (walked: bool)
      ensures walked == (n in path)
    {
      for i := 0 to |path|
        invariant n !in path[..i]
      {
        if path[i] == n {
          return true;
        }
      }
      assert path[..|path|] == path;
      return false;
    }

    method Recorded(path: seq<Address>) returns (recorded: bool)
      ensures recorded == (path in sp)
    {
      for i := 0 to |sp|
        invariant path !in sp[..i]
      {
        if sp[i] == path {
          return true;
        }
      }
      assert sp[..|sp|] == sp;
      return false;
    }

    /** What an earlier call left in `sp`, and what this one has found so far. */
    ghost predicate Holds(seen: Paths, from: Address)
      reads this`sp
    {
      && (forall p :: p in seen ==> p in sp)
      && (forall p :: p in sp ==> p in seen || (p != [] && p[|p| - 1] == from))
    }

    /** `searchPathDFSTarget`: appends every completion of the path that no earlier path cuts off, each once. */
    method SearchTarget(from: Address, to: Address, path: seq<Address>, ghost seen: Paths, ghost arcs: Arcs)
      returns (ghost added: Paths)
      requires Covers(edges, arcs) && Holds(seen, from)
      requires IsWalk(arcs, path + [to]) && NoRepeats(path + [to])
      modifies this`sp
      ensures sp == old(sp) + added && Lists(arcs, from, seen, path + [to], added)
      decreases Targets(arcs) - Elements(path + [to]), 1
    {
      var q := path + [to];
      if to == from {
        sp := sp + [q];
        added := [q];
        ArrivedOnly(arcs, from, seen, q);
        return;
      }
      added := [];
      var recorded := Recorded(q);
      if recorded {
        SeenCuts(arcs, from, seen, q);
        return;
      }
      var rest := if to in edges then edges[to].Keys else {};
      ghost var done: set<Address> := {};
      while rest != {}
        invariant sp == old(sp) + added && ListsVia(arcs, from, seen, q, done, added)
        invariant forall n :: (to, n) in arcs <==> n in done || n in rest
        invariant done !! rest
        decreases rest
      {
        var n :| n in rest;
        ghost var more := Visit(from, n, q, seen, arcs);
        AppendVia(arcs, from, seen, q, done, n, added, more);
        added := added + more;
        done, rest := done + {n}, rest - {n};
      }
      ListedAll(arcs, from, seen, q, done, added);
    }

    /** One turn of its loop: skips a node that is already on the path. */
    method Visit(from: Address, n: Address, path: seq<Address>, ghost seen: Paths, ghost arcs: Arcs)
      returns (ghost more: Paths)
      requires Covers(edges, arcs) && Holds(seen, from)
      requires IsWalk(arcs, path) && NoRepeats(path) && (path[|path| - 1], n) in arcs
      modifies this`sp
      ensures sp == old(sp) + more && Lists(arcs, from, seen, path + [n], more)
      decreases Targets(arcs) - Elements(path), 0
    {
      more := [];
      var walked := Walked(path, n);
      if !walked {
        FewerLeft(arcs, path, n);
        Extend(arcs, path, n);
        more := SearchTarget(from, n, path, seen, arcs);
      } else {
        NotBack(arcs, from, seen, path, n);
      }
    }

    /** `GetPairPathSorted`: what earlier calls found stays, and cuts off the routes that go on from it. */
    method GetPairPathSorted(from: Address, to: Address, ghost arcs: Arcs) returns (ghost added: Paths)
      requires Covers(edges, arcs)
      modifies this`sp
      ensures ByLength(sp) && multiset(sp) == multiset(old(sp)) + multiset(added)
      ensures if nodes == map[] || edges == map[] then added == [] else Lists(arcs, from, old(sp), [to], added)
    {
      added := [];
      if |nodes| != 0 && |edges| != 0 {
        assert [] + [to] == [to];
        added := SearchTarget(from, to, [], sp, arcs);
      }
      sp := SortPaths(sp);
    }
  }

  /** On a new topology nothing is cut off: the answer is all simple routes, each once. */
  lemma FirstCallListsAll(arcs: Arcs, from: Address, to: Address, added: Paths, sp: Paths)
    requires Lists(arcs, from, [], [to], added) && multiset(sp) == multiset(added)
    ensures Once(sp) && forall p :: p in sp <==> Joins(arcs, p, to, from) && NoRepeats(p)
  {
    SameOnce(added, sp);
    forall p ensures p in sp <==> Joins(arcs, p, to, from) && NoRepeats(p) {
      assert p in sp <==> p in multiset(sp);
      assert p in added <==> p in multiset(added);
      assert p != [] ==> ([to] <= p <==> p[0] == to);
    }
  }

  lemma {:induction false} OnceCounts(s: Paths)
    ensures Once(s) <==> forall p :: multiset(s)[p] <= 1
  {
    if s != [] {
      var init, last := s[..|s| - 1], s[|s| - 1];
      assert s == init + [last];
      OnceCounts(init);
      if Once(s) {
        assert last !in init;
      } else if Once(init) {
        assert last in init && multiset(s)[last] >= 2;
      } else {
        var p :| multiset(init)[p] > 1;
        assert multiset(s)[p] > 1;
      }
    }
  }

  lemma SameOnce(a: Paths, b: Paths)
    requires multiset(a) == multiset(b) && Once(a)
    ensures Once(b)
  {
    OnceCounts(a);
    OnceCounts(b);
  }

  /** A completion's beginnings were not seen before, so a path seen before has none. */
  lemma SeenCuts(arcs: Arcs, from: Address, seen: Paths, q: seq<Address>)
    requires q in seen && q != [] && q[|q| - 1] != from
    ensures Lists(arcs, from, seen, q, [])
  {
    forall p ensures !Completes(arcs, from, seen, q, p) {
      if Completes(arcs, from, seen, q, p) {
        GoesOn(arcs, from, seen, q, p);
      }
    }
  }

  lemma NotBack(arcs: Arcs, from: Address, seen: Paths, q: seq<Address>, n: Address)
    requires n in q
    ensures forall p :: !Completes(arcs, from, seen, q + [n], p)
  {
    forall p | Completes(arcs, from, seen, q + [n], p) ensures false {
      NextIsNew(arcs, from, seen, q, n, p);
    }
  }

  lemma NextIsNew(arcs: Arcs, from: Address, seen: Paths, q: seq<Address>, n: Address, p: seq<Address>)
    requires Completes(arcs, from, seen, q + [n], p)
    ensures n !in q
  {
    forall i | 0 <= i < |q| ensures q[i] != n {
      assert p[i] == (q + [n])[i] && p[|q|] == (q + [n])[|q|];
    }
  }

  // ----- building the topology -----

  ghost function OpenEdges(edges: Arcs, blacklist: seq<Address>): Arcs {
    map e | e in edges && e.0 !in blacklist && e.1 !in blacklist :: edges[e]
  }

  function WithEdge(edges: map<Address, map<Address, int>>, a: Address, b: Address, w: int): map<Address, map<Address, int>> {
    edges[a := (if a in edges then edges[a] else map[])[b := w]]
  }

  /** Covers the arcs, without an empty group. */
  ghost predicate Grouped(edges: map<Address, map<Address, int>>, arcs: Arcs) {
    Covers(edges, arcs) && forall a :: a in edges ==> edges[a] != map[]
  }

  lemma GroupEdge(edges: map<Address, map<Address, int>>, done: Arcs, blacklist: seq<Address>, a: Address, b: Address,
                  w: int)
    requires Grouped(edges, OpenEdges(done, blacklist))
    ensures Grouped(if a !in blacklist && b !in blacklist then WithEdge(edges, a, b, w) else edges,
                    OpenEdges(done[(a, b) := w], blacklist))
  {
    assert b in WithEdge(edges, a, b, w)[a];
  }

  /** The loop over the edges, in any order. */
  method GroupEdges(edges: Arcs, blacklist: seq<Address>) returns (grouped: map<Address, map<Address, int>>)
    ensures Grouped(grouped, OpenEdges(edges, blacklist))
  {
    grouped := map[];
    var rest := edges;
    ghost var done: Arcs := map[];
    while rest != map[]
      invariant Grouped(grouped, OpenEdges(done, blacklist))
      invariant forall e :: e in edges <==> e in done || e in rest
      invariant forall e :: e in done ==> done[e] == edges[e]
      invariant forall e :: e in rest ==> rest[e] == edges[e]
      decreases |rest|
    {
      var e :| e in rest;
      GroupEdge(grouped, done, blacklist, e.0, e.1, rest[e]);
      if e.0 !in blacklist && e.1 !in blacklist {
        grouped := WithEdge(grouped, e.0, e.1, rest[e]);
      }
      done := done[(e.0, e.1) := rest[e]];
      assert (rest - {e}).Keys == rest.Keys - {e};
      rest := rest - {e};
    }
    assert done == edges;
  }

  lemma GroupedCovers(edges: map<Address, map<Address, int>>, arcs: Arcs)
    requires Grouped(edges, arcs)
    ensures edges == map[] <==> arcs == map[]
  {
    if edges != map[] {
      var a :| a in edges;
      var b :| b in edges[a];
      assert (a, b) in arcs;
    }
    if arcs != map[] {
      var e :| e in arcs;
      assert (e.0, e.1) in arcs;
    }
  }

  // ----- sorting -----

  /** `sort.Sort` by length; the order among equals is left open by the source, too. */
  method SortPaths(paths: Paths) returns (sorted: Paths)
    ensures ByLength(sorted) && multiset(sorted) == multiset(paths)
  {
    sorted := [];
    for i := 0 to |paths|
      invariant ByLength(sorted) && multiset(sorted) == multiset(paths[..i])
    {
      var p := paths[i];
      var j := |sorted|;
      while j > 0 && |sorted[j - 1]| > |p|
        invariant 0 <= j <= |sorted|
        invariant forall k :: j <= k < |sorted| ==> |sorted[k]| > |p|
      {
        j := j - 1;
      }
      assert paths[..i + 1] == paths[..i] + [p];
      InsertedPath(sorted, p, j);
      InsertedElements(sorted, p, j);
      sorted := InsertAt(sorted, p, j);
    }
    assert paths[..|paths|] == paths;
  }

  function InsertAt(s: Paths, p: seq<Address>, j: nat): Paths
    requires j <= |s|
  {
    s[..j] + [p] + s[j..]
  }

  lemma InsertedIndex(s: Paths, p: seq<Address>, j: nat, k: nat)
    requires j <= |s| && k <= |s|
    ensures InsertAt(s, p, j)[k] == if k < j then s[k] else if k == j then p else s[k - 1]
  {
  }

  lemma InsertedElements(s: Paths, p: seq<Address>, j: nat)
    requires j <= |s|
    ensures multiset(InsertAt(s, p, j)) == multiset(s) + multiset{p}
  {
    assert s == s[..j] + s[j..];
  }

  lemma InsertedPath(s: Paths, p: seq<Address>, j: nat)
    requires j <= |s| && ByLength(s)
    requires j > 0 ==> |s[j - 1]| <= |p|
    requires forall k :: j <= k < |s| ==> |s[k]| > |p|
    ensures ByLength(InsertAt(s, p, j))
  {
    var r := InsertAt(s, p, j);
    forall i, k | 0 <= i < k < |r| ensures |r[i]| <= |r[k]| {
      InsertedIndex(s, p, j, i);
      InsertedIndex(s, p, j, k);
      if k == j {
        assert i < j - 1 ==> |s[i]| <= |s[j - 1]|;
      }
    }
  }
}
