/**
 The Merkle tree of pending lock hashes (transfer/merkle_tree.go and the two
 tree builders of transfer/channel.go).  A 32-byte hash is a natural number, in
 the byte order that `Keccak256Compare` compares, and SHA-256 of a pair is the
 uninterpreted constant `PairDigest`.
 */
module Merkle {
  import opened Prelude

  type Hash = nat
  type Tree = seq<seq<Hash>>

  const PairDigest: (Hash, Hash) -> Hash

  const EMPTY_TREE: Tree := [[], [0]]

  // ----- the functions that specify the loops below -----

  function HashPair(first: Hash, second: Hash): Hash {
    if first == 0 then second
    else if second == 0 then first
    else if first > second then PairDigest(second, first)
    else PairDigest(first, second)
  }

  function Insert(s: seq<Hash>, x: Hash): seq<Hash> {
    if s == [] || s[|s| - 1] <= x then s + [x]
    else Insert(s[..|s| - 1], x) + [s[|s| - 1]]
  }

  function Sort(s: seq<Hash>): seq<Hash> {
    if s == [] then [] else Insert(Sort(s[..|s| - 1]), s[|s| - 1])
  }

  function PairUp(layer: seq<Hash>): (r: seq<Hash>)
    ensures |r| == (|layer| + 1) / 2
  {
    if layer == [] then []
    else if |layer| == 1 then [HashPair(layer[0], 0)]
    else [HashPair(layer[0], layer[1])] + PairUp(layer[2..])
  }

  function Ascend(layer: seq<Hash>): (r: Tree)
    ensures |r| > 0 && r[0] == layer
    decreases |layer|
  {
    if |layer| <= 1 then [layer] else [layer] + Ascend(PairUp(layer))
  }

  function Layers(elements: seq<Hash>): Tree {
    Ascend(Sort(elements))
  }

  function MerkleRoot(tree: Tree): Hash {
    if tree == [] || tree[|tree| - 1] == [] then 0 else tree[|tree| - 1][0]
  }

  function IndexOf(s: seq<Hash>, h: Hash): (i: nat)
    requires h in s
    ensures i < |s| && s[i] == h
    ensures forall k :: 0 <= k < i ==> s[k] != h
  {
    if s[0] == h then 0 else 1 + IndexOf(s[1..], h)
  }

  /** `computeMerkleTreeWith`: no tree when the leaf is already there. */
  function TreeWith(tree: Tree, h: Hash): Option<Tree>
    requires tree != []
  {
    if h in tree[0] then None else Some(Layers(tree[0] + [h]))
  }

  /** `computeMerkleTreeWithout`: a tree without any layer when the leaf is missing. */
  function TreeWithout(tree: Tree, h: Hash): Tree
    requires tree != []
  {
    if h !in tree[0] then []
    else
      var rest := DropAt(tree[0], IndexOf(tree[0], h));
      if rest == [] then EMPTY_TREE else Layers(rest)
  }

  function DropAt(s: seq<Hash>, i: nat): seq<Hash>
    requires i < |s|
  {
    s[..i] + s[i + 1..]
  }

  // ----- sorting -----

  ghost predicate StrictlyAscending(s: seq<Hash>) {
    forall i, j :: 0 <= i < j < |s| ==> s[i] < s[j]
  }

  ghost predicate Distinct(s: seq<Hash>) {
    forall i, j :: 0 <= i < j < |s| ==> s[i] != s[j]
  }

  ghost predicate SameElements(s: seq<Hash>, t: seq<Hash>) {
    forall h :: h in s <==> h in t
  }

  lemma {:induction false} InsertStrict(s: seq<Hash>, x: Hash)
    requires StrictlyAscending(s) && x !in s
    ensures StrictlyAscending(Insert(s, x))
    ensures SameElements(Insert(s, x), s + [x])
    ensures |Insert(s, x)| == |s| + 1
  {
    if s != [] && x < s[|s| - 1] {
      var init, last := s[..|s| - 1], s[|s| - 1];
      assert s == init + [last];
      InsertStrict(init, x);
      var r := Insert(init, x);
      forall i | 0 <= i < |r| ensures r[i] < last {
        assert r[i] in init + [x];
      }
    } else {
      forall i | 0 <= i < |s| ensures s[i] < x {
        assert s[i] in s && s[|s| - 1] in s;
      }
    }
  }

  lemma {:induction false} SortStrict(s: seq<Hash>)
    requires Distinct(s)
    ensures StrictlyAscending(Sort(s)) && SameElements(Sort(s), s)
  {
    if s != [] {
      var init, last := s[..|s| - 1], s[|s| - 1];
      assert s == init + [last];
      SortStrict(init);
      assert last !in Sort(init);
      InsertStrict(Sort(init), last);
    }
  }

  lemma {:induction false} SortFixesStrict(s: seq<Hash>)
    requires StrictlyAscending(s)
    ensures Sort(s) == s
  {
    if s != [] {
      SortFixesStrict(s[..|s| - 1]);
    }
  }

  lemma SameElementsTail(s: seq<Hash>, t: seq<Hash>)
    requires StrictlyAscending(s) && StrictlyAscending(t) && SameElements(s, t)
    requires s != [] && t != [] && s[0] == t[0]
    ensures SameElements(s[1..], t[1..])
  {
    forall h ensures h in s[1..] <==> h in t[1..] {
      assert h in s <==> h == s[0] || h in s[1..];
      assert h in t <==> h == t[0] || h in t[1..];
    }
  }

  /** A sorted list of distinct hashes is determined by its elements. */
  lemma {:induction false} StrictUnique(s: seq<Hash>, t: seq<Hash>)
    requires StrictlyAscending(s) && StrictlyAscending(t) && SameElements(s, t)
    ensures s == t
  {
    if s != [] {
      assert s[0] in t;
    }
    if t != [] {
      assert t[0] in s;
    }
    if s != [] && t != [] {
      SameElementsTail(s, t);
      StrictUnique(s[1..], t[1..]);
      assert s == [s[0]] + s[1..] && t == [t[0]] + t[1..];
    }
  }

  /** The layers depend on which leaves there are, not on their order. */
  lemma LayersOrderFree(s: seq<Hash>, t: seq<Hash>)
    requires Distinct(s) && Distinct(t) && SameElements(s, t)
    ensures Layers(s) == Layers(t)
  {
    SortStrict(s);
    SortStrict(t);
    StrictUnique(Sort(s), Sort(t));
  }

  // ----- well-formed trees -----

  function TreeOver(leaves: seq<Hash>): (r: Tree)
    ensures |r| > 0 && r[0] == leaves
  {
    if leaves == [] then EMPTY_TREE else Ascend(leaves)
  }

  /** The trees an end state can hold: sorted distinct leaves and the layers over them. */
  ghost predicate WellFormed(tree: Tree) {
    && tree != []
    && StrictlyAscending(tree[0])
    && tree == TreeOver(tree[0])
  }

  ghost function Leaves(tree: Tree): set<Hash>
    requires tree != []
  {
    set h | h in tree[0]
  }

  /** Each layer is half as wide as the one below, rounded up, and the last holds one root. */
  lemma {:induction false} LayerWidths(layer: seq<Hash>, i: nat)
    requires layer != [] && i < |Ascend(layer)|
    ensures i + 1 < |Ascend(layer)| ==> |Ascend(layer)[i + 1]| == (|Ascend(layer)[i]| + 1) / 2
    ensures i + 1 == |Ascend(layer)| <==> |Ascend(layer)[i]| == 1
    decreases |layer|
  {
    if |layer| > 1 && i > 0 {
      LayerWidths(PairUp(layer), i - 1);
    }
  }

  /** Two ends with the same pending lock hashes hold the same tree, so the same root. */
  lemma TreeDeterminedByLeaves(t1: Tree, t2: Tree)
    requires WellFormed(t1) && WellFormed(t2) && Leaves(t1) == Leaves(t2)
    ensures t1 == t2
  {
    forall h ensures h in t1[0] <==> h in t2[0] {
      assert h in t1[0] <==> h in Leaves(t1);
      assert h in t2[0] <==> h in Leaves(t2);
    }
    StrictUnique(t1[0], t2[0]);
  }

  lemma SortAppend(s: seq<Hash>, h: Hash)
    requires StrictlyAscending(s)
    ensures Sort(s + [h]) == Insert(s, h)
  {
    SortFixesStrict(s);
    assert (s + [h])[..|s|] == s;
  }

  lemma TreeWithAdds(tree: Tree, h: Hash)
    requires WellFormed(tree) && h !in tree[0]
    ensures TreeWith(tree, h).Some?
    ensures var t := TreeWith(tree, h).value;
            WellFormed(t) && Leaves(t) == Leaves(tree) + {h} && |t[0]| == |tree[0]| + 1
  {
    var s := tree[0];
    SortAppend(s, h);
    InsertStrict(s, h);
  }

  lemma DropKeepsRest(s: seq<Hash>, i: nat)
    requires StrictlyAscending(s) && i < |s|
    ensures StrictlyAscending(DropAt(s, i)) && Sort(DropAt(s, i)) == DropAt(s, i) && |DropAt(s, i)| == |s| - 1
    ensures forall x :: x in DropAt(s, i) <==> x in s && x != s[i]
  {
    assert s == s[..i] + [s[i]] + s[i + 1..];
    assert s[i] !in s[..i] && s[i] !in s[i + 1..];
    SortFixesStrict(DropAt(s, i));
  }

  lemma TreeWithoutIs(tree: Tree, h: Hash)
    requires WellFormed(tree) && h in tree[0]
    ensures TreeWithout(tree, h) == TreeOver(DropAt(tree[0], IndexOf(tree[0], h)))
  {
    DropKeepsRest(tree[0], IndexOf(tree[0], h));
  }

  lemma TreeWithoutRemoves(tree: Tree, h: Hash)
    requires WellFormed(tree) && h in tree[0]
    ensures var t := TreeWithout(tree, h);
            WellFormed(t) && Leaves(t) == Leaves(tree) - {h} && |t[0]| == |tree[0]| - 1
  {
    TreeWithoutIs(tree, h);
    DropKeepsRest(tree[0], IndexOf(tree[0], h));
  }

  /** Adding a lock hash and removing it again restores every layer, also through the empty tree. */
  lemma WithThenWithout(tree: Tree, h: Hash)
    requires WellFormed(tree) && h !in tree[0]
    ensures TreeWith(tree, h).Some?
    ensures TreeWithout(TreeWith(tree, h).value, h) == tree
  {
    TreeWithAdds(tree, h);
    var t := TreeWith(tree, h).value;
    assert h in Leaves(t);
    TreeWithoutRemoves(t, h);
    TreeDeterminedByLeaves(TreeWithout(t, h), tree);
  }

  /** Removing a lock hash and adding it back restores every layer. */
  lemma WithoutThenWith(tree: Tree, h: Hash)
    requires WellFormed(tree) && h in tree[0]
    ensures TreeWithout(tree, h) != []
    ensures TreeWith(TreeWithout(tree, h), h) == Some(tree)
  {
    TreeWithoutRemoves(tree, h);
    var t := TreeWithout(tree, h);
    assert h !in Leaves(t);
    TreeWithAdds(t, h);
    assert h in Leaves(tree);
    TreeDeterminedByLeaves(TreeWith(t, h).value, tree);
  }

  // ----- the loops of the source -----

  lemma {:induction false} InsertAt(s: seq<Hash>, x: Hash, j: nat)
    requires j <= |s|
    requires forall k :: j <= k < |s| ==> s[k] > x
    requires j > 0 ==> s[j - 1] <= x
    ensures Insert(s, x) == s[..j] + [x] + s[j..]
  {
    if j < |s| {
      var init := s[..|s| - 1];
      InsertAt(init, x, j);
      assert init[..j] == s[..j];
      assert s[j..] == init[j..] + [s[|s| - 1]];
    } else {
      assert s[..j] == s;
    }
  }

  lemma ShiftedIsInsert(s: seq<Hash>, x: Hash, j: nat, r: seq<Hash>)
    requires j <= |s| && |r| == |s| + 1 && r[j] == x
    requires forall k :: 0 <= k < j ==> r[k] == s[k]
    requires forall k :: j <= k < |s| ==> r[k + 1] == s[k] && s[k] > x
    requires j > 0 ==> s[j - 1] <= x
    ensures r == Insert(s, x)
  {
    InsertAt(s, x, j);
    assert forall k :: j <= k < |s| ==> (s[..j] + [x] + s[j..])[k + 1] == s[k];
    forall k | j < k < |r| ensures r[k] == s[k - 1] {
      assert r[(k - 1) + 1] == s[k - 1];
    }
  }

  /** The inner loop of the sort: inserts a[i] into the sorted slice before it. */
  method InsertInPlace(a: array<Hash>, i: nat)
    requires i < a.Length
    modifies a
    ensures a[..i + 1] == Insert(old(a[..i]), old(a[i]))
    ensures a[i + 1..] == old(a[i + 1..])
  {
    ghost var was := a[..];
    var x := a[i];
    var j := i;
    while j > 0 && a[j - 1] > x
      invariant 0 <= j <= i
      invariant forall k :: 0 <= k < j ==> a[k] == was[k]
      invariant forall k :: j <= k < i ==> a[k + 1] == was[k] && was[k] > x
      invariant forall k :: i < k < a.Length ==> a[k] == was[k]
    {
      a[j] := a[j - 1];
      j := j - 1;
    }
    a[j] := x;
    ShiftedIsInsert(was[..i], x, j, a[..i + 1]);
  }

  /** `sort.Sort` on a slice of hashes, in place. */
  method SortInPlace(a: array<Hash>)
    modifies a
    ensures a[..] == Sort(old(a[..]))
  {
    ghost var was := a[..];
    var i := 0;
    while i < a.Length
      invariant 0 <= i <= a.Length
      invariant a[..i] == Sort(was[..i])
      invariant a[i..] == was[i..]
    {
      assert a[i] == a[i..][0] == was[i];
      assert a[i + 1..] == a[i..][1..];
      assert was[..i + 1][..i] == was[..i];
      InsertInPlace(a, i);
      i := i + 1;
    }
    assert a[..] == a[..i] && was == was[..i];
  }

  lemma {:induction false} PairUpPrefix(layer: seq<Hash>, i: nat)
    requires i < |layer| && i % 2 == 0
    ensures PairUp(layer[..if i + 1 < |layer| then i + 2 else i + 1])
         == PairUp(layer[..i]) + [HashPair(layer[i], if i + 1 < |layer| then layer[i + 1] else 0)]
    decreases i
  {
    var n := if i + 1 < |layer| then i + 2 else i + 1;
    if i > 0 {
      PairUpPrefix(layer[2..], i - 2);
      assert layer[..n][2..] == layer[2..][..n - 2];
      assert layer[..i][2..] == layer[2..][..i - 2];
    }
  }

  /** The inner loop of `computeLayers`: hashes neighbours two by two. */
  method PairLayer(layer: seq<Hash>) returns (newLayer: seq<Hash>)
    ensures newLayer == PairUp(layer)
  {
    newLayer := [];
    var i := 0;
    while i < |layer|
      invariant 0 <= i <= |layer| + 1 && i % 2 == 0
      invariant newLayer == PairUp(layer[..if i <= |layer| then i else |layer|])
    {
      PairUpPrefix(layer, i);
      if i + 1 < |layer| {
        newLayer := newLayer + [HashPair(layer[i], layer[i + 1])];
      } else {
        newLayer := newLayer + [HashPair(layer[i], 0)];
      }
      i := i + 2;
    }
    assert layer[..|layer|] == layer;
  }

  lemma NextLayer(below: Tree, layer: seq<Hash>)
    requires |layer| > 1
    ensures |PairUp(layer)| < |layer|
    ensures below + [layer] + Ascend(PairUp(layer)) == below + Ascend(layer)
  {
    assert Ascend(layer) == [layer] + Ascend(PairUp(layer));
    assert below + [layer] + Ascend(PairUp(layer)) == below + ([layer] + Ascend(PairUp(layer)));
  }

  /** The outer loop of `computeLayers`. */
  method StackLayers(leaves: seq<Hash>) returns (tree: Tree)
    ensures tree == Ascend(leaves)
  {
    var layer := leaves;
    tree := [layer];
    ghost var below: Tree := [];
    while |layer| > 1
      invariant tree == below + [layer]
      invariant below + Ascend(layer) == Ascend(leaves)
      decreases |layer|
    {
      var newLayer := PairLayer(layer);
      NextLayer(below, layer);
      below := tree;
      layer := newLayer;
      tree := tree + [layer];
    }
  }

  /** `computeLayers`: sorts its argument in place and builds the layers bottom up. */
  method ComputeLayers(elements: array<Hash>) returns (tree: Tree)
    modifies elements
    ensures elements[..] == Sort(old(elements[..]))
    ensures tree == Layers(old(elements[..]))
  {
    SortInPlace(elements);
    tree := StackLayers(elements[..]);
  }

  /** The search loop that both tree builders start with. */
  method FindLeaf(leaves: seq<Hash>, h: Hash) returns (i: nat, found: bool)
    ensures found == (h in leaves)
    ensures found ==> i == IndexOf(leaves, h)
  {
    i := 0;
    while i < |leaves|
      invariant 0 <= i <= |leaves|
      invariant forall k :: 0 <= k < i ==> leaves[k] != h
    {
      if leaves[i] == h {
        return i, true;
      }
      i := i + 1;
    }
    return i, false;
  }

  method ComputeTreeWith(tree: Tree, h: Hash) returns (r: Option<Tree>)
    requires tree != []
    ensures r == TreeWith(tree, h)
  {
    var leaves := tree[0];
    var _, found := FindLeaf(leaves, h);
    if found {
      return None;
    }
    var newLeaves := new Hash[|leaves| + 1](i => if 0 <= i < |leaves| then leaves[i] else h);
    assert newLeaves[..] == leaves + [h];
    var layers := ComputeLayers(newLeaves);
    r := Some(layers);
  }

  method ComputeTreeWithout(tree: Tree, h: Hash) returns (r: Tree)
    requires tree != []
    ensures r == TreeWithout(tree, h)
  {
    var leaves := tree[0];
    var i, found := FindLeaf(leaves, h);
    if !found {
      return [];
    }
    var rest := DropAt(leaves, i);
    if |rest| == 0 {
      return EMPTY_TREE;
    }
    var newLeaves := new Hash[|rest|](k => if 0 <= k < |rest| then rest[k] else 0);
    assert newLeaves[..] == rest;
    r := ComputeLayers(newLeaves);
  }
}
