/**
 What a Merkle root says (transfer/merkle_tree.go): the bottom-up layers compute the
 hash tree that splits its leaves top-down, as section 2.1 of RFC 6962 does, and the
 root in a signed proof binds every leaf, so every pending lock.
 */
module MerkleBinding {
  import opened Prelude
  import opened Merkle
  import opened Channel
  import opened Ledger

  // ----- the hash tree, top-down -----

  /** The largest power of two below `n`, from the power `k` on. */
  function SplitFrom(n: nat, k: nat): (r: nat)
    requires 0 < k < n
    ensures 0 < r < n <= 2 * r
    decreases n - k
  {
    if 2 * k >= n then k else SplitFrom(n, 2 * k)
  }

  function Split(n: nat): (r: nat)
    requires n > 1
    ensures 0 < r < n <= 2 * r
  {
    SplitFrom(n, 1)
  }

  /** The digest of the two parts, the smaller one first. */
  function Join(a: Hash, b: Hash): Hash {
    if a <= b then PairDigest(a, b) else PairDigest(b, a)
  }

  function HashTree(leaves: seq<Hash>): Hash
    requires leaves != []
    decreases |leaves|
  {
    if |leaves| == 1 then leaves[0]
    else
      var k := Split(|leaves|);
      Join(HashTree(leaves[..k]), HashTree(leaves[k..]))
  }

  /** No digest is the empty hash, which stands for a missing node. */
  ghost predicate DigestsNonZero() {
    forall a, b :: PairDigest(a, b) != 0
  }

  ghost predicate NoZero(s: seq<Hash>) {
    forall i :: 0 <= i < |s| ==> s[i] != 0
  }

  // ----- the layers compute it -----

  function Top(layer: seq<Hash>): Hash
    requires layer != []
    decreases |layer|
  {
    if |layer| == 1 then layer[0] else Top(PairUp(layer))
  }

  lemma {:induction false} RootIsTop(layer: seq<Hash>)
    requires layer != []
    ensures MerkleRoot(Ascend(layer)) == Top(layer)
    decreases |layer|
  {
    if |layer| > 1 {
      RootIsTop(PairUp(layer));
    }
  }

  lemma {:induction false} PairUpNoZero(layer: seq<Hash>)
    requires NoZero(layer) && DigestsNonZero()
    ensures NoZero(PairUp(layer))
  {
    if |layer| > 1 {
      PairUpNoZero(layer[2..]);
    }
  }

  lemma FrontParts(layer: seq<Hash>, k: nat)
    requires 2 <= k <= |layer|
    ensures layer[..k][2..] == layer[2..][..k - 2] && layer[2..][k - 2..] == layer[k..]
  {
  }

  lemma Joined(x: seq<Hash>, y: seq<Hash>, z: seq<Hash>)
    ensures x + (y + z) == (x + y) + z
  {
  }

  lemma {:induction false} PairUpParts(layer: seq<Hash>, k: nat)
    requires k % 2 == 0 && k <= |layer|
    ensures PairUp(layer) == PairUp(layer[..k]) + PairUp(layer[k..])
    ensures |PairUp(layer[..k])| == k / 2
    decreases k
  {
    if k == 0 {
      assert layer[0..] == layer && layer[..0] == [];
      assert PairUp(layer) == [] + PairUp(layer);
    } else {
      PairUpParts(layer[2..], k - 2);
      FrontParts(layer, k);
      Joined([HashPair(layer[0], layer[1])], PairUp(layer[2..][..k - 2]), PairUp(layer[k..]));
    }
  }

  lemma PairUpKeepsTop(layer: seq<Hash>)
    requires layer != []
    ensures Top(PairUp(layer)) == Top(layer)
  {
  }

  ghost predicate PowerOfTwo(k: nat)
    decreases k
  {
    k == 1 || (k > 1 && k % 2 == 0 && PowerOfTwo(k / 2))
  }

  lemma {:induction false} SplitIsPower(n: nat, k: nat)
    requires 0 < k < n && PowerOfTwo(k)
    ensures PowerOfTwo(SplitFrom(n, k))
    decreases n - k
  {
    if 2 * k < n {
      assert PowerOfTwo(2 * k / 2);
      SplitIsPower(n, 2 * k);
    }
  }

  /** A full left part and what is left of it meet only in the last pairing. */
  lemma {:induction false} TopSplits(layer: seq<Hash>, k: nat)
    requires PowerOfTwo(k) && k < |layer| <= 2 * k
    requires NoZero(layer) && DigestsNonZero()
    ensures Top(layer) == Join(Top(layer[..k]), Top(layer[k..]))
    decreases k
  {
    if k == 1 {
      assert layer == [layer[0], layer[1]];
      assert PairUp(layer) == [HashPair(layer[0], layer[1])];
      assert HashPair(layer[0], layer[1]) == Join(layer[0], layer[1]);
    } else {
      var m := k / 2;
      var up := PairUp(layer);
      PairUpNoZero(layer);
      PairUpParts(layer, k);
      TopSplits(up, m);
      assert up[..m] == PairUp(layer[..k]) && up[m..] == PairUp(layer[k..]);
      PairUpKeepsTop(layer[..k]);
      PairUpKeepsTop(layer[k..]);
    }
  }

  lemma {:induction false} TopIsHashTree(layer: seq<Hash>)
    requires layer != [] && NoZero(layer) && DigestsNonZero()
    ensures Top(layer) == HashTree(layer)
    decreases |layer|
  {
    if |layer| > 1 {
      var k := Split(|layer|);
      SplitIsPower(|layer|, 1);
      TopSplits(layer, k);
      TopIsHashTree(layer[..k]);
      TopIsHashTree(layer[k..]);
    }
  }

  /** The root of a tree is the hash tree over its leaves; an empty tree has the empty hash. */
  lemma RootIsHashTree(leaves: seq<Hash>)
    requires NoZero(leaves) && DigestsNonZero()
    ensures MerkleRoot(TreeOver(leaves)) == if leaves == [] then 0 else HashTree(leaves)
  {
    if leaves != [] {
      RootIsTop(leaves);
      TopIsHashTree(leaves);
    }
  }

  /** One leaf is its own root and two are hashed in ascending order. */
  lemma SmallRoots(a: Hash, b: Hash)
    requires 0 < a < b
    ensures MerkleRoot(TreeOver([a])) == a
    ensures MerkleRoot(TreeOver([a, b])) == PairDigest(a, b)
  {
    assert PairUp([a, b]) == [PairDigest(a, b)];
    assert Ascend([a, b]) == [[a, b], [PairDigest(a, b)]];
  }

  // ----- the root binds the leaves -----

  ghost predicate IsDigest(h: Hash) {
    exists a, b :: PairDigest(a, b) == h
  }

  /** Two pairs with one digest are the same pair. */
  ghost predicate CollisionFree() {
    forall a, b, c, d :: PairDigest(a, b) == PairDigest(c, d) ==> a == c && b == d
  }

  /** No leaf is mistaken for a missing node or for the digest of a pair. */
  ghost predicate CleanLeaves(s: seq<Hash>) {
    forall i :: 0 <= i < |s| ==> s[i] != 0 && !IsDigest(s[i])
  }

  lemma JoinIsDigest(a: Hash, b: Hash)
    ensures IsDigest(Join(a, b))
  {
    assert Join(a, b) == PairDigest(a, b) || Join(a, b) == PairDigest(b, a);
  }

  /** Whether a hash tree has more than one leaf shows in its value. */
  lemma InnerIsDigest(s: seq<Hash>)
    requires s != [] && CleanLeaves(s)
    ensures IsDigest(HashTree(s)) <==> |s| > 1
  {
    if |s| > 1 {
      var k := Split(|s|);
      JoinIsDigest(HashTree(s[..k]), HashTree(s[k..]));
    }
  }

  lemma JoinBinds(a: Hash, b: Hash, c: Hash, d: Hash)
    requires CollisionFree() && Join(a, b) == Join(c, d)
    ensures (a == c && b == d) || (a == d && b == c)
  {
  }

  /** A hash tree of more than one leaf joins two smaller ones. */
  lemma Parts(s: seq<Hash>) returns (a: seq<Hash>, b: seq<Hash>)
    requires |s| > 1 && CleanLeaves(s)
    ensures 0 < |a| < |s| && 0 < |b| < |s| && CleanLeaves(a) && CleanLeaves(b)
    ensures HashTree(s) == Join(HashTree(a), HashTree(b)) && multiset(s) == multiset(a) + multiset(b)
  {
    var k := Split(|s|);
    a, b := s[..k], s[k..];
    assert s == a + b;
  }

  /** Equal hash trees have equal leaves, however many there are and whichever way the parts lie. */
  lemma {:induction false} HashTreeBinds(s: seq<Hash>, t: seq<Hash>)
    requires s != [] && t != [] && CleanLeaves(s) && CleanLeaves(t) && CollisionFree()
    requires HashTree(s) == HashTree(t)
    ensures multiset(s) == multiset(t)
    decreases |s|
  {
    InnerIsDigest(s);
    InnerIsDigest(t);
    if |s| == 1 {
      assert s == [s[0]] && t == [t[0]];
    } else {
      var a, b := Parts(s);
      var c, d := Parts(t);
      JoinBinds(HashTree(a), HashTree(b), HashTree(c), HashTree(d));
      if HashTree(a) == HashTree(c) && HashTree(b) == HashTree(d) {
        HashTreeBinds(a, c);
        HashTreeBinds(b, d);
      } else {
        HashTreeBinds(a, d);
        HashTreeBinds(b, c);
      }
    }
  }

  lemma SameMultiset(s: seq<Hash>, t: seq<Hash>)
    requires multiset(s) == multiset(t)
    ensures SameElements(s, t)
  {
    forall h ensures h in s <==> h in t {
      assert h in s <==> h in multiset(s);
      assert h in t <==> h in multiset(t);
    }
  }

  /** Two trees with one root are the same tree, of whatever widths they are. */
  lemma RootBindsLeaves(t1: Tree, t2: Tree)
    requires WellFormed(t1) && WellFormed(t2) && CleanLeaves(t1[0]) && CleanLeaves(t2[0])
    requires CollisionFree() && DigestsNonZero()
    ensures MerkleRoot(t1) == MerkleRoot(t2) <==> t1[0] == t2[0]
  {
    RootIsHashTree(t1[0]);
    RootIsHashTree(t2[0]);
    if t1[0] != [] {
      RootNonZero(t1[0]);
    }
    if t2[0] != [] {
      RootNonZero(t2[0]);
    }
    if MerkleRoot(t1) == MerkleRoot(t2) && t1[0] != [] {
      HashTreeBinds(t1[0], t2[0]);
      SameMultiset(t1[0], t2[0]);
      StrictUnique(t1[0], t2[0]);
    }
  }

  lemma RootNonZero(s: seq<Hash>)
    requires s != [] && CleanLeaves(s) && DigestsNonZero()
    ensures HashTree(s) != 0
  {
    InnerIsDigest(s);
  }

  // ----- the signed root binds the pending locks -----

  ghost predicate CleanLocks(pending: map<Hash, Lock>) {
    forall h :: h in pending ==> LockHash(pending[h]) != 0 && !IsDigest(LockHash(pending[h]))
  }

  ghost predicate LockDigestInjective() {
    forall x: Lock, y: Lock :: LockHash(x) == LockHash(y) ==> x == y
  }

  lemma LeavesClean(v: View)
    requires TreeAgrees(v) && CleanLocks(v.pending)
    ensures CleanLeaves(v.tree[0])
  {
    forall i | 0 <= i < |v.tree[0]| ensures v.tree[0][i] != 0 && !IsDigest(v.tree[0][i]) {
      assert v.tree[0][i] in Leaves(v.tree);
      var h :| h in v.pending && LockHash(v.pending[h]) == v.tree[0][i];
    }
  }

  lemma PendingWithin(p: map<Hash, Lock>, q: map<Hash, Lock>)
    requires Keyed(p) && Keyed(q) && HashesOf(p) == HashesOf(q) && LockDigestInjective()
    ensures forall h :: h in p ==> h in q && q[h] == p[h]
  {
    forall h | h in p ensures h in q && q[h] == p[h] {
      assert LockHash(p[h]) in HashesOf(q);
      var g :| g in q && LockHash(q[g]) == LockHash(p[h]);
      assert q[g] == p[h];
    }
  }

  /** Equal trees stand over equal pending locks. */
  lemma TreeBindsLocks(v: View, w: View)
    requires TreeAgrees(v) && TreeAgrees(w) && Keyed(v.pending) && Keyed(w.pending) && LockDigestInjective()
    ensures v.tree[0] == w.tree[0] <==> v.pending == w.pending
  {
    if v.tree[0] == w.tree[0] {
      assert Leaves(v.tree) == Leaves(w.tree);
      PendingWithin(v.pending, w.pending);
      PendingWithin(w.pending, v.pending);
      assert v.pending == w.pending;
    }
    if v.pending == w.pending {
      TreeDeterminedByLeaves(v.tree, w.tree);
    }
  }

  lemma ViewRootBinds(v: View, w: View)
    requires TreeAgrees(v) && TreeAgrees(w) && Keyed(v.pending) && Keyed(w.pending)
    requires CleanLocks(v.pending) && CleanLocks(w.pending)
    requires CollisionFree() && DigestsNonZero() && LockDigestInjective()
    ensures MerkleRoot(v.tree) == MerkleRoot(w.tree) <==> v.pending == w.pending
  {
    LeavesClean(v);
    LeavesClean(w);
    RootBindsLeaves(v.tree, w.tree);
    TreeBindsLocks(v, w);
  }

  /** Two ends whose signed proofs report one locks root hold the same pending locks. */
  lemma SignedRootBindsLocks(e: End, f: End)
    requires EndValid(e) && EndValid(f) && e.proof.Some? && f.proof.Some?
    requires CleanLocks(Pending(e)) && CleanLocks(Pending(f))
    requires CollisionFree() && DigestsNonZero() && LockDigestInjective()
    ensures e.proof.value.locksRoot == f.proof.value.locksRoot <==> Pending(e) == Pending(f)
  {
    ViewRootBinds(ViewOf(e), ViewOf(f));
  }
}
