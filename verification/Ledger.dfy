/**
 The simple form of an end state: the current proof, all pending locks as one
 map, and the tree.  `Fits` says which message an honest peer may send next and
 `Apply` what it does; the validators and send steps of Channel are shown to
 agree with them.
 */
module Ledger {
  import opened Prelude
  import opened Merkle
  import opened Channel

  datatype View = View(proof: Option<BalanceProof>, pending: map<Hash, Lock>, tree: Tree)

  ghost function ViewOf(e: End): View {
    View(e.proof, Pending(e), e.tree)
  }

  function Paid(v: View): uint64 {
    if v.proof.Some? then v.proof.value.transferred else 0
  }

  function Next(v: View): uint64 {
    if v.proof.Some? then Wrap64(v.proof.value.nonce + 1) else 1
  }

  /** Everything this end has given away or promised: transferred plus locked. */
  ghost function Outstanding(v: View): nat {
    Paid(v) + SumLocks(v.pending)
  }

  // ----- what the redundant bookkeeping must agree on -----

  ghost predicate Disjoint(e: End) {
    && e.locked.Keys !! e.unlocked.Keys
    && e.locked.Keys !! e.onChain.Keys
    && e.unlocked.Keys !! e.onChain.Keys
  }

  ghost predicate Keyed(pending: map<Hash, Lock>) {
    forall h :: h in pending ==> pending[h].secretHash == h
  }

  ghost predicate DistinctHashes(pending: map<Hash, Lock>) {
    forall g, h :: g in pending && h in pending && g != h ==> LockHash(pending[g]) != LockHash(pending[h])
  }

  ghost function HashesOf(pending: map<Hash, Lock>): set<Hash> {
    set h | h in pending :: LockHash(pending[h])
  }

  /** The leaves are exactly the pending lock hashes, each once. */
  ghost predicate TreeAgrees(v: View) {
    && WellFormed(v.tree)
    && Leaves(v.tree) == HashesOf(v.pending)
    && DistinctHashes(v.pending)
  }

  /** The signed proof repeats the locked total and the root; without a proof there is no lock. */
  ghost predicate ProofAgrees(v: View) {
    if v.proof.Some? then
      v.proof.value.lockedAmount == SumLocks(v.pending) && v.proof.value.locksRoot == MerkleRoot(v.tree)
    else v.pending == map[]
  }

  ghost predicate ViewValid(v: View) {
    && Keyed(v.pending)
    && TreeAgrees(v)
    && ProofAgrees(v)
    && Outstanding(v) <= MAX64
  }

  ghost predicate EndValid(e: End) {
    Disjoint(e) && ViewValid(ViewOf(e))
  }

  // ----- sums -----

  lemma {:induction false} SumRemove(m: map<Hash, Lock>, h: Hash)
    requires h in m
    ensures SumLocks(m) == m[h].amount + SumLocks(m - {h})
    decreases |m|
  {
    var g :| g in m && SumLocks(m) == m[g].amount + SumLocks(m - {g});
    if g != h {
      SumRemove(m - {g}, h);
      SumRemove(m - {h}, g);
      assert m - {g} - {h} == m - {h} - {g};
    }
  }

  lemma SumInsert(m: map<Hash, Lock>, h: Hash, lock: Lock)
    requires h !in m
    ensures SumLocks(m[h := lock]) == SumLocks(m) + lock.amount
  {
    SumRemove(m[h := lock], h);
    assert m[h := lock] - {h} == m;
  }

  lemma UnionMinus(a: map<Hash, Lock>, b: map<Hash, Lock>, h: Hash)
    requires a.Keys !! b.Keys && h in b
    ensures h in a + b && (a + b)[h] == b[h]
    ensures (a + b) - {h} == a + (b - {h})
    ensures a.Keys !! (b - {h}).Keys && |b - {h}| < |b|
  {
    assert (b - {h}).Keys == b.Keys - {h};
    assert |b.Keys - {h}| < |b.Keys|;
  }

  lemma {:induction false} SumUnion(a: map<Hash, Lock>, b: map<Hash, Lock>)
    requires a.Keys !! b.Keys
    ensures SumLocks(a + b) == SumLocks(a) + SumLocks(b)
    decreases |b|
  {
    if b == map[] {
      assert a + b == a;
    } else {
      var h :| h in b;
      var c := b - {h};
      UnionMinus(a, b, h);
      SumUnion(a, c);
      SumRemove(b, h);
      SumRemove(a + b, h);
    }
  }

  lemma AmountLockedIsSum(e: End)
    requires Disjoint(e)
    ensures AmountLocked(e) == Wrap64(SumLocks(Pending(e)))
  {
    var x, y := LocksOf(e.onChain), LocksOf(e.unlocked);
    SumUnion(x, y);
    SumUnion(x + y, e.locked);
  }

  // ----- messages on the simple form -----

  ghost predicate FitsDirect(v: View, p: BalanceProof) {
    && p.transferred > Paid(v)
    && p.transferred + SumLocks(v.pending) <= MAX64
    && p.lockedAmount == SumLocks(v.pending)
    && p.locksRoot == MerkleRoot(v.tree)
  }

  ghost predicate FitsLocked(v: View, p: BalanceProof, lock: Lock) {
    && lock.secretHash != 0 && lock.secretHash !in v.pending
    && v.tree != [] && LockHash(lock) !in v.tree[0]
    && |v.tree[0]| < MAXIMUM_PENDING_TRANSFERS
    && Outstanding(v) + lock.amount <= MAX64
    && p.transferred == Paid(v)
    && p.lockedAmount == SumLocks(v.pending) + lock.amount
    && p.locksRoot == MerkleRoot(TreeWith(v.tree, LockHash(lock)).value)
  }

  ghost predicate FitsRemoval(v: View, p: BalanceProof, h: Hash, moved: bool) {
    && v.tree != [] && h in v.pending
    && p.transferred == Paid(v) + (if moved then v.pending[h].amount else 0)
    && p.lockedAmount == SumLocks(v.pending) - v.pending[h].amount
    && p.locksRoot == MerkleRoot(TreeWithout(v.tree, LockHash(v.pending[h])))
  }

  /** The messages an end in state `v` may send next. */
  ghost predicate Fits(v: View, m: Message, key: ChannelKey) {
    && m.proof.key == key
    && m.proof.nonce == Next(v)
    && match m
       case Direct(p, _) => FitsDirect(v, p)
       case LockedTransfer(p, lock, _) => FitsLocked(v, p, lock)
       case Unlock(p, secret, _) => FitsRemoval(v, p, SecretDigest(secret), true)
       case LockExpired(p, h, _) => FitsRemoval(v, p, h, false)
  }

  ghost function Remove(v: View, p: BalanceProof, h: Hash): View
    requires v.tree != [] && h in v.pending
  {
    View(Some(p), v.pending - {h}, TreeWithout(v.tree, LockHash(v.pending[h])))
  }

  ghost function Apply(v: View, m: Message, key: ChannelKey): View
    requires Fits(v, m, key)
  {
    match m
    case Direct(p, _) => v.(proof := Some(p))
    case LockedTransfer(p, lock, _) =>
      View(Some(p), v.pending[lock.secretHash := lock], TreeWith(v.tree, LockHash(lock)).value)
    case Unlock(p, secret, _) => Remove(v, p, SecretDigest(secret))
    case LockExpired(p, h, _) => Remove(v, p, h)
  }

  /** The tokens a message newly commits. */
  function Spend(v: View, m: Message): int {
    match m
    case Direct(p, _) => p.transferred - Paid(v)
    case LockedTransfer(_, lock, _) => lock.amount
    case _ => 0
  }

  // ----- every message that fits keeps the bookkeeping -----

  lemma HashesRemove(pending: map<Hash, Lock>, h: Hash)
    requires DistinctHashes(pending) && h in pending
    ensures DistinctHashes(pending - {h})
    ensures HashesOf(pending - {h}) == HashesOf(pending) - {LockHash(pending[h])}
  {
    var rest := pending - {h};
    assert forall g :: g in rest ==> rest[g] == pending[g];
    forall x | x in HashesOf(pending) - {LockHash(pending[h])} ensures x in HashesOf(rest) {
      var g :| g in pending && LockHash(pending[g]) == x;
      assert g in rest;
    }
  }

  lemma HashesInsert(pending: map<Hash, Lock>, h: Hash, lock: Lock)
    requires DistinctHashes(pending) && h !in pending && LockHash(lock) !in HashesOf(pending)
    ensures DistinctHashes(pending[h := lock])
    ensures HashesOf(pending[h := lock]) == HashesOf(pending) + {LockHash(lock)}
  {
    var more := pending[h := lock];
    assert more[h] == lock;
    forall g | g in pending ensures g in more && more[g] == pending[g] && LockHash(pending[g]) in HashesOf(pending) {
    }
    forall x | x in HashesOf(pending) ensures x in HashesOf(more) {
      var g :| g in pending && LockHash(pending[g]) == x;
      assert g in more;
    }
  }

  lemma RemoveKeepsTree(v: View, h: Hash)
    requires TreeAgrees(v) && h in v.pending
    ensures TreeAgrees(View(v.proof, v.pending - {h}, TreeWithout(v.tree, LockHash(v.pending[h]))))
  {
    var leaf := LockHash(v.pending[h]);
    HashesRemove(v.pending, h);
    assert leaf in HashesOf(v.pending);
    assert leaf in Leaves(v.tree);
    TreeWithoutRemoves(v.tree, leaf);
  }

  lemma AddKeepsTree(v: View, lock: Lock)
    requires TreeAgrees(v) && lock.secretHash !in v.pending && LockHash(lock) !in v.tree[0]
    ensures TreeWith(v.tree, LockHash(lock)).Some?
    ensures TreeAgrees(View(v.proof, v.pending[lock.secretHash := lock], TreeWith(v.tree, LockHash(lock)).value))
  {
    assert LockHash(lock) !in Leaves(v.tree);
    HashesInsert(v.pending, lock.secretHash, lock);
    TreeWithAdds(v.tree, LockHash(lock));
  }

  lemma RemoveKeepsValid(v: View, p: BalanceProof, h: Hash, moved: bool)
    requires ViewValid(v) && FitsRemoval(v, p, h, moved)
    ensures ViewValid(Remove(v, p, h))
    ensures Outstanding(Remove(v, p, h)) == Outstanding(v) - (if moved then 0 else v.pending[h].amount)
  {
    RemoveKeepsTree(v, h);
    SumRemove(v.pending, h);
  }

  lemma AddKeepsValid(v: View, p: BalanceProof, lock: Lock)
    requires ViewValid(v) && FitsLocked(v, p, lock)
    ensures var w := View(Some(p), v.pending[lock.secretHash := lock], TreeWith(v.tree, LockHash(lock)).value);
            ViewValid(w) && Outstanding(w) == Outstanding(v) + lock.amount
  {
    AddKeepsTree(v, lock);
    SumInsert(v.pending, lock.secretHash, lock);
  }

  lemma FitsKeepsValid(v: View, m: Message, key: ChannelKey)
    requires ViewValid(v) && Fits(v, m, key)
    ensures ViewValid(Apply(v, m, key))
    ensures Outstanding(Apply(v, m, key)) <= Outstanding(v) + Spend(v, m)
    ensures Paid(Apply(v, m, key)) >= Paid(v)
    ensures Apply(v, m, key).proof == Some(m.proof)
  {
    match m
    case Direct(_, _) =>
    case LockedTransfer(p, lock, _) => AddKeepsValid(v, p, lock);
    case Unlock(p, secret, _) => RemoveKeepsValid(v, p, SecretDigest(secret), true);
    case LockExpired(p, h, _) => RemoveKeepsValid(v, p, h, false);
  }
}
