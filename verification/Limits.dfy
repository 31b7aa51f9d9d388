/** Where the assumptions of the run theorems are needed: what the code does without them. */
module Limits {
  import opened Prelude
  import opened Merkle
  import opened Channel
  import opened Ledger
  import opened Agreement
  import opened Lifecycle
  import opened Node

  // ----- a secret hash used twice -----

  lemma StaleLeaf(v: View, h: Hash, lock: Lock)
    requires ViewValid(v) && h in v.pending && LockHash(lock) !in v.tree[0]
    ensures LockHash(v.pending[h]) in v.tree[0]
    ensures LockHash(v.pending[h]) !in HashesOf(v.pending[h := lock])
  {
    var leaf := LockHash(v.pending[h]);
    assert leaf in HashesOf(v.pending);
    assert leaf in Leaves(v.tree);
  }

  /** `f` is `e` after the lock was put into the locked table and the tree, whatever was there before. */
  ghost predicate Stored(e: End, lock: Lock, f: End) {
    && e.tree != [] && TreeWith(e.tree, LockHash(lock)) == Some(f.tree)
    && f.locked == e.locked[lock.secretHash := lock] && f.unlocked == e.unlocked && f.onChain == e.onChain
  }

  lemma StoredTwiceBreaks(e: End, lock: Lock, f: End)
    requires EndValid(e) && Stored(e, lock, f) && lock.secretHash in Pending(e)
    ensures !EndValid(f)
  {
    if lock.secretHash !in e.locked {
      assert lock.secretHash in f.locked && !Disjoint(f);
    } else {
      PendingIs(f, Pending(e)[lock.secretHash := lock]);
      OverwriteBreaks(e, f, lock);
    }
  }

  /**
   The source stores a new lock without looking whether its secret hash is already
   pending.  The bookkeeping survives exactly when it is not: otherwise the old lock
   is overwritten or held in two tables while its hash stays a leaf.
   */
  lemma LockKeepsLedgerIff(c: Channel, amount: uint64, expiration: uint32, h: Hash)
    requires EndValid(c.our) && h != 0 && SendLocked(c, amount, expiration, h).Sent?
    ensures EndValid(SendLocked(c, amount, expiration, h).channel.our) <==> h !in Pending(c.our)
  {
    if h !in Pending(c.our) {
      SendLockedFits(c, amount, expiration, h);
      SentKeepsEnd(c, SendLocked(c, amount, expiration, h));
    } else {
      StoredTwiceBreaks(c.our, Lock(amount, expiration, h), SendLocked(c, amount, expiration, h).channel.our);
    }
  }

  /** Nor does the receiving side look: an accepted lock keeps the partner's books exactly when its hash is new. */
  lemma ReceivedLockKeepsLedgerIff(cfg: Config, c: Channel, m: Message, height: uint32)
    requires EndValid(c.partner) && m.LockedTransfer? && Accepts(cfg, c, m, height)
    ensures EndValid(Receive(cfg, c, m, height).partner) <==> m.lock.secretHash !in Pending(c.partner)
  {
    if m.lock.secretHash !in Pending(c.partner) {
      ReceiveKeepsEnd(cfg, c, m, height);
    } else {
      StoredTwiceBreaks(c.partner, m.lock, Receive(cfg, c, m, height).partner);
    }
  }

  lemma OverwriteBreaks(e: End, f: End, lock: Lock)
    requires EndValid(e) && lock.secretHash in Pending(e) && TreeWith(e.tree, LockHash(lock)) == Some(f.tree)
    requires Pending(f) == Pending(e)[lock.secretHash := lock]
    ensures !EndValid(f)
  {
    StaleLeaf(ViewOf(e), lock.secretHash, lock);
    TreeWithAdds(e.tree, LockHash(lock));
    var stale := LockHash(Pending(e)[lock.secretHash]);
    assert stale in Leaves(f.tree) && stale !in HashesOf(Pending(f));
  }

  // ----- on a new channel -----

  ghost predicate NewChannel(c: Channel) {
    Initial(c) && c.our.contractBalance + c.partner.contractBalance <= MAX64
  }

  lemma NewChannelFree(c: Channel)
    requires NewChannel(c)
    ensures EndsValid(c) && BothSolvent(c.our, c.partner) && AmountLocked(c.our) == 0
    ensures GetBalance(c.our, c.partner) == GetDistributable(c.our, c.partner) == c.our.contractBalance
  {
    NewEndValid(c.our);
    NewEndValid(c.partner);
    DistributableTrue(c.our, c.partner);
    LockedTrue(c.our);
  }

  /** An end whose only lock is this one, and which has paid nothing. */
  ghost predicate HoldsJust(e: End, lock: Lock) {
    && e.tree != [] && e.tree[0] == [LockHash(lock)]
    && e.locked == map[lock.secretHash := lock] && e.unlocked == map[] && e.onChain == map[]
    && Transferred(e) == 0
  }

  /** A first lock is sent on a new channel, up to the whole deposit. */
  lemma FreshSendsLock(c: Channel, lock: Lock)
    requires NewChannel(c) && lock.secretHash != 0 && lock.amount <= c.our.contractBalance
    ensures BelowPendingLimit(c.our) && GetDistributable(c.our, c.partner) == c.our.contractBalance && EndsValid(c)
    ensures var s := SendLocked(c, lock.amount, lock.expiration, lock.secretHash);
            && s.Sent? && s.channel == c.(our := s.channel.our) && EndsValid(s.channel)
            && HoldsJust(s.channel.our, lock)
            && s.channel.our.contractBalance == c.our.contractBalance && s.channel.our.totalWithdraw == 0
  {
    NewChannelFree(c);
    LeafFree(ViewOf(c.our), lock);
    LockKeepsLedgerIff(c, lock.amount, lock.expiration, lock.secretHash);
    OneLeaf(LockHash(lock));
  }

  lemma OneLeaf(h: Hash)
    ensures TreeWith(EMPTY_TREE, h).Some?
    ensures var t := TreeWith(EMPTY_TREE, h).value; t != [] && t[0] == [h]
  {
    TreeWithAdds(EMPTY_TREE, h);
    var t := TreeWith(EMPTY_TREE, h).value;
    assert t[0][0] in Leaves(t);
  }

  /**
   Two locks under one secret hash: the second is sent like the first, takes its place
   in the table, and leaves a proof that reports both amounts over a table with one.
   */
  lemma SecondLockOverwrites(c: Channel, first: Lock, second: Lock)
    requires NewChannel(c) && first.secretHash == second.secretHash != 0
    requires first.amount + second.amount <= c.our.contractBalance && LockHash(first) != LockHash(second)
    ensures var s := SendLocked(c, first.amount, first.expiration, first.secretHash);
            && s.Sent?
            && var d := SendLocked(s.channel, second.amount, second.expiration, second.secretHash);
               && d.Sent? && EndValid(s.channel.our) && !EndValid(d.channel.our)
               && AmountLocked(d.channel.our) == second.amount
               && d.message.proof.lockedAmount == first.amount + second.amount
  {
    FreshSendsLock(c, first);
    var after := SendLocked(c, first.amount, first.expiration, first.secretHash).channel;
    SecondIsSent(after, first, second);
    LockKeepsLedgerIff(after, second.amount, second.expiration, second.secretHash);
  }

  lemma SecondIsSent(c: Channel, first: Lock, second: Lock)
    requires EndsValid(c) && HoldsJust(c.our, first) && NewEnd(c.partner) && GetStatus(c) == Opened
    requires c.our.totalWithdraw == 0 && c.our.contractBalance + c.partner.contractBalance <= MAX64
    requires first.secretHash == second.secretHash && LockHash(first) != LockHash(second)
    requires first.amount + second.amount <= c.our.contractBalance
    ensures var d := SendLocked(c, second.amount, second.expiration, second.secretHash);
            && d.Sent? && AmountLocked(d.channel.our) == second.amount
            && d.message.proof.lockedAmount == first.amount + second.amount
  {
    NewEndValid(c.partner);
    OneLock(c.our, first);
    Distributes(c.our, c.partner, second.amount);
    var d := SendLocked(c, second.amount, second.expiration, second.secretHash);
    OneLock(d.channel.our, second);
  }

  lemma OneLock(e: End, lock: Lock)
    requires e.locked == map[lock.secretHash := lock] && e.unlocked == map[] && e.onChain == map[]
    ensures AmountLocked(e) == SumLocks(Pending(e)) == lock.amount && lock.secretHash in Pending(e)
  {
    AmountLockedIsSum(e);
    SumInsert(map[], lock.secretHash, lock);
    PendingIs(e, map[lock.secretHash := lock]);
    assert map[][lock.secretHash := lock] == map[lock.secretHash := lock];
  }

  // ----- a lock sent twice -----

  /**
   A lock has no new tree exactly when its hash is that of a pending lock.  A channel
   that is usable otherwise then makes the source dereference the missing tree.
   */
  lemma LeafTakenIff(e: End, lock: Lock)
    requires EndValid(e)
    ensures TreeWith(e.tree, LockHash(lock)).None? <==>
            exists h :: h in Pending(e) && LockHash(Pending(e)[h]) == LockHash(lock)
  {
    assert LockHash(lock) in e.tree[0] <==> LockHash(lock) in Leaves(e.tree);
    assert Leaves(e.tree) == HashesOf(Pending(e));
  }

  /** The same lock sent again on a new channel, which can still pay it, finds its hash taken. */
  lemma SameLockAgain(c: Channel, lock: Lock)
    requires NewChannel(c) && lock.secretHash != 0 && 2 * lock.amount <= c.our.contractBalance
    ensures var s := SendLocked(c, lock.amount, lock.expiration, lock.secretHash);
            && s.Sent? && GetStatus(s.channel) == Opened && BelowPendingLimit(s.channel.our)
            && lock.amount <= GetDistributable(s.channel.our, s.channel.partner)
            && TreeWith(s.channel.our.tree, LockHash(lock)).None?
  {
    FreshSendsLock(c, lock);
    var d := SendLocked(c, lock.amount, lock.expiration, lock.secretHash).channel;
    NewEndValid(d.partner);
    OneLock(d.our, lock);
    Distributes(d.our, d.partner, lock.amount);
  }

  // ----- a withdrawal under way -----

  /**
   Between a withdraw request and the chain's withdraw event nothing is reserved: a
   request for the whole deposit that was valid when made, followed by a payment of
   the same tokens, leaves the end owing more than it has.  The wrapped distributable
   amount is then whatever the overflow limit leaves instead of nothing.
   */
  lemma WithdrawRaceBreaksSolvency(c: Channel)
    requires NewChannel(c) && 0 < c.our.contractBalance < MAX64
    ensures var amount := c.our.contractBalance;
            && ValidWithdrawAmount(c.our, c.partner, amount)
            && SendDirect(c, amount).Sent?
            && var d := Withdrawn(SendDirect(c, amount).channel, c.our.address, amount);
               && !Solvent(d.our, d.partner)
               && GetDistributable(d.our, d.partner) == MAX64 - amount
  {
    NewChannelFree(c);
    NewEndValid(c.our);
    var s := SendDirect(c, c.our.contractBalance);
    assert s.Sent?;
    PaidAndWithdrawn(Withdrawn(s.channel, c.our.address, c.our.contractBalance), c.our.contractBalance);
  }

  lemma PaidAndWithdrawn(d: Channel, amount: uint64)
    requires d.our.locked == map[] && d.our.unlocked == map[] && d.our.onChain == map[]
    requires d.our.proof.Some? && Transferred(d.our) == amount && 0 < amount
    requires d.our.contractBalance == d.our.totalWithdraw == amount && Transferred(d.partner) == 0
    ensures !Solvent(d.our, d.partner) && GetDistributable(d.our, d.partner) == MAX64 - amount
  {
    assert LocksOf(d.our.unlocked) == map[] && LocksOf(d.our.onChain) == map[] && Pending(d.our) == map[];
    assert SumLocks(map[]) == 0;
  }
}
