/** The handlers of Channel agree with the simple form of Ledger. */
module Agreement {
  import opened Prelude
  import opened Merkle
  import opened Channel
  import opened Ledger

  // ----- lock tables -----

  lemma PendingIs(e: End, p: map<Hash, Lock>)
    requires forall h :: GetLock(e, h) == if h in p then Some(p[h]) else None
    ensures Pending(e) == p
  {
    forall h ensures (h in Pending(e) <==> h in p) && (h in p ==> Pending(e)[h] == p[h]) {
      assert GetLock(e, h) == if h in Pending(e) then Some(Pending(e)[h]) else None;
    }
  }

  lemma DelLockView(e: End, h: Hash)
    requires Disjoint(e)
    ensures Disjoint(DelLock(e, h)) && Pending(DelLock(e, h)) == Pending(e) - {h}
  {
    PendingIs(DelLock(e, h), Pending(e) - {h});
  }

  lemma DelUnclaimedView(e: End, h: Hash)
    requires Disjoint(e) && h !in e.onChain
    ensures Disjoint(DelUnclaimedLock(e, h)) && Pending(DelUnclaimedLock(e, h)) == Pending(e) - {h}
  {
    PendingIs(DelUnclaimedLock(e, h), Pending(e) - {h});
  }

  lemma StoreView(e: End, h: Hash, lock: Lock)
    requires Disjoint(e) && h !in Pending(e)
    ensures var f := e.(locked := e.locked[h := lock]);
            Disjoint(f) && Pending(f) == Pending(e)[h := lock]
  {
  }

  /** Learning a secret off-chain moves a lock between tables and changes no total, leaf or proof. */
  lemma RegisterSecretKeepsView(e: End, secret: Secret, h: Hash)
    requires Disjoint(e)
    ensures Disjoint(RegisterSecret(e, secret, h))
    ensures ViewOf(RegisterSecret(e, secret, h)) == ViewOf(e)
  {
    var f := RegisterSecret(e, secret, h);
    forall g ensures GetLock(f, g) == if g in Pending(e) then Some(Pending(e)[g]) else None {
      GetLockPending(e, g);
    }
    PendingIs(f, Pending(e));
  }

  /** Neither does learning it from the chain, in time or too late. */
  lemma RegisterOnChainKeepsView(e: End, secret: Secret, h: Hash, height: uint32)
    requires Disjoint(e)
    ensures Disjoint(RegisterOnChain(e, secret, h, height))
    ensures ViewOf(RegisterOnChain(e, secret, h, height)) == ViewOf(e)
  {
    var f := RegisterOnChain(e, secret, h, height);
    forall g ensures GetLock(f, g) == if g in Pending(e) then Some(Pending(e)[g]) else None {
      GetLockPending(e, g);
    }
    PendingIs(f, Pending(e));
  }

  /** A secret from a message unlocks a locked lock; one from the chain claims any pending lock that is not too old. */
  lemma RegisteredIff(e: End, secret: Secret, h: Hash, height: uint32)
    requires EndValid(e)
    ensures h in RegisterSecret(e, secret, h).unlocked <==> h in e.unlocked || h in e.locked
    ensures h in RegisterOnChain(e, secret, h, height).onChain <==>
            h in e.onChain || (h in Pending(e) && height <= Pending(e)[h].expiration)
    ensures h in e.locked ==> RegisterSecret(e, secret, h).unlocked[h].secret == secret
    ensures h in RegisterOnChain(e, secret, h, height).onChain && h !in e.onChain ==>
            RegisterOnChain(e, secret, h, height).onChain[h].secret == secret
  {
    GetLockPending(e, h);
  }

  // ----- amounts -----

  lemma LockedTrue(e: End)
    requires EndValid(e)
    ensures AmountLocked(e) == SumLocks(Pending(e))
    ensures CurrentLocked(e) == SumLocks(Pending(e))
    ensures CurrentRoot(e) == MerkleRoot(e.tree)
    ensures Transferred(e) == Paid(ViewOf(e)) && NextNonce(e) == Next(ViewOf(e))
  {
    AmountLockedIsSum(e);
    ProofFields(e);
    if e.proof.None? {
      BareView(ViewOf(e));
    }
  }

  lemma ProofFields(e: End)
    ensures Transferred(e) == Paid(ViewOf(e)) && NextNonce(e) == Next(ViewOf(e))
  {
  }

  /** Without a proof there is no lock, and the tree is the empty one. */
  lemma BareView(v: View)
    requires ViewValid(v) && v.proof.None?
    ensures SumLocks(v.pending) == 0 && MerkleRoot(v.tree) == 0
  {
    assert HashesOf(v.pending) == {};
    if v.tree[0] != [] {
      SomeLeaf(v.tree);
    }
  }

  lemma SomeLeaf(tree: Tree)
    requires tree != [] && tree[0] != []
    ensures Leaves(tree) != {}
  {
    assert tree[0][0] in Leaves(tree);
  }

  /** What this end may owe in total: its free deposit and what the other end transferred. */
  function Credit(e: End, other: End): int {
    e.contractBalance - e.totalWithdraw + Transferred(other)
  }

  /** transferred + locked + withdrawn <= deposit + the other end's transferred. */
  ghost predicate Solvent(e: End, other: End) {
    Outstanding(ViewOf(e)) <= Credit(e, other)
  }

  ghost predicate BothSolvent(e: End, other: End) {
    && Solvent(e, other) && Solvent(other, e)
    && e.contractBalance + other.contractBalance <= MAX64
  }

  /** What a withdrawal takes beyond the total known so far is still free when it lands. */
  ghost predicate StillFree(e: End, other: End, total: uint64) {
    total - e.totalWithdraw <= Wrap64(GetBalance(e, other) - AmountLocked(e))
  }

  /** The wrapped subtractions give the true values. */
  lemma DistributableTrue(e: End, other: End)
    requires EndValid(e) && EndValid(other) && BothSolvent(e, other)
    ensures GetBalance(e, other) == Credit(e, other) - Transferred(e)
    ensures GetDistributable(e, other)
         == Min(MAX64 - Outstanding(ViewOf(e)), Credit(e, other) - Outstanding(ViewOf(e)))
  {
    LockedTrue(e);
    LockedTrue(other);
  }

  /** Without any assumption on deposits the limit still keeps the sum in a word. */
  lemma DistributableBelowLimit(e: End, other: End)
    requires EndValid(e)
    ensures GetDistributable(e, other) <= MAX64 - Outstanding(ViewOf(e))
  {
    LockedTrue(e);
  }

  // ----- receiving -----

  ghost predicate Fresh(e: End, m: Message) {
    m.LockedTransfer? ==> m.lock.secretHash !in Pending(e)
  }

  /** When the receiver holds the lock as locked and has seen enough blocks. */
  ghost predicate ExpiryDue(cfg: Config, c: Channel, m: Message, height: uint32) {
    m.LockExpired? ==>
      && m.secretHash in c.partner.locked
      && m.secretHash !in c.our.onChain
      && height >= ReceiverThreshold(cfg, c.partner.locked[m.secretHash])
  }

  lemma LeafFree(v: View, lock: Lock)
    requires TreeAgrees(v) && LockHash(lock) !in v.tree[0]
    ensures TreeWith(v.tree, LockHash(lock)).Some?
    ensures |TreeWith(v.tree, LockHash(lock)).value| > 0
    ensures |TreeWith(v.tree, LockHash(lock)).value[0]| == |v.tree[0]| + 1
  {
    TreeWithAdds(v.tree, LockHash(lock));
  }

  /** Whatever is accepted fits, whether or not the channel is solvent. */
  lemma AcceptedFits(cfg: Config, c: Channel, m: Message, height: uint32)
    requires EndValid(c.partner) && Fresh(c.partner, m)
    requires Accepts(cfg, c, m, height)
    ensures Fits(ViewOf(c.partner), m, c.key)
    ensures m.signed && GetStatus(c) == Opened && ExpiryDue(cfg, c, m, height)
  {
    var e := c.partner;
    LockedTrue(e);
    match m
    case Direct(p, _) =>
      DistributableBelowLimit(e, c.our);
    case LockedTransfer(p, lock, _) =>
      DistributableBelowLimit(e, c.our);
      LeafFree(ViewOf(e), lock);
    case Unlock(p, secret, _) =>
      SumRemove(Pending(e), SecretDigest(secret));
    case LockExpired(p, h, _) =>
      SumRemove(Pending(e), h);
  }

  lemma AcceptedAffordable(cfg: Config, c: Channel, m: Message, height: uint32)
    requires EndValid(c.partner) && EndValid(c.our) && BothSolvent(c.partner, c.our)
    requires Accepts(cfg, c, m, height)
    ensures Outstanding(ViewOf(c.partner)) + Spend(ViewOf(c.partner), m) <= Credit(c.partner, c.our)
  {
    LockedTrue(c.partner);
    DistributableTrue(c.partner, c.our);
  }

  lemma GetLockPending(e: End, h: Hash)
    ensures GetLock(e, h) == if h in Pending(e) then Some(Pending(e)[h]) else None
  {
  }

  lemma FittingDirectAccepted(c: Channel, m: Message)
    requires EndValid(c.partner) && EndValid(c.our) && BothSolvent(c.partner, c.our) && m.Direct?
    requires Fits(ViewOf(c.partner), m, c.key) && m.signed && GetStatus(c) == Opened
    requires Outstanding(ViewOf(c.partner)) + Spend(ViewOf(c.partner), m) <= Credit(c.partner, c.our)
    ensures ValidDirect(c, m)
  {
    LockedTrue(c.partner);
    Distributes(c.partner, c.our, m.proof.transferred - Transferred(c.partner));
  }

  lemma FittingLockedAccepted(c: Channel, m: Message)
    requires EndValid(c.partner) && EndValid(c.our) && BothSolvent(c.partner, c.our) && m.LockedTransfer?
    requires Fits(ViewOf(c.partner), m, c.key) && m.signed && GetStatus(c) == Opened
    requires Outstanding(ViewOf(c.partner)) + Spend(ViewOf(c.partner), m) <= Credit(c.partner, c.our)
    ensures ValidLocked(c, m)
  {
    Distributes(c.partner, c.our, m.lock.amount);
    FittingLockedValid(c, m);
  }

  lemma Distributes(e: End, other: End, amount: uint64)
    requires EndValid(e) && EndValid(other) && BothSolvent(e, other)
    requires Outstanding(ViewOf(e)) + amount <= Credit(e, other) && Outstanding(ViewOf(e)) + amount <= MAX64
    ensures amount <= GetDistributable(e, other)
  {
    DistributableTrue(e, other);
  }

  lemma FittingLockedValid(c: Channel, m: Message)
    requires EndValid(c.partner) && m.LockedTransfer? && m.lock.amount <= GetDistributable(c.partner, c.our)
    requires Fits(ViewOf(c.partner), m, c.key) && m.signed && GetStatus(c) == Opened
    ensures ValidLocked(c, m)
  {
    LockedTrue(c.partner);
    LeafFree(ViewOf(c.partner), m.lock);
    LockedValidFrom(c, m, TreeWith(c.partner.tree, LockHash(m.lock)).value);
  }

  lemma LockedValidFrom(c: Channel, m: Message, tree: Tree)
    requires m.LockedTransfer? && m.lock.amount <= GetDistributable(c.partner, c.our) && m.lock.secretHash != 0
    requires m.signed && GetStatus(c) == Opened && m.proof.key == c.key && m.proof.nonce == NextNonce(c.partner)
    requires c.partner.tree != [] && TreeWith(c.partner.tree, LockHash(m.lock)) == Some(tree)
    requires tree != [] && |tree[0]| <= MAXIMUM_PENDING_TRANSFERS && m.proof.locksRoot == MerkleRoot(tree)
    requires m.proof.transferred == Transferred(c.partner)
    requires m.proof.lockedAmount == CurrentLocked(c.partner) + m.lock.amount
    ensures ValidLocked(c, m)
  {
  }

  lemma FittingUnlockAccepted(c: Channel, m: Message)
    requires EndValid(c.partner) && m.Unlock?
    requires Fits(ViewOf(c.partner), m, c.key) && m.signed && GetStatus(c) == Opened
    ensures ValidUnlock(c, m)
  {
    var h := SecretDigest(m.secret);
    LockedTrue(c.partner);
    GetLockPending(c.partner, h);
    SumRemove(Pending(c.partner), h);
  }

  lemma FittingExpiredAccepted(cfg: Config, c: Channel, m: Message, height: uint32)
    requires EndValid(c.partner) && m.LockExpired?
    requires Fits(ViewOf(c.partner), m, c.key) && m.signed && GetStatus(c) == Opened
    requires ExpiryDue(cfg, c, m, height)
    ensures ValidExpired(cfg, c, m, height)
  {
    var h := m.secretHash;
    LockedTrue(c.partner);
    GetLockPending(c.partner, h);
    SumRemove(Pending(c.partner), h);
  }

  lemma FittingAccepted(cfg: Config, c: Channel, m: Message, height: uint32)
    requires EndValid(c.partner) && EndValid(c.our) && BothSolvent(c.partner, c.our)
    requires Fits(ViewOf(c.partner), m, c.key) && m.signed && GetStatus(c) == Opened
    requires Outstanding(ViewOf(c.partner)) + Spend(ViewOf(c.partner), m) <= Credit(c.partner, c.our)
    requires ExpiryDue(cfg, c, m, height)
    ensures Accepts(cfg, c, m, height)
  {
    match m
    case Direct(_, _) => FittingDirectAccepted(c, m);
    case LockedTransfer(_, _, _) => FittingLockedAccepted(c, m);
    case Unlock(_, _, _) => FittingUnlockAccepted(c, m);
    case LockExpired(_, _, _) => FittingExpiredAccepted(cfg, c, m, height);
  }

  /**
   The validators accept exactly the messages that fit the sender's end, are paid
   for by its credit, are signed, find the channel open and, for an expiry, due.
   */
  lemma AcceptsExactly(cfg: Config, c: Channel, m: Message, height: uint32)
    requires EndValid(c.partner) && EndValid(c.our) && BothSolvent(c.partner, c.our)
    requires Fresh(c.partner, m)
    ensures Accepts(cfg, c, m, height) <==>
            && Fits(ViewOf(c.partner), m, c.key)
            && Outstanding(ViewOf(c.partner)) + Spend(ViewOf(c.partner), m) <= Credit(c.partner, c.our)
            && m.signed && GetStatus(c) == Opened && ExpiryDue(cfg, c, m, height)
  {
    if Accepts(cfg, c, m, height) {
      AcceptedFits(cfg, c, m, height);
      AcceptedAffordable(cfg, c, m, height);
    } else if Fits(ViewOf(c.partner), m, c.key)
           && Outstanding(ViewOf(c.partner)) + Spend(ViewOf(c.partner), m) <= Credit(c.partner, c.our)
           && m.signed && GetStatus(c) == Opened && ExpiryDue(cfg, c, m, height) {
      FittingAccepted(cfg, c, m, height);
    }
  }

  lemma InstallLockedApplies(e: End, m: Message, key: ChannelKey)
    requires EndValid(e) && Fits(ViewOf(e), m, key) && m.LockedTransfer?
    ensures Disjoint(Install(e, m)) && ViewOf(Install(e, m)) == Apply(ViewOf(e), m, key)
  {
    LeafFree(ViewOf(e), m.lock);
    StoreView(e, m.lock.secretHash, m.lock);
  }

  lemma InstallUnlockApplies(e: End, m: Message, key: ChannelKey)
    requires EndValid(e) && Fits(ViewOf(e), m, key) && m.Unlock?
    ensures Disjoint(Install(e, m)) && ViewOf(Install(e, m)) == Apply(ViewOf(e), m, key)
  {
    DelLockView(e, SecretDigest(m.secret));
    GetLockPending(e, SecretDigest(m.secret));
  }

  lemma InstallExpiredApplies(e: End, m: Message, key: ChannelKey)
    requires EndValid(e) && Fits(ViewOf(e), m, key) && m.LockExpired? && m.secretHash in e.locked
    ensures Disjoint(Install(e, m)) && ViewOf(Install(e, m)) == Apply(ViewOf(e), m, key)
  {
    DelUnclaimedView(e, m.secretHash);
    GetLockPending(e, m.secretHash);
  }

  /** Installing a fitting message is applying it to the simple form. */
  lemma InstallApplies(e: End, m: Message, key: ChannelKey)
    requires EndValid(e) && Fits(ViewOf(e), m, key)
    requires m.LockExpired? ==> m.secretHash in e.locked
    ensures EndValid(Install(e, m)) && ViewOf(Install(e, m)) == Apply(ViewOf(e), m, key)
  {
    FitsKeepsValid(ViewOf(e), m, key);
    match m
    case Direct(p, _) =>
    case LockedTransfer(_, _, _) => InstallLockedApplies(e, m, key);
    case Unlock(_, _, _) => InstallUnlockApplies(e, m, key);
    case LockExpired(_, _, _) => InstallExpiredApplies(e, m, key);
  }

  // ----- sending -----

  /** What every send step of our own end promises. */
  ghost predicate SentFits(c: Channel, s: Sent) {
    s.Sent? ==>
      && Fits(ViewOf(c.our), s.message, c.key)
      && s.message.signed
      && Disjoint(s.channel.our)
      && ViewOf(s.channel.our) == Apply(ViewOf(c.our), s.message, c.key)
      && s.channel == c.(our := s.channel.our)
      && s.channel.our.address == c.our.address
      && s.channel.our.contractBalance == c.our.contractBalance
      && s.channel.our.totalWithdraw == c.our.totalWithdraw
  }

  lemma SendDirectFits(c: Channel, amount: uint64)
    requires EndValid(c.our)
    ensures SentFits(c, SendDirect(c, amount))
  {
    LockedTrue(c.our);
    DistributableBelowLimit(c.our, c.partner);
  }

  lemma SendLockedFits(c: Channel, amount: uint64, expiration: uint32, h: Hash)
    requires EndValid(c.our) && h != 0 && h !in Pending(c.our)
    ensures SentFits(c, SendLocked(c, amount, expiration, h))
  {
    LockedTrue(c.our);
    DistributableBelowLimit(c.our, c.partner);
    StoreView(c.our, h, Lock(amount, expiration, h));
  }

  lemma SendUnlockFits(c: Channel, secret: Secret)
    requires EndValid(c.our)
    ensures SentFits(c, SendUnlock(c, secret, SecretDigest(secret)))
    ensures SendUnlock(c, secret, SecretDigest(secret)).Sent? <==> SecretDigest(secret) in Pending(c.our)
  {
    GetLockPending(c.our, SecretDigest(secret));
    if SecretDigest(secret) in Pending(c.our) {
      UnlockFits(c, secret);
    }
  }

  lemma UnlockFits(c: Channel, secret: Secret)
    requires EndValid(c.our) && SecretDigest(secret) in Pending(c.our)
    ensures SendUnlock(c, secret, SecretDigest(secret)).Sent?
    ensures SentFits(c, SendUnlock(c, secret, SecretDigest(secret)))
  {
    var h := SecretDigest(secret);
    GetLockPending(c.our, h);
    LockedTrue(c.our);
    SumRemove(Pending(c.our), h);
    DelLockView(c.our, h);
    assert GetLock(c.our, h).value == Pending(c.our)[h] && Pending(c.our)[h].secretHash == h;
  }

  lemma ExpireLockFits(c: Channel, lock: Lock)
    requires EndValid(c.our)
    requires lock.secretHash in Pending(c.our) && Pending(c.our)[lock.secretHash] == lock
    requires lock.secretHash !in c.our.onChain
    ensures ExpireLock(c, lock).Sent? && SentFits(c, ExpireLock(c, lock))
  {
    LockedTrue(c.our);
    SumRemove(Pending(c.our), lock.secretHash);
    DelUnclaimedView(c.our, lock.secretHash);
  }

  lemma SendExpiredFits(cfg: Config, c: Channel, h: Hash, height: uint32)
    requires EndValid(c.our)
    ensures SentFits(c, SendExpired(cfg, c, h, height))
    ensures SendExpired(cfg, c, h, height).Sent? ==>
            && h in Pending(c.our) && h !in c.our.onChain
            && height >= SenderThreshold(cfg, Pending(c.our)[h])
            && SendExpired(cfg, c, h, height) == ExpireLock(c, Pending(c.our)[h])
  {
    if SendExpired(cfg, c, h, height).Sent? {
      ExpireLockFits(c, Pending(c.our)[h]);
    }
  }

  /** New commitments are also covered by the sender's credit. */
  lemma SentAffordable(c: Channel, amount: uint64)
    requires EndValid(c.our) && EndValid(c.partner) && BothSolvent(c.our, c.partner)
    requires amount <= GetDistributable(c.our, c.partner)
    ensures Outstanding(ViewOf(c.our)) + amount <= Credit(c.our, c.partner)
  {
    DistributableTrue(c.our, c.partner);
  }

  /** A direct transfer is sent exactly when the channel is open and the sender can pay it. */
  lemma DirectSentIff(c: Channel, amount: uint64)
    requires EndValid(c.our) && EndValid(c.partner) && BothSolvent(c.our, c.partner)
    ensures SendDirect(c, amount).Sent? <==>
            && c.settleTx == None && c.closeTx == None && amount > 0
            && Outstanding(ViewOf(c.our)) + amount <= Credit(c.our, c.partner)
            && Outstanding(ViewOf(c.our)) + amount < MAX64
  {
    LockedTrue(c.our);
    DistributableTrue(c.our, c.partner);
  }

  /** A lock is sent exactly when the channel is open, the sender can pay it and there is room for a new leaf. */
  lemma LockedSentIff(c: Channel, amount: uint64, expiration: uint32, h: Hash)
    requires EndValid(c.our) && EndValid(c.partner) && BothSolvent(c.our, c.partner)
    ensures SendLocked(c, amount, expiration, h).Sent? <==>
            && c.settleTx == None && c.closeTx == None
            && Outstanding(ViewOf(c.our)) + amount <= Credit(c.our, c.partner)
            && Outstanding(ViewOf(c.our)) + amount <= MAX64
            && |c.our.tree[0]| < MAXIMUM_PENDING_TRANSFERS
            && LockHash(Lock(amount, expiration, h)) !in HashesOf(Pending(c.our))
  {
    SendLockedGuard(c, amount, expiration, h);
    DistributableTrue(c.our, c.partner);
  }

  lemma SendLockedGuard(c: Channel, amount: uint64, expiration: uint32, h: Hash)
    requires EndValid(c.our)
    ensures SendLocked(c, amount, expiration, h).Sent? <==>
            && GetStatus(c) == Opened && amount <= GetDistributable(c.our, c.partner)
            && |c.our.tree[0]| < MAXIMUM_PENDING_TRANSFERS
            && LockHash(Lock(amount, expiration, h)) !in HashesOf(Pending(c.our))
  {
    var leaf := LockHash(Lock(amount, expiration, h));
    assert leaf in c.our.tree[0] <==> leaf in Leaves(c.our.tree);
  }
}
