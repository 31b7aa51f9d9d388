/** Mediator safety over every run of one forward pair. */
module MediatorRuns {
  import opened Prelude
  import opened Merkle
  import opened Channel
  import opened Ledger
  import opened Agreement
  import opened Node
  import opened Mediator

  /**
   The pair with its history: the node's height, how often the payee was unlocked and
   an on-chain registration emitted, whether the payer's lock was paid, and whether it
   was dropped by an accepted lock-expired message.
   */
  datatype Trace = Trace(m: Mediation, height: uint32, unlocks: nat, registrations: nat, claimed: bool, dropped: bool)

  datatype PairEvent =
    | BlockEvent(height: uint32)
    | OffChainReveal(secret: Secret, sender: Address)
    | OnChainReveal(secret: Secret, eventHeight: uint32)
    | PayerUnlock(message: Message)
    | PayerLockExpired(message: Message)
    | Traffic(payer: Option<Channel>, payee: Option<Channel>)

  ghost function Following(t: Trace, e: Effect): Trace {
    t.(m := e.m, unlocks := t.unlocks + e.unlocks, registrations := t.registrations + e.registrations)
  }

  ghost predicate PayerAccepts(cfg: Config, t: Trace, msg: Message) {
    t.m.payer.Some? && Accepts(cfg, t.m.payer.value, msg, t.height)
  }

  ghost function PairStep(cfg: Config, t: Trace, ev: PairEvent): Trace {
    match ev
    case BlockEvent(height) => Following(t, HandleMediatorBlock(cfg, t.m, height)).(height := height)
    case OffChainReveal(secret, sender) => Following(t, HandleOffChainReveal(cfg, t.m, secret, sender, t.height))
    case OnChainReveal(secret, eventHeight) => Following(t, HandleOnChainReveal(t.m, secret, eventHeight))
    case PayerUnlock(msg) =>
      t.(m := HandlePayerUnlock(cfg, t.m, msg, t.height), claimed := t.claimed || PayerAccepts(cfg, t, msg))
    case PayerLockExpired(msg) =>
      t.(m := HandlePayerExpired(cfg, t.m, msg, t.height), dropped := t.dropped || PayerAccepts(cfg, t, msg))
    case Traffic(payer, payee) => t.(m := t.m.(payer := payer, payee := payee))
  }

  // ----- other traffic on the two channels -----

  ghost predicate SameAt(e: End, f: End, h: Hash) {
    && (h in f.locked <==> h in e.locked) && (h in e.locked ==> f.locked[h] == e.locked[h])
    && (h in f.unlocked <==> h in e.unlocked) && (h in e.unlocked ==> f.unlocked[h] == e.unlocked[h])
    && (h in f.onChain <==> h in e.onChain) && (h in e.onChain ==> f.onChain[h] == e.onChain[h])
  }

  /** Anything may happen to a channel, its removal included, that leaves this payment's lock alone. */
  ghost predicate OtherTraffic(c: Option<Channel>, d: Option<Channel>, h: Hash) {
    d.Some? ==>
      && c.Some? && EndsValid(d.value) && d.value.revealTimeout == c.value.revealTimeout
      && SameAt(c.value.our, d.value.our, h) && SameAt(c.value.partner, d.value.partner, h)
  }

  /** An off-chain reveal the handler heeds must not reach the lock lookup that finds none. */
  ghost predicate MayHappen(cfg: Config, t: Trace, ev: PairEvent) {
    match ev
    case BlockEvent(height) => height >= t.height
    case OffChainReveal(secret, sender) =>
      HeedsReveal(cfg, t, secret) ==> SecretLearnedRuns(LearnSecret(t.m, secret, sender))
    case OnChainReveal(_, eventHeight) => eventHeight <= t.height
    case PayerUnlock(msg) => msg.Unlock? && SecretDigest(msg.secret) == t.m.secretHash
    case PayerLockExpired(msg) => msg.LockExpired? && msg.secretHash == t.m.secretHash
    case Traffic(payer, payee) =>
      OtherTraffic(t.m.payer, payer, t.m.secretHash) && OtherTraffic(t.m.payee, payee, t.m.secretHash)
  }

  // ----- the invariant -----

  /** The only lock the end may hold under this secret hash is the given one. */
  ghost predicate HoldsOnly(e: End, lock: Lock) {
    lock.secretHash in Pending(e) ==> Pending(e)[lock.secretHash] == lock
  }

  ghost predicate LocksInPlace(m: Mediation) {
    && m.payerLock.secretHash == m.secretHash && m.payeeLock.secretHash == m.secretHash
    && m.payeeLock.amount <= m.payerLock.amount
    && (m.payer.Some? ==> EndsValid(m.payer.value) && HoldsOnly(m.payer.value.partner, m.payerLock))
    && (m.payee.Some? ==> EndsValid(m.payee.value) && HoldsOnly(m.payee.value.our, m.payeeLock))
  }

  ghost predicate PayeeOnce(t: Trace) {
    && t.unlocks <= 1
    && (t.unlocks == 1 ==>
          && t.m.payeeState == PayeeBalanceProof
          && (t.m.payee.Some? ==> t.m.secretHash !in Pending(t.m.payee.value.our)))
    && (PayeeKnowsSecret(t.m.payeeState) ==> t.m.secret.Some?)
  }

  /** Once the payee knows the secret the payer's lock is paid, dropped, or has its secret registered. */
  ghost predicate PayerAccounted(cfg: Config, t: Trace) {
    && (t.m.payer.Some? ==> (t.m.secretHash !in Pending(t.m.payer.value.partner) <==> t.claimed || t.dropped))
    && (t.m.payer.Some? && PayeeKnowsSecret(t.m.payeeState) ==>
          t.claimed || t.dropped || SecretKnown(t.m.payer.value.partner, t.m.secretHash))
    && (t.dropped ==> t.height >= ReceiverThreshold(cfg, t.m.payerLock))
  }

  ghost predicate PairInv(cfg: Config, t: Trace) {
    LocksInPlace(t.m) && PayeeOnce(t) && PayerAccounted(cfg, t)
  }

  // ----- what the channel operations do to one lock -----

  lemma SameAtPending(e: End, f: End, h: Hash)
    requires SameAt(e, f, h)
    ensures h in Pending(f) <==> h in Pending(e)
    ensures h in Pending(e) ==> Pending(f)[h] == Pending(e)[h]
    ensures SecretKnown(f, h) <==> SecretKnown(e, h)
  {
  }

  lemma EndLearnsOffChain(e: End, secret: Secret, h: Hash)
    requires EndValid(e)
    ensures var f := RegisterSecret(e, secret, h);
            && EndValid(f) && Pending(f) == Pending(e)
            && (h in Pending(e) ==> SecretKnown(f, h))
  {
    RegisterSecretKeepsView(e, secret, h);
    assert ViewOf(RegisterSecret(e, secret, h)).pending == ViewOf(e).pending;
  }

  lemma EndLearnsOnChain(e: End, secret: Secret, h: Hash, height: uint32)
    requires EndValid(e)
    ensures var f := RegisterOnChain(e, secret, h, height);
            && EndValid(f) && Pending(f) == Pending(e)
            && (SecretKnown(e, h) ==> SecretKnown(f, h))
            && (h in e.onChain ==> h in f.onChain)
            && (h in Pending(e) && Pending(e)[h].expiration >= height ==> h in f.onChain)
  {
    RegisterOnChainKeepsView(e, secret, h, height);
    assert ViewOf(RegisterOnChain(e, secret, h, height)).pending == ViewOf(e).pending;
    GetLockPending(e, h);
  }

  lemma UnlockRemoves(c: Channel, secret: Secret)
    requires EndsValid(c)
    ensures var s := SendUnlock(c, secret, SecretDigest(secret));
            && (s.Sent? <==> SecretDigest(secret) in Pending(c.our))
            && (s.Sent? ==>
                  && EndsValid(s.channel) && Pending(s.channel.our) == Pending(c.our) - {SecretDigest(secret)}
                  && Transferred(s.channel.our) == Transferred(c.our) + Pending(c.our)[SecretDigest(secret)].amount
                  && s.channel.revealTimeout == c.revealTimeout && s.channel.partner == c.partner)
  {
    SendUnlockFits(c, secret);
    SentKeepsEnd(c, SendUnlock(c, secret, SecretDigest(secret)));
  }

  lemma ExpireLockRemoves(c: Channel, lock: Lock)
    requires EndsValid(c)
    requires lock.secretHash in Pending(c.our) && Pending(c.our)[lock.secretHash] == lock
    requires lock.secretHash !in c.our.onChain
    ensures var s := ExpireLock(c, lock);
            && s.Sent? && EndsValid(s.channel) && s.channel.partner == c.partner
            && Pending(s.channel.our) == Pending(c.our) - {lock.secretHash}
  {
    ExpireLockFits(c, lock);
    SentKeepsEnd(c, ExpireLock(c, lock));
    ExpireLockShape(c, lock);
    DelUnclaimedView(c.our, lock.secretHash);
  }

  lemma ExpireLockShape(c: Channel, lock: Lock)
    requires ExpireLock(c, lock).Sent?
    ensures var e := ExpireLock(c, lock).channel.our;
            && ExpireLock(c, lock).channel.partner == c.partner
            && e.locked == DelUnclaimedLock(c.our, lock.secretHash).locked
            && e.unlocked == DelUnclaimedLock(c.our, lock.secretHash).unlocked && e.onChain == c.our.onChain
  {
  }

  lemma KeyedBySecretHash(e: End, h: Hash)
    requires EndValid(e) && h in Pending(e)
    ensures Pending(e)[h].secretHash == h
  {
  }

  lemma ExpireRemoves(cfg: Config, c: Channel, h: Hash, height: uint32)
    requires EndsValid(c)
    ensures var s := SendExpired(cfg, c, h, height);
            && (s.Sent? <==> ExpiryReached(cfg, c.our, h, height))
            && (s.Sent? ==>
                  && h in Pending(c.our)
                  && EndsValid(s.channel) && Pending(s.channel.our) == Pending(c.our) - {h}
                  && s.channel.partner == c.partner)
  {
    if ExpiryReached(cfg, c.our, h, height) {
      UnclaimedPending(c.our, h);
      ExpireLockRemoves(c, UnclaimedLock(c.our, h));
    }
  }

  lemma UnclaimedPending(e: End, h: Hash)
    requires EndValid(e) && (h in e.locked || h in e.unlocked)
    ensures h in Pending(e) && h !in e.onChain
    ensures Pending(e)[h] == UnclaimedLock(e, h) && UnclaimedLock(e, h).secretHash == h
  {
    GetLockPending(e, h);
    KeyedBySecretHash(e, h);
  }

  lemma ReceiveRemoves(cfg: Config, c: Channel, m: Message, h: Hash, height: uint32)
    requires EndsValid(c) && ((m.Unlock? && SecretDigest(m.secret) == h) || (m.LockExpired? && m.secretHash == h))
    ensures var d := Receive(cfg, c, m, height);
            && EndsValid(d) && d.our == c.our && d.revealTimeout == c.revealTimeout
            && (Accepts(cfg, c, m, height) ==> Pending(d.partner) == Pending(c.partner) - {h})
            && (!Accepts(cfg, c, m, height) ==> d == c)
            && (Accepts(cfg, c, m, height) && m.LockExpired? ==>
                  h in c.partner.locked && height >= ReceiverThreshold(cfg, c.partner.locked[h]))
  {
    ReceiveKeepsEnd(cfg, c, m, height);
    if Accepts(cfg, c, m, height) {
      AcceptedFits(cfg, c, m, height);
      InstallApplies(c.partner, m, c.key);
    }
  }

  // ----- paying -----

  /** What `eventsForBalanceProof` promises about a payment it makes. */
  ghost predicate PaysWithinPayer(m: Mediation, height: uint32, e: Effect) {
    e.unlocks > 0 ==>
      && e.unlocks == 1
      && m.payer.Some? && m.payee.Some? && e.m.payee.Some?
      && IsSafeToWait(m.payerLock.expiration, m.payer.value.revealTimeout, height)
      && Transferred(e.m.payee.value.our) == Transferred(m.payee.value.our) + m.payeeLock.amount
      && m.payeeLock.amount <= m.payerLock.amount
  }

  lemma PayPayeeEffect(m: Mediation, secret: Secret, height: uint32)
    requires LocksInPlace(m) && SecretDigest(secret) == m.secretHash
    ensures var e := PayPayee(m, secret, height);
            && LocksInPlace(e.m) && e.registrations == 0 && PaysWithinPayer(m, height, e)
            && e.m == m.(payeeState := e.m.payeeState, payee := e.m.payee)
            && (e.unlocks > 0 ==>
                  && PayeeKnowsSecret(m.payeeState) && !PayeePaid(m.payeeState)
                  && e.m.payeeState == PayeeBalanceProof
                  && e.m.payee.Some? && m.secretHash !in Pending(e.m.payee.value.our))
            && (e.unlocks == 0 ==> e.m.payee == m.payee)
            && (PayeeKnowsSecret(e.m.payeeState) <==> PayeeKnowsSecret(m.payeeState))
            && (PayeePaid(m.payeeState) ==> e == Effect(m, 0, 0))
  {
    if m.payee.Some? {
      UnlockRemoves(m.payee.value, secret);
    }
  }

  // ----- every event keeps the invariant -----

  lemma LearnKeepsLocks(m: Mediation, secret: Secret, sender: Address)
    requires LocksInPlace(m)
    ensures var k := LearnSecret(m, secret, sender);
            && LocksInPlace(k)
            && (m.payer.Some? ==> Pending(k.payer.value.partner) == Pending(m.payer.value.partner))
            && (m.payee.Some? ==> Pending(k.payee.value.our) == Pending(m.payee.value.our))
            && (m.payer.Some? && m.secretHash in Pending(m.payer.value.partner) ==>
                  SecretKnown(k.payer.value.partner, m.secretHash))
  {
    if m.payer.Some? {
      EndLearnsOffChain(m.payer.value.our, secret, m.secretHash);
      EndLearnsOffChain(m.payer.value.partner, secret, m.secretHash);
    }
    if m.payee.Some? {
      EndLearnsOffChain(m.payee.value.our, secret, m.secretHash);
      EndLearnsOffChain(m.payee.value.partner, secret, m.secretHash);
    }
  }

  lemma PayerStateIrrelevant(cfg: Config, t: Trace, t': Trace)
    requires t' == t.(m := t.m.(payerState := t'.m.payerState), registrations := t'.registrations)
    ensures PairInv(cfg, t) <==> PairInv(cfg, t')
  {
  }

  lemma LearnKeepsInv(cfg: Config, t: Trace, secret: Secret, sender: Address)
    requires PairInv(cfg, t) && t.m.secret.None?
    ensures PairInv(cfg, t.(m := LearnSecret(t.m, secret, sender)))
    ensures t.unlocks == 0
  {
    LearnKeepsLocks(t.m, secret, sender);
  }

  lemma PayKeepsInv(cfg: Config, t: Trace, secret: Secret, height: uint32)
    requires PairInv(cfg, t) && SecretDigest(secret) == t.m.secretHash
    ensures PairInv(cfg, Following(t, PayPayee(t.m, secret, height)))
  {
    PayPayeeEffect(t.m, secret, height);
  }

  /** The state in which `secretLearned` comes to pay the payee. */
  function Learned(t: Trace, secret: Secret, sender: Address): Trace {
    var closed := RevealIfClosed(LearnSecret(t.m, secret, sender));
    t.(m := RevealToPayer(closed.m), registrations := t.registrations + closed.registrations)
  }

  predicate HeedsReveal(cfg: Config, t: Trace, secret: Secret) {
    t.m.payer.Some? && t.m.secret.None? && ValidReveal(t.m, secret) && !TransferExpired(cfg, t.m, t.height)
  }

  lemma OffChainShape(cfg: Config, t: Trace, secret: Secret, sender: Address)
    ensures PairStep(cfg, t, OffChainReveal(secret, sender)) ==
            if HeedsReveal(cfg, t, secret)
            then Following(Learned(t, secret, sender), PayPayee(Learned(t, secret, sender).m, secret, t.height)) else t
  {
  }

  lemma LearnedKeepsInv(cfg: Config, t: Trace, secret: Secret, sender: Address)
    requires PairInv(cfg, t) && t.m.secret.None?
    ensures PairInv(cfg, Learned(t, secret, sender)) && t.unlocks == 0
  {
    LearnKeepsInv(cfg, t, secret, sender);
    PayerStateIrrelevant(cfg, t.(m := LearnSecret(t.m, secret, sender)), Learned(t, secret, sender));
  }

  lemma OffChainKeepsInv(cfg: Config, t: Trace, secret: Secret, sender: Address)
    requires PairInv(cfg, t)
    ensures PairInv(cfg, PairStep(cfg, t, OffChainReveal(secret, sender)))
  {
    OffChainShape(cfg, t, secret, sender);
    if HeedsReveal(cfg, t, secret) {
      LearnedKeepsInv(cfg, t, secret, sender);
      PayKeepsInv(cfg, Learned(t, secret, sender), secret, t.height);
    }
  }

  lemma OnChainKeepsLocks(m: Mediation, secret: Secret, eventHeight: uint32)
    requires LocksInPlace(m)
    ensures var k := KnownOnChain(m, secret, eventHeight);
            && LocksInPlace(k)
            && (m.payer.Some? ==> Pending(k.payer.value.partner) == Pending(m.payer.value.partner))
            && (m.payee.Some? ==> Pending(k.payee.value.our) == Pending(m.payee.value.our))
            && (m.payer.Some? && SecretKnown(m.payer.value.partner, m.secretHash) ==>
                  SecretKnown(k.payer.value.partner, m.secretHash))
            && (m.payer.Some? && m.secretHash in m.payer.value.partner.onChain ==>
                  m.secretHash in k.payer.value.partner.onChain)
            && (m.payer.Some? && m.secretHash in Pending(m.payer.value.partner) && m.payerLock.expiration >= eventHeight ==>
                  m.secretHash in k.payer.value.partner.onChain)
  {
    if m.payer.Some? {
      EndLearnsOnChain(m.payer.value.our, secret, m.secretHash, eventHeight);
      EndLearnsOnChain(m.payer.value.partner, secret, m.secretHash, eventHeight);
    }
    if m.payee.Some? {
      EndLearnsOnChain(m.payee.value.our, secret, m.secretHash, eventHeight);
      EndLearnsOnChain(m.payee.value.partner, secret, m.secretHash, eventHeight);
    }
  }

  lemma KnownOnChainKeepsInv(cfg: Config, t: Trace, secret: Secret, eventHeight: uint32)
    requires PairInv(cfg, t)
    ensures PairInv(cfg, t.(m := KnownOnChain(t.m, secret, eventHeight)))
  {
    OnChainKeepsLocks(t.m, secret, eventHeight);
  }

  lemma OnChainShape(cfg: Config, t: Trace, secret: Secret, eventHeight: uint32)
    ensures PairStep(cfg, t, OnChainReveal(secret, eventHeight)) ==
            if ValidReveal(t.m, secret) then
              Following(t.(m := KnownOnChain(t.m, secret, eventHeight)),
                        PayPayee(KnownOnChain(t.m, secret, eventHeight), secret, eventHeight))
            else t
  {
  }

  lemma OnChainKeepsInv(cfg: Config, t: Trace, secret: Secret, eventHeight: uint32)
    requires PairInv(cfg, t)
    ensures PairInv(cfg, PairStep(cfg, t, OnChainReveal(secret, eventHeight)))
  {
    OnChainShape(cfg, t, secret, eventHeight);
    if ValidReveal(t.m, secret) {
      KnownOnChainKeepsInv(cfg, t, secret, eventHeight);
      PayKeepsInv(cfg, t.(m := KnownOnChain(t.m, secret, eventHeight)), secret, eventHeight);
    }
  }

  lemma RemoveExpiredKeeps(cfg: Config, m: Mediation, height: uint32)
    requires LocksInPlace(m)
    ensures var r := RemoveExpired(cfg, m, height);
            && LocksInPlace(r) && r.payer == m.payer && r.secret == m.secret && r.payerState == m.payerState
            && r.payerLock == m.payerLock && r.payeeLock == m.payeeLock && r.secretHash == m.secretHash
            && (r != m ==> m.payee.Some? && m.secretHash in Pending(m.payee.value.our) && r.payeeState == PayeeExpired)
  {
    if m.payee.Some? {
      ExpireRemoves(cfg, m.payee.value, m.secretHash, height);
    }
  }

  lemma RemoveExpiredKeepsInv(cfg: Config, t: Trace, height: uint32)
    requires PairInv(cfg, t) && height >= t.height
    ensures PairInv(cfg, t.(m := RemoveExpired(cfg, t.m, height), height := height))
  {
    RemoveExpiredKeeps(cfg, t.m, height);
  }

  lemma BlockShape(cfg: Config, t: Trace, height: uint32)
    ensures var t' := PairStep(cfg, t, BlockEvent(height));
            t' == t.(m := RemoveExpired(cfg, t.m, height).(payerState := t'.m.payerState),
                     height := height, registrations := t'.registrations)
  {
  }

  lemma BlockKeepsInv(cfg: Config, t: Trace, height: uint32)
    requires PairInv(cfg, t) && height >= t.height
    ensures PairInv(cfg, PairStep(cfg, t, BlockEvent(height)))
  {
    RemoveExpiredKeepsInv(cfg, t, height);
    BlockShape(cfg, t, height);
    PayerStateIrrelevant(cfg, t.(m := RemoveExpired(cfg, t.m, height), height := height),
                         PairStep(cfg, t, BlockEvent(height)));
  }

  /** The payer's lock leaves its end, as paid or as dropped in time. */
  lemma LockLeavesPayer(cfg: Config, t: Trace, t': Trace, d: Channel)
    requires PairInv(cfg, t) && t.m.payer.Some? && EndsValid(d)
    requires t' == t.(m := t.m.(payer := Some(d), payerState := t'.m.payerState), claimed := t'.claimed, dropped := t'.dropped)
    requires Pending(d.partner) == Pending(t.m.payer.value.partner) - {t.m.secretHash}
    requires t'.claimed || t'.dropped
    requires t'.dropped ==> t.height >= ReceiverThreshold(cfg, t.m.payerLock)
    ensures PairInv(cfg, t')
  {
  }

  lemma PayerUnlockKeepsInv(cfg: Config, t: Trace, msg: Message)
    requires PairInv(cfg, t) && MayHappen(cfg, t, PayerUnlock(msg))
    ensures PairInv(cfg, PairStep(cfg, t, PayerUnlock(msg)))
  {
    if PayerAccepts(cfg, t, msg) {
      var d := Receive(cfg, t.m.payer.value, msg, t.height);
      ReceiveRemoves(cfg, t.m.payer.value, msg, t.m.secretHash, t.height);
      LockLeavesPayer(cfg, t, PairStep(cfg, t, PayerUnlock(msg)), d);
    }
  }

  lemma PayerExpiryKeepsInv(cfg: Config, t: Trace, msg: Message)
    requires PairInv(cfg, t) && MayHappen(cfg, t, PayerLockExpired(msg))
    ensures PairInv(cfg, PairStep(cfg, t, PayerLockExpired(msg)))
  {
    var t' := PairStep(cfg, t, PayerLockExpired(msg));
    if PayerAccepts(cfg, t, msg) {
      var c := t.m.payer.value;
      ReceiveRemoves(cfg, c, msg, t.m.secretHash, t.height);
      assert Pending(c.partner)[t.m.secretHash] == c.partner.locked[t.m.secretHash];
      LockLeavesPayer(cfg, t, t', Receive(cfg, c, msg, t.height));
    } else if t.m.payer.Some? {
      ReceiveRemoves(cfg, t.m.payer.value, msg, t.m.secretHash, t.height);
      PayerStateIrrelevant(cfg, t, t');
    }
  }

  lemma TrafficKeepsInv(cfg: Config, t: Trace, ev: PairEvent)
    requires PairInv(cfg, t) && MayHappen(cfg, t, ev) && ev.Traffic?
    ensures PairInv(cfg, PairStep(cfg, t, ev))
  {
    var h := t.m.secretHash;
    if ev.payer.Some? {
      SameAtPending(t.m.payer.value.partner, ev.payer.value.partner, h);
    }
    if ev.payee.Some? {
      SameAtPending(t.m.payee.value.our, ev.payee.value.our, h);
    }
  }

  lemma PairStepKeepsInv(cfg: Config, t: Trace, ev: PairEvent)
    requires PairInv(cfg, t) && MayHappen(cfg, t, ev)
    ensures PairInv(cfg, PairStep(cfg, t, ev))
  {
    match ev
    case BlockEvent(height) => BlockKeepsInv(cfg, t, height);
    case OffChainReveal(secret, sender) => OffChainKeepsInv(cfg, t, secret, sender);
    case OnChainReveal(secret, eventHeight) => OnChainKeepsInv(cfg, t, secret, eventHeight);
    case PayerUnlock(msg) => PayerUnlockKeepsInv(cfg, t, msg);
    case PayerLockExpired(msg) => PayerExpiryKeepsInv(cfg, t, msg);
    case Traffic(_, _) => TrafficKeepsInv(cfg, t, ev);
  }

  /**
   The one step a run cannot take: a heeded reveal for a pending pair whose payer channel
   is closed, whose lock is gone from it and which does not wait for a registration yet.
   The source then dereferences the lock it did not find.
   */
  lemma RevealStopsIff(cfg: Config, t: Trace, secret: Secret, sender: Address)
    requires PairInv(cfg, t)
    ensures !MayHappen(cfg, t, OffChainReveal(secret, sender)) <==>
            && HeedsReveal(cfg, t, secret)
            && GetStatus(t.m.payer.value) == Closed
            && t.m.secretHash !in Pending(t.m.payer.value.partner)
            && t.m.payerState != PayerWaitingSecretReveal
            && PairPending(LearnSecret(t.m, secret, sender))
    ensures !MayHappen(cfg, t, OffChainReveal(secret, sender)) ==> t.claimed || t.dropped
  {
    if HeedsReveal(cfg, t, secret) {
      LookupStopsIff(t.m, secret, sender);
    }
  }

  lemma LookupStopsIff(m: Mediation, secret: Secret, sender: Address)
    requires m.payer.Some? && EndsValid(m.payer.value)
    ensures !SecretLearnedRuns(LearnSecret(m, secret, sender)) <==>
            && GetStatus(m.payer.value) == Closed
            && m.secretHash !in Pending(m.payer.value.partner)
            && m.payerState != PayerWaitingSecretReveal
            && PairPending(LearnSecret(m, secret, sender))
  {
    var k := LearnSecret(m, secret, sender);
    assert k.payer == Some(RegisterOffChainSecret(m.payer.value, secret, m.secretHash));
    assert GetStatus(k.payer.value) == GetStatus(m.payer.value);
    LookupFails(m.payer.value.partner, secret, m.secretHash);
  }

  lemma LookupFails(e: End, secret: Secret, h: Hash)
    requires EndValid(e)
    ensures GetLock(RegisterSecret(e, secret, h), h).None? <==> h !in Pending(e)
    ensures h !in Pending(e) ==> h !in RegisterSecret(e, secret, h).onChain
  {
    EndLearnsOffChain(e, secret, h);
    GetLockPending(RegisterSecret(e, secret, h), h);
  }

  // ----- what reaches the two neighbours -----

  /** A secret that the payee reveals in time is passed on: the payer is told, or it goes on-chain. */
  lemma RevealReachesPayer(cfg: Config, t: Trace, secret: Secret)
    requires HeedsReveal(cfg, t, secret)
    ensures PairStep(cfg, t, OffChainReveal(secret, t.m.payeeAddress)).m.payerState != PayerPending
    ensures PairStep(cfg, t, OffChainReveal(secret, t.m.payeeAddress)).m.secret == Some(secret)
  {
    OffChainShape(cfg, t, secret, t.m.payeeAddress);
  }

  /**
   A block takes the payee's lock back exactly when it is still unclaimed, its secret is
   not on-chain and the sender's threshold is reached; the payee then counts as expired.
   */
  lemma BlockDropsPayeeLockIff(cfg: Config, t: Trace, height: uint32)
    requires LocksInPlace(t.m) && t.m.payee.Some? && t.m.secretHash in Pending(t.m.payee.value.our)
    ensures var m := PairStep(cfg, t, BlockEvent(height)).m;
            && m.payee.Some?
            && (t.m.secretHash !in Pending(m.payee.value.our) <==>
                  t.m.secretHash !in t.m.payee.value.our.onChain && height >= SenderThreshold(cfg, t.m.payeeLock))
            && (t.m.secretHash !in Pending(m.payee.value.our) ==> m.payeeState == PayeeExpired)
  {
    var e := t.m.payee.value.our;
    BlockShape(cfg, t, height);
    GetLockPending(e, t.m.secretHash);
    ExpireRemoves(cfg, t.m.payee.value, t.m.secretHash, height);
    if t.m.secretHash !in e.onChain {
      ExpireLockRemoves(t.m.payee.value, t.m.payeeLock);
    }
  }

  // ----- runs -----

  /** The pair as `forwardTransferPair` creates it on two valid channels. */
  ghost predicate Starts(t: Trace, payer: Channel, payee: Channel, fees: FeeSchedule) {
    && EndsValid(payer) && EndsValid(payee)
    && t.m.secretHash != 0 && t.m.secretHash !in Pending(payee.our)
    && t.m.secretHash in payer.partner.locked && payer.partner.locked[t.m.secretHash] == t.m.payerLock
    && Forward(payer, payee, t.m.payerLock, fees, t.height) == Some(t.m)
    && t.unlocks == 0 && t.registrations == 0 && !t.claimed && !t.dropped
  }

  lemma StartInv(cfg: Config, t: Trace, payer: Channel, payee: Channel, fees: FeeSchedule)
    requires Starts(t, payer, payee, fees)
    ensures PairInv(cfg, t)
  {
    var lock := t.m.payerLock;
    var amount := AmountWithoutFees(lock.amount, fees);
    FeeWithinLimit(lock.amount, fees);
    SentLockPends(payee, amount, lock.expiration, lock.secretHash);
    LockedPayer(payer.partner, lock);
  }

  lemma SentLockPends(c: Channel, amount: uint64, expiration: uint32, h: Hash)
    requires EndsValid(c) && h != 0 && h !in Pending(c.our)
    ensures var s := SendLocked(c, amount, expiration, h);
            s.Sent? ==> EndsValid(s.channel) && Pending(s.channel.our) == Pending(c.our)[h := Lock(amount, expiration, h)]
  {
    SendLockedFits(c, amount, expiration, h);
    SentKeepsEnd(c, SendLocked(c, amount, expiration, h));
    if SendLocked(c, amount, expiration, h).Sent? {
      assert ViewOf(SendLocked(c, amount, expiration, h).channel.our).pending
             == Pending(c.our)[h := Lock(amount, expiration, h)];
    }
  }

  lemma LockedPayer(e: End, lock: Lock)
    requires lock.secretHash in e.locked && e.locked[lock.secretHash] == lock
    ensures HoldsOnly(e, lock) && lock.secretHash in Pending(e)
  {
  }

  /**
   Timing the safety of a payment rests on: heights fit a word, the reveal timeout
   covers the delay an expiry message is granted, and an on-chain reveal is not seen
   more than revealTimeout + confirmBlockCount - maxBlockDelay blocks late.
   */
  ghost predicate Timely(cfg: Config, t: Trace, ev: PairEvent) {
    && t.m.payerLock.expiration + 2 * cfg.confirmBlockCount <= MAX32
    && t.m.payerLock.expiration + cfg.confirmBlockCount >= cfg.maxBlockDelay
    && (t.m.payer.Some? ==>
          && t.m.payer.value.revealTimeout >= cfg.maxBlockDelay
          && (ev.OnChainReveal? ==>
                t.height <= ev.eventHeight + t.m.payer.value.revealTimeout + cfg.confirmBlockCount - cfg.maxBlockDelay))
  }

  /** The height the handler works with. */
  function HandledAt(t: Trace, ev: PairEvent): uint32 {
    if ev.OnChainReveal? then ev.eventHeight else t.height
  }

  /**
   A payment to the payee is backed: the payer's lock had more than revealTimeout
   blocks left, is paid or has its secret registered, and is worth no less than what
   moved to the payee.
   */
  ghost predicate BackedPayment(t: Trace, ev: PairEvent, t': Trace) {
    && t'.unlocks == t.unlocks + 1
    && t.m.payer.Some? && t'.m.payer.Some? && t.m.payee.Some? && t'.m.payee.Some?
    && t.m.payerLock.expiration >= HandledAt(t, ev)
    && t.m.payerLock.expiration > HandledAt(t, ev) + t.m.payer.value.revealTimeout
    && (t'.claimed || SecretKnown(t'.m.payer.value.partner, t.m.secretHash))
    && Transferred(t'.m.payee.value.our) == Transferred(t.m.payee.value.our) + t.m.payeeLock.amount
    && t.m.payeeLock.amount <= t.m.payerLock.amount
  }

  lemma PaymentBacked(cfg: Config, t: Trace, secret: Secret, height: uint32)
    requires PairInv(cfg, t) && !t.dropped && SecretDigest(secret) == t.m.secretHash
    requires PayPayee(t.m, secret, height).unlocks > 0
    ensures var e := PayPayee(t.m, secret, height);
            && e.unlocks == 1 && e.m.payer == t.m.payer && t.m.payer.Some? && t.m.payee.Some? && e.m.payee.Some?
            && IsSafeToWait(t.m.payerLock.expiration, t.m.payer.value.revealTimeout, height)
            && (t.claimed || SecretKnown(t.m.payer.value.partner, t.m.secretHash))
            && Transferred(e.m.payee.value.our) == Transferred(t.m.payee.value.our) + t.m.payeeLock.amount
            && t.m.payeeLock.amount <= t.m.payerLock.amount
  {
    PayPayeeEffect(t.m, secret, height);
  }

  /** A safe height, seen in time, is too early for the payer's lock to have been dropped. */
  lemma SafeNotDropped(cfg: Config, t: Trace, ev: PairEvent)
    requires PairInv(cfg, t) && Timely(cfg, t, ev) && t.m.payer.Some?
    requires IsSafeToWait(t.m.payerLock.expiration, t.m.payer.value.revealTimeout, HandledAt(t, ev))
    ensures !t.dropped
  {
  }

  ghost predicate SameMoney(m: Mediation, k: Mediation) {
    && k.payerLock == m.payerLock && k.payeeLock == m.payeeLock && k.secretHash == m.secretHash
    && (k.payer.Some? <==> m.payer.Some?)
    && (k.payer.Some? ==> k.payer.value.revealTimeout == m.payer.value.revealTimeout)
    && (k.payee.Some? <==> m.payee.Some?)
    && (k.payee.Some? ==> Transferred(k.payee.value.our) == Transferred(m.payee.value.our))
  }

  lemma LearningMovesNoMoney(t: Trace, secret: Secret, sender: Address)
    ensures SameMoney(t.m, Learned(t, secret, sender).m)
  {
  }

  lemma OnChainMovesNoMoney(m: Mediation, secret: Secret, eventHeight: uint32)
    ensures SameMoney(m, KnownOnChain(m, secret, eventHeight))
  {
  }

  /** A payment made in a prepared state `t1` is one backed in `t`. */
  lemma PreparedPaymentBacked(cfg: Config, t: Trace, t1: Trace, ev: PairEvent, secret: Secret)
    requires PairInv(cfg, t1) && !t1.dropped && SecretDigest(secret) == t1.m.secretHash
    requires SameMoney(t.m, t1.m) && t1.unlocks == t.unlocks
    requires PayPayee(t1.m, secret, HandledAt(t, ev)).unlocks > 0
    ensures BackedPayment(t, ev, Following(t1, PayPayee(t1.m, secret, HandledAt(t, ev))))
  {
    PaymentBacked(cfg, t1, secret, HandledAt(t, ev));
  }

  lemma OffChainPaysBacked(cfg: Config, t: Trace, secret: Secret, sender: Address)
    requires PairInv(cfg, t) && Timely(cfg, t, OffChainReveal(secret, sender))
    ensures var t' := PairStep(cfg, t, OffChainReveal(secret, sender));
            t'.unlocks > t.unlocks ==> BackedPayment(t, OffChainReveal(secret, sender), t') && !t.dropped
  {
    var ev := OffChainReveal(secret, sender);
    OffChainShape(cfg, t, secret, sender);
    if HeedsReveal(cfg, t, secret) && PayPayee(Learned(t, secret, sender).m, secret, t.height).unlocks > 0 {
      LearnedKeepsInv(cfg, t, secret, sender);
      LearningMovesNoMoney(t, secret, sender);
      SafeNotDropped(cfg, t, ev);
      PreparedPaymentBacked(cfg, t, Learned(t, secret, sender), ev, secret);
    }
  }

  lemma OnChainPaysBacked(cfg: Config, t: Trace, secret: Secret, eventHeight: uint32)
    requires PairInv(cfg, t) && !t.dropped
    ensures var t' := PairStep(cfg, t, OnChainReveal(secret, eventHeight));
            t'.unlocks > t.unlocks ==> BackedPayment(t, OnChainReveal(secret, eventHeight), t')
  {
    OnChainShape(cfg, t, secret, eventHeight);
    if ValidReveal(t.m, secret) && PayPayee(KnownOnChain(t.m, secret, eventHeight), secret, eventHeight).unlocks > 0 {
      KnownOnChainKeepsInv(cfg, t, secret, eventHeight);
      OnChainMovesNoMoney(t.m, secret, eventHeight);
      PreparedPaymentBacked(cfg, t, t.(m := KnownOnChain(t.m, secret, eventHeight)),
                            OnChainReveal(secret, eventHeight), secret);
    }
  }

  /** Every step that pays the payee pays it backed by the payer. */
  lemma StepPaysBacked(cfg: Config, t: Trace, ev: PairEvent)
    requires PairInv(cfg, t) && MayHappen(cfg, t, ev) && Timely(cfg, t, ev)
    ensures PairStep(cfg, t, ev).unlocks > t.unlocks ==> BackedPayment(t, ev, PairStep(cfg, t, ev)) && !t.dropped
  {
    if ev.OffChainReveal? {
      OffChainPaysBacked(cfg, t, ev.secret, ev.sender);
    } else if ev.OnChainReveal? && PairStep(cfg, t, ev).unlocks > t.unlocks {
      OnChainIsSafe(t, ev.secret, ev.eventHeight);
      SafeNotDropped(cfg, t, ev);
      OnChainPaysBacked(cfg, t, ev.secret, ev.eventHeight);
    }
  }

  lemma OnChainIsSafe(t: Trace, secret: Secret, eventHeight: uint32)
    requires HandleOnChainReveal(t.m, secret, eventHeight).unlocks > 0
    ensures t.m.payer.Some?
    ensures IsSafeToWait(t.m.payerLock.expiration, t.m.payer.value.revealTimeout, eventHeight)
  {
  }

  ghost predicate IsPairRun(cfg: Config, run: seq<Trace>, events: seq<PairEvent>) {
    && |run| == |events| + 1
    && PairInv(cfg, run[0])
    && forall i :: 0 <= i < |events| ==> MayHappen(cfg, run[i], events[i]) && run[i + 1] == PairStep(cfg, run[i], events[i])
  }

  lemma {:induction false} PairRunKeepsInv(cfg: Config, run: seq<Trace>, events: seq<PairEvent>, n: nat)
    requires IsPairRun(cfg, run, events) && n < |run|
    ensures PairInv(cfg, run[n])
  {
    if n > 0 {
      PairRunKeepsInv(cfg, run, events, n - 1);
      PairStepKeepsInv(cfg, run[n - 1], events[n - 1]);
    }
  }

  /**
   Mediator safety: in every run of a forward pair the payee is unlocked at most once,
   and each unlock made under timely events is backed by the payer.
   */
  lemma MediatorPaysSafely(cfg: Config, run: seq<Trace>, events: seq<PairEvent>, n: nat,
                           payer: Channel, payee: Channel, fees: FeeSchedule)
    requires |run| == |events| + 1 && n < |events| && Starts(run[0], payer, payee, fees)
    requires forall i :: 0 <= i < |events| ==>
               MayHappen(cfg, run[i], events[i]) && run[i + 1] == PairStep(cfg, run[i], events[i])
    ensures run[n + 1].unlocks <= 1
    ensures Timely(cfg, run[n], events[n]) && run[n + 1].unlocks > run[n].unlocks ==>
            BackedPayment(run[n], events[n], run[n + 1])
  {
    StartInv(cfg, run[0], payer, payee, fees);
    PairRunKeepsInv(cfg, run, events, n);
    PairStepKeepsInv(cfg, run[n], events[n]);
    if Timely(cfg, run[n], events[n]) {
      StepPaysBacked(cfg, run[n], events[n]);
    }
  }
}
