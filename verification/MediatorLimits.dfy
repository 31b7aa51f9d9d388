/**
 Where the assumptions of the mediator's run theorems are needed: runs from the start
 of a forward pair that break their conclusions.
 */
module MediatorLimits {
  import opened Prelude
  import opened Merkle
  import opened Channel
  import opened Ledger
  import opened Agreement
  import opened Lifecycle
  import opened Node
  import opened Limits
  import opened Mediator
  import opened MediatorRuns
  import opened MediatorReveal

  // ----- runs of three and four steps -----

  ghost predicate Happens(cfg: Config, t: Trace, ev: PairEvent, t': Trace) {
    MayHappen(cfg, t, ev) && t' == PairStep(cfg, t, ev)
  }

  lemma ThreeSteps(cfg: Config, t: Trace, a: PairEvent, t1: Trace, b: PairEvent, t2: Trace, c: PairEvent, t3: Trace)
    requires PairInv(cfg, t) && Happens(cfg, t, a, t1) && Happens(cfg, t1, b, t2) && Happens(cfg, t2, c, t3)
    ensures IsPairRun(cfg, [t, t1, t2, t3], [a, b, c])
  {
  }

  lemma FourSteps(cfg: Config, t: Trace, a: PairEvent, t1: Trace, b: PairEvent, t2: Trace, c: PairEvent, t3: Trace,
                  d: PairEvent, t4: Trace)
    requires PairInv(cfg, t) && Happens(cfg, t, a, t1) && Happens(cfg, t1, b, t2) && Happens(cfg, t2, c, t3)
    requires Happens(cfg, t3, d, t4)
    ensures IsPairRun(cfg, [t, t1, t2, t3, t4], [a, b, c, d])
  {
  }

  // ----- the start of a pair -----

  /** A pair as forwarding leaves it: the payer's lock in place and nothing revealed yet. */
  ghost predicate Begun(cfg: Config, t: Trace, payer: Channel) {
    && PairInv(cfg, t) && t.unlocks == 0 && t.registrations == 0 && !t.claimed && !t.dropped
    && t.m.payer == Some(payer) && t.m.secret == None
    && t.m.payerState == PayerPending && t.m.payeeState == PayeePending
    && t.m.payee.Some? && GetStatus(t.m.payee.value) == Opened
    && t.m.secretHash in Pending(t.m.payee.value.our)
    && t.m.payeeLock.expiration == t.m.payerLock.expiration
    && t.m.secretHash in payer.partner.locked && payer.partner.locked[t.m.secretHash] == t.m.payerLock
    && t.m.secretHash in Pending(payer.partner) && !SecretKnown(payer.partner, t.m.secretHash)
  }

  lemma StartShape(cfg: Config, t: Trace, payer: Channel, payee: Channel, fees: FeeSchedule)
    requires Starts(t, payer, payee, fees)
    ensures Begun(cfg, t, payer)
  {
    StartInv(cfg, t, payer, payee, fees);
    ForwardShape(payer, payee, t.m.payerLock, fees, t.height);
    LockedOnly(payer.partner, t.m.secretHash);
  }

  lemma ForwardShape(payer: Channel, payee: Channel, lock: Lock, fees: FeeSchedule, height: uint32)
    requires Forward(payer, payee, lock, fees, height).Some?
    ensures var m := Forward(payer, payee, lock, fees, height).value;
            && m.payer == Some(payer) && m.secret == None && m.payerState == PayerPending && m.payeeState == PayeePending
            && m.payee.Some? && GetStatus(m.payee.value) == Opened && lock.secretHash in Pending(m.payee.value.our)
            && m.payeeLock.expiration == lock.expiration && m.secretHash == lock.secretHash
  {
    assert lock.secretHash in Forward(payer, payee, lock, fees, height).value.payee.value.our.locked;
  }

  lemma LockedOnly(e: End, h: Hash)
    requires EndValid(e) && h in e.locked
    ensures h in Pending(e) && Pending(e)[h] == e.locked[h] && !SecretKnown(e, h)
  {
  }

  // ----- a late on-chain reveal -----

  /** The payer's lock can be dropped before the payee's, as the receiver's threshold comes first. */
  ghost predicate DropWindow(cfg: Config, t: Trace) {
    var lock := t.m.payerLock;
    && lock.expiration + 2 * cfg.confirmBlockCount <= MAX32
    && lock.expiration + cfg.confirmBlockCount >= cfg.maxBlockDelay
    && cfg.confirmBlockCount + cfg.maxBlockDelay > 0
    && t.height <= ReceiverThreshold(cfg, lock)
  }

  /** The timing of the failing run; only the height of the last event is not timely. */
  ghost predicate LateWindow(cfg: Config, t: Trace, payer: Channel, eventHeight: uint32) {
    var lock := t.m.payerLock;
    && DropWindow(cfg, t)
    && !IsSafeToWait(lock.expiration, payer.revealTimeout, ReceiverThreshold(cfg, lock))
    && IsSafeToWait(lock.expiration, payer.revealTimeout, eventHeight)
    && eventHeight <= ReceiverThreshold(cfg, lock)
  }

  /** A block between the two thresholds, with the secret unknown, only advances the height. */
  lemma QuietBlock(cfg: Config, t: Trace, height: uint32)
    requires LocksInPlace(t.m) && t.m.payer.Some? && t.m.payee.Some?
    requires !SecretKnown(t.m.payer.value.partner, t.m.secretHash)
    requires height < SenderThreshold(cfg, t.m.payerLock) == SenderThreshold(cfg, t.m.payeeLock)
    ensures PairStep(cfg, t, BlockEvent(height)) == t.(height := height)
  {
    var m := t.m;
    if m.secretHash in m.payee.value.our.locked || m.secretHash in m.payee.value.our.unlocked {
      UnclaimedPending(m.payee.value.our, m.secretHash);
    }
    assert RemoveExpired(cfg, m, height) == m;
  }

  /** The lock-expired message the payer itself sends for its lock. */
  ghost function PayersExpiry(payer: Channel, lock: Lock): Sent {
    ExpireLock(payer.(our := payer.partner, partner := payer.our), lock)
  }

  lemma PayersExpiryAccepted(cfg: Config, payer: Channel, lock: Lock, height: uint32)
    requires EndsValid(payer) && GetStatus(payer) == Opened
    requires lock.secretHash in payer.partner.locked && payer.partner.locked[lock.secretHash] == lock
    requires lock.secretHash !in payer.our.onChain && height >= ReceiverThreshold(cfg, lock)
    ensures PayersExpiry(payer, lock).Sent?
    ensures var msg := PayersExpiry(payer, lock).message;
            msg.LockExpired? && msg.secretHash == lock.secretHash && Accepts(cfg, payer, msg, height)
  {
    LockedPayer(payer.partner, lock);
    assert lock.secretHash !in payer.partner.onChain;
    ExpireLockFits(payer.(our := payer.partner, partner := payer.our), lock);
    FittingExpiredAccepted(cfg, payer, PayersExpiry(payer, lock).message, height);
  }

  /** An accepted lock-expired message drops the payer's lock and leaves its state. */
  lemma PayerDrops(cfg: Config, t: Trace, msg: Message)
    requires t.m.payer.Some? && EndsValid(t.m.payer.value) && MayHappen(cfg, t, PayerLockExpired(msg))
    requires PayerAccepts(cfg, t, msg)
    ensures var d := Receive(cfg, t.m.payer.value, msg, t.height);
            && PairStep(cfg, t, PayerLockExpired(msg)) == t.(m := t.m.(payer := Some(d)), dropped := true)
            && d.our == t.m.payer.value.our && d.revealTimeout == t.m.payer.value.revealTimeout
            && GetStatus(d) == GetStatus(t.m.payer.value)
  {
    LockGone(cfg, t.m.payer.value, msg, t.height);
    LeavesState(cfg, t.m, msg, t.height);
  }

  lemma LockGone(cfg: Config, c: Channel, msg: Message, height: uint32)
    requires EndsValid(c) && msg.LockExpired? && Accepts(cfg, c, msg, height)
    ensures var d := Receive(cfg, c, msg, height);
            && GetLock(d.partner, msg.secretHash).None? && GetStatus(d) == GetStatus(c)
            && d.our == c.our && d.revealTimeout == c.revealTimeout
  {
    ReceiveRemoves(cfg, c, msg, msg.secretHash, height);
    GetLockPending(Receive(cfg, c, msg, height).partner, msg.secretHash);
    ReceiveKeepsStatus(cfg, c, msg, height);
  }

  lemma ReceiveKeepsStatus(cfg: Config, c: Channel, msg: Message, height: uint32)
    ensures GetStatus(Receive(cfg, c, msg, height)) == GetStatus(c)
  {
  }

  lemma LeavesState(cfg: Config, m: Mediation, msg: Message, height: uint32)
    requires m.payer.Some? && GetLock(Receive(cfg, m.payer.value, msg, height).partner, m.secretHash).None?
    ensures HandlePayerExpired(cfg, m, msg, height) == m.(payer := Some(Receive(cfg, m.payer.value, msg, height)))
  {
  }

  lemma OpenLearns(m: Mediation, secret: Secret, sender: Address)
    requires m.payer.Some? && GetStatus(m.payer.value) == Opened
    ensures SecretLearnedRuns(LearnSecret(m, secret, sender))
  {
  }

  ghost function LateEvents(cfg: Config, t: Trace, payer: Channel, secret: Secret, eventHeight: uint32): seq<PairEvent>
    requires PayersExpiry(payer, t.m.payerLock).Sent?
  {
    [BlockEvent(ReceiverThreshold(cfg, t.m.payerLock)), PayerLockExpired(PayersExpiry(payer, t.m.payerLock).message),
     OffChainReveal(secret, t.m.payeeAddress), OnChainReveal(secret, eventHeight)]
  }

  /** The payer's own expiry drops its lock once a block reaches the receiver's threshold. */
  lemma DropPhase(cfg: Config, t: Trace, payer: Channel) returns (t1: Trace, t2: Trace)
    requires Begun(cfg, t, payer) && DropWindow(cfg, t)
    requires GetStatus(payer) == Opened && t.m.secretHash !in payer.our.onChain
    ensures PayersExpiry(payer, t.m.payerLock).Sent?
    ensures Happens(cfg, t, BlockEvent(ReceiverThreshold(cfg, t.m.payerLock)), t1)
    ensures Happens(cfg, t1, PayerLockExpired(PayersExpiry(payer, t.m.payerLock).message), t2)
    ensures Dropped(cfg, t, payer, t2)
  {
    var height := ReceiverThreshold(cfg, t.m.payerLock);
    QuietBlock(cfg, t, height);
    t1 := t.(height := height);
    PayersExpiryAccepted(cfg, payer, t.m.payerLock, height);
    PairStepKeepsInv(cfg, t, BlockEvent(height));
    var msg := PayersExpiry(payer, t.m.payerLock).message;
    PairStepKeepsInv(cfg, t1, PayerLockExpired(msg));
    PayerDrops(cfg, t1, msg);
    t2 := PairStep(cfg, t1, PayerLockExpired(msg));
  }

  /** The pair with the payer's lock dropped and everything else as it started. */
  ghost predicate Dropped(cfg: Config, t: Trace, payer: Channel, t2: Trace) {
    && PairInv(cfg, t2) && t2.dropped && !t2.claimed && t2.unlocks == 0
    && t2.height == ReceiverThreshold(cfg, t.m.payerLock) && t2.m == t.m.(payer := t2.m.payer)
    && t2.m.payer.Some? && GetStatus(t2.m.payer.value) == Opened && t2.m.payer.value.our == payer.our
    && t2.m.payer.value.revealTimeout == payer.revealTimeout
    && t2.m.secret == None
    && t2.m.payee.Some? && GetStatus(t2.m.payee.value) == Opened
    && t2.m.secretHash in Pending(t2.m.payee.value.our)
  }

  lemma LatePhase(cfg: Config, t: Trace, payer: Channel, t2: Trace, secret: Secret, eventHeight: uint32)
    returns (t3: Trace, t4: Trace)
    requires Dropped(cfg, t, payer, t2) && LateWindow(cfg, t, payer, eventHeight) && ValidReveal(t2.m, secret)
    ensures Happens(cfg, t2, OffChainReveal(secret, t2.m.payeeAddress), t3)
    ensures Happens(cfg, t3, OnChainReveal(secret, eventHeight), t4)
    ensures t3.unlocks == 0 && t4.unlocks == 1 && t4.dropped && !t4.claimed
    ensures !BackedPayment(t3, OnChainReveal(secret, eventHeight), t4)
  {
    OpenLearns(t2.m, secret, t2.m.payeeAddress);
    LateRevealPaysUnbacked(cfg, t2, secret, eventHeight);
    t3 := PairStep(cfg, t2, OffChainReveal(secret, t2.m.payeeAddress));
    t4 := PairStep(cfg, t3, OnChainReveal(secret, eventHeight));
  }

  /**
   From every start of a pair: a block brings the payer's expiry, the payer's own
   lock-expired message drops its lock, the payee reveals off-chain, and an on-chain
   reveal emitted before the reveal window arrives.  The payee is paid unbacked.
   */
  lemma LateRevealRun(cfg: Config, t: Trace, payer: Channel, payee: Channel, fees: FeeSchedule,
                      secret: Secret, eventHeight: uint32) returns (run: seq<Trace>)
    requires Starts(t, payer, payee, fees) && LateWindow(cfg, t, payer, eventHeight)
    requires GetStatus(payer) == Opened && t.m.secretHash !in payer.our.onChain && ValidReveal(t.m, secret)
    ensures PayersExpiry(payer, t.m.payerLock).Sent? && |run| == 5 && run[0] == t
    ensures IsPairRun(cfg, run, LateEvents(cfg, t, payer, secret, eventHeight))
    ensures run[3].unlocks == 0 && run[4].unlocks == 1 && run[4].dropped && !run[4].claimed
    ensures !BackedPayment(run[3], OnChainReveal(secret, eventHeight), run[4])
  {
    StartShape(cfg, t, payer, payee, fees);
    var t1, t2 := DropPhase(cfg, t, payer);
    var t3, t4 := LatePhase(cfg, t, payer, t2, secret, eventHeight);
    var e := LateEvents(cfg, t, payer, secret, eventHeight);
    FourSteps(cfg, t, e[0], t1, e[1], t2, e[2], t3, e[3], t4);
    assert e == [e[0], e[1], e[2], e[3]];
    run := [t, t1, t2, t3, t4];
  }

  // ----- a reveal after the lock is gone -----

  /** A close on the chain leaves every lock of the channel alone. */
  lemma ClosingTraffic(c: Channel, from: Address, height: uint32, h: Hash)
    requires EndsValid(c) && GetStatus(c) == Opened
    ensures var d := ChannelClosed(c, c.key.channelId, from, height).channel;
            OtherTraffic(Some(c), Some(d), h) && GetStatus(d) == Closed && d.our == c.our && d.partner == c.partner
  {
    var d := ChannelClosed(c, c.key.channelId, from, height).channel;
    ClosedShape(c, from, height);
    SameEndsTraffic(c, d, h);
  }

  lemma ClosedShape(c: Channel, from: Address, height: uint32)
    requires GetStatus(c) == Opened
    ensures var d := ChannelClosed(c, c.key.channelId, from, height).channel;
            GetStatus(d) == Closed && d.our == c.our && d.partner == c.partner && d.revealTimeout == c.revealTimeout
  {
  }

  lemma SameEndsTraffic(c: Channel, d: Channel, h: Hash)
    requires EndsValid(c) && d.our == c.our && d.partner == c.partner && d.revealTimeout == c.revealTimeout
    ensures OtherTraffic(Some(c), Some(d), h)
  {
  }

  lemma ClosePhase(cfg: Config, t: Trace, payer: Channel, t2: Trace, secret: Secret, from: Address, height: uint32)
    returns (t3: Trace)
    requires Dropped(cfg, t, payer, t2) && DropWindow(cfg, t) && ValidReveal(t2.m, secret)
    requires t.m.secret == None && t.m.payerState == PayerPending
    ensures t3.m.payer == Some(ChannelClosed(t2.m.payer.value, t2.m.payer.value.key.channelId, from, height).channel)
    ensures Happens(cfg, t2, Traffic(t3.m.payer, t3.m.payee), t3)
    ensures HeedsReveal(cfg, t3, secret) && !MayHappen(cfg, t3, OffChainReveal(secret, t3.m.payeeAddress))
  {
    var c := t2.m.payer.value;
    ClosingTraffic(c, from, height, t.m.secretHash);
    t3 := t2.(m := t2.m.(payer := Some(ChannelClosed(c, c.key.channelId, from, height).channel)));
    PairStepKeepsInv(cfg, t2, Traffic(t3.m.payer, t3.m.payee));
    RevealStopsIff(cfg, t3, secret, t3.m.payeeAddress);
  }

  /**
   From every start of a pair: the payer's own lock-expired message drops its lock, the
   payer's channel is closed on the chain, and the payee reveals before its own lock is
   expired for it.  The handler of that reveal looks up a lock that is gone.
   */
  lemma RevealStopsRun(cfg: Config, t: Trace, payer: Channel, payee: Channel, fees: FeeSchedule, secret: Secret,
                       from: Address, height: uint32) returns (run: seq<Trace>)
    requires Starts(t, payer, payee, fees) && DropWindow(cfg, t)
    requires GetStatus(payer) == Opened && t.m.secretHash !in payer.our.onChain && ValidReveal(t.m, secret)
    ensures PayersExpiry(payer, t.m.payerLock).Sent? && |run| == 4 && run[0] == t
    ensures IsPairRun(cfg, run, [BlockEvent(ReceiverThreshold(cfg, t.m.payerLock)),
                                 PayerLockExpired(PayersExpiry(payer, t.m.payerLock).message),
                                 Traffic(run[3].m.payer, run[3].m.payee)])
    ensures HeedsReveal(cfg, run[3], secret) && !MayHappen(cfg, run[3], OffChainReveal(secret, run[3].m.payeeAddress))
  {
    StartShape(cfg, t, payer, payee, fees);
    var t1, t2 := DropPhase(cfg, t, payer);
    var t3 := ClosePhase(cfg, t, payer, t2, secret, from, height);
    ThreeSteps(cfg, t, BlockEvent(ReceiverThreshold(cfg, t.m.payerLock)), t1,
               PayerLockExpired(PayersExpiry(payer, t.m.payerLock).message), t2, Traffic(t3.m.payer, t3.m.payee), t3);
    run := [t, t1, t2, t3];
  }

  // ----- a paid pair -----

  /** The payee is paid, the payer told of the secret and its open channel knows it. */
  ghost predicate JustPaid(cfg: Config, t: Trace) {
    && PairInv(cfg, t) && t.unlocks == 1 && t.registrations == 0 && !t.claimed && !t.dropped
    && t.m.payerState == PayerSecretRevealed
    && t.m.payer.Some? && GetStatus(t.m.payer.value) == Opened
    && SecretKnown(t.m.payer.value.partner, t.m.secretHash)
  }

  /** With the reveal window still ahead, the payee's secret pays it at once. */
  lemma PaidAtOnce(cfg: Config, t: Trace, payer: Channel, secret: Secret) returns (t1: Trace)
    requires Begun(cfg, t, payer) && GetStatus(payer) == Opened && ValidReveal(t.m, secret)
    requires t.m.payerLock.expiration + 2 * cfg.confirmBlockCount <= MAX32
    requires IsSafeToWait(t.m.payerLock.expiration, payer.revealTimeout, t.height) && payer.revealTimeout >= 0
    ensures Happens(cfg, t, OffChainReveal(secret, t.m.payeeAddress), t1)
    ensures JustPaid(cfg, t1) && t1.height == t.height && t1.m.secretHash == t.m.secretHash
    ensures t1.m.payerLock == t.m.payerLock && t1.m.payer.value.revealTimeout == payer.revealTimeout
  {
    OpenReveals(cfg, t, secret);
    LearnedReady(cfg, t, secret);
    var learned := Learned(t, secret, t.m.payeeAddress);
    t1 := PaysAtOnce(cfg, learned, secret);
  }

  lemma OpenReveals(cfg: Config, t: Trace, secret: Secret)
    requires HeedsReveal(cfg, t, secret) && GetStatus(t.m.payer.value) == Opened
    ensures var learned := Learned(t, secret, t.m.payeeAddress);
            Happens(cfg, t, OffChainReveal(secret, t.m.payeeAddress),
                    Following(learned, PayPayee(learned.m, secret, t.height)))
  {
    OpenLearns(t.m, secret, t.m.payeeAddress);
    OffChainShape(cfg, t, secret, t.m.payeeAddress);
  }

  lemma LearnedReady(cfg: Config, t: Trace, secret: Secret)
    requires PairInv(cfg, t) && t.m.secret == None && t.m.payerState == PayerPending && ValidReveal(t.m, secret)
    requires t.m.payer.Some? && GetStatus(t.m.payer.value) == Opened
    requires t.m.secretHash in Pending(t.m.payer.value.partner)
    requires t.m.payee.Some? && GetStatus(t.m.payee.value) == Opened && t.m.secretHash in Pending(t.m.payee.value.our)
    ensures var t1 := Learned(t, secret, t.m.payeeAddress);
            && PairInv(cfg, t1) && t1.unlocks == 0 && t1.registrations == t.registrations
            && t1.m.payerState == PayerSecretRevealed && t1.m.payerLock == t.m.payerLock
            && t1.m.payer.Some? && GetStatus(t1.m.payer.value) == Opened
            && t1.m.payer.value.revealTimeout == t.m.payer.value.revealTimeout
            && SecretKnown(t1.m.payer.value.partner, t.m.secretHash)
            && forall height :: IsSafeToWait(t.m.payerLock.expiration, t.m.payer.value.revealTimeout, height) ==>
                                  ReadyToPay(t1.m, secret, height)
  {
    LearnedKeepsInv(cfg, t, secret, t.m.payeeAddress);
    LearnKeepsLocks(t.m, secret, t.m.payeeAddress);
    LearnedPayee(t, secret);
    LearnedPayer(t, secret);
    LearningMovesNoMoney(t, secret, t.m.payeeAddress);
  }

  lemma LearnedPayer(t: Trace, secret: Secret)
    requires t.m.payer.Some? && GetStatus(t.m.payer.value) == Opened && t.m.payerState == PayerPending
    ensures var t1 := Learned(t, secret, t.m.payeeAddress);
            && t1.m.payer == LearnSecret(t.m, secret, t.m.payeeAddress).payer
            && t1.m.payer.Some? && GetStatus(t1.m.payer.value) == Opened
            && t1.m.payerState == PayerSecretRevealed && t1.registrations == t.registrations
  {
  }

  lemma PaysAtOnce(cfg: Config, t: Trace, secret: Secret) returns (t1: Trace)
    requires PairInv(cfg, t) && t.unlocks == 0 && ReadyToPay(t.m, secret, t.height)
    ensures t1 == Following(t, PayPayee(t.m, secret, t.height))
    ensures PairInv(cfg, t1) && t1.unlocks == 1 && t1.registrations == t.registrations
    ensures t1.claimed == t.claimed && t1.dropped == t.dropped && t1.height == t.height
    ensures t1.m == t.m.(payeeState := t1.m.payeeState, payee := t1.m.payee)
  {
    PayKeepsInv(cfg, t, secret, t.height);
    PaidEffect(t, secret);
    t1 := Following(t, PayPayee(t.m, secret, t.height));
  }

  lemma PaidEffect(t: Trace, secret: Secret)
    requires t.unlocks == 0 && ReadyToPay(t.m, secret, t.height)
    ensures var t1 := Following(t, PayPayee(t.m, secret, t.height));
            && t1.unlocks == 1 && t1.registrations == t.registrations
            && t1.m == t.m.(payeeState := t1.m.payeeState, payee := t1.m.payee)
  {
    ReadyPays(t.m, secret, t.height);
    PayPayeeEffect(t.m, secret, t.height);
  }

  lemma RefusedExpiryPhase(cfg: Config, t1: Trace, msg: Message, height: uint32) returns (t2: Trace, t3: Trace)
    requires JustPaid(cfg, t1) && t1.height <= height
    requires !IsSafeToWait(t1.m.payerLock.expiration, t1.m.payer.value.revealTimeout, height)
    requires msg.LockExpired? && msg.secretHash == t1.m.secretHash && !msg.signed
    ensures Happens(cfg, t1, PayerLockExpired(msg), t2) && Happens(cfg, t2, BlockEvent(height), t3)
    ensures NeedsReveal(t2, height) && t3.registrations == 0
  {
    InvalidExpiryDisarms(cfg, t1, msg, height);
    t2 := PairStep(cfg, t1, PayerLockExpired(msg));
    assert t2.height == t1.height;
    t3 := PairStep(cfg, t2, BlockEvent(height));
  }

  /**
   From every start: the payee is paid, an unsigned lock-expired message is refused, and
   a block in danger emits no reveal although the payer's lock is unclaimed.
   */
  lemma InvalidExpiryRun(cfg: Config, t: Trace, payer: Channel, payee: Channel, fees: FeeSchedule,
                         secret: Secret, msg: Message, height: uint32) returns (run: seq<Trace>)
    requires Starts(t, payer, payee, fees) && GetStatus(payer) == Opened && ValidReveal(t.m, secret)
    requires t.m.payerLock.expiration + 2 * cfg.confirmBlockCount <= MAX32
    requires IsSafeToWait(t.m.payerLock.expiration, payer.revealTimeout, t.height) && payer.revealTimeout >= 0
    requires msg.LockExpired? && msg.secretHash == t.m.secretHash && !msg.signed
    requires t.height <= height && !IsSafeToWait(t.m.payerLock.expiration, payer.revealTimeout, height)
    ensures |run| == 4 && run[0] == t
    ensures IsPairRun(cfg, run, [OffChainReveal(secret, t.m.payeeAddress), PayerLockExpired(msg), BlockEvent(height)])
    ensures NeedsReveal(run[2], height) && run[3].registrations == 0
  {
    StartShape(cfg, t, payer, payee, fees);
    var t1 := PaidAtOnce(cfg, t, payer, secret);
    var t2, t3 := RefusedExpiryPhase(cfg, t1, msg, height);
    ThreeSteps(cfg, t, OffChainReveal(secret, t.m.payeeAddress), t1, PayerLockExpired(msg), t2, BlockEvent(height), t3);
    run := [t, t1, t2, t3];
  }

  /** A cooperative settlement asked for on the payer's channel leaves every lock alone. */
  lemma SettlingTraffic(c: Channel, h: Hash)
    requires EndsValid(c) && GetStatus(c) == Opened
    ensures OtherTraffic(Some(c), Some(SendCoopRequest(c)), h) && !InUse(SendCoopRequest(c))
    ensures SendCoopRequest(c).our == c.our && SendCoopRequest(c).partner == c.partner
  {
    SameEndsTraffic(c, SendCoopRequest(c), h);
  }

  lemma SettlingPhase(cfg: Config, t1: Trace, height: uint32, later: uint32) returns (t2: Trace, t3: Trace, t4: Trace)
    requires JustPaid(cfg, t1) && t1.height <= height <= later
    requires !IsSafeToWait(t1.m.payerLock.expiration, t1.m.payer.value.revealTimeout, height)
    ensures t2.m.payer.Some? && InDanger(t2.m, height) && t2.unlocks == 1 && !t2.claimed
    ensures Happens(cfg, t1, Traffic(t2.m.payer, t2.m.payee), t2)
    ensures Happens(cfg, t2, BlockEvent(height), t3) && Happens(cfg, t3, BlockEvent(later), t4)
    ensures t4.registrations == 0
  {
    var c := t1.m.payer.value;
    SettlingTraffic(c, t1.m.secretHash);
    t2 := t1.(m := t1.m.(payer := Some(SendCoopRequest(c))));
    PairStepKeepsInv(cfg, t1, Traffic(t2.m.payer, t2.m.payee));
    SettlingSilencesReveal(cfg, t2, height, later);
    BlockShape(cfg, t2, height);
    t3 := PairStep(cfg, t2, BlockEvent(height));
    t4 := PairStep(cfg, t3, BlockEvent(later));
  }

  /**
   From every start: the payee is paid, the payer's channel begins a cooperative
   settlement, and no block of the reveal window emits the reveal.
   */
  lemma SettlingRun(cfg: Config, t: Trace, payer: Channel, payee: Channel, fees: FeeSchedule,
                    secret: Secret, height: uint32, later: uint32) returns (run: seq<Trace>)
    requires Starts(t, payer, payee, fees) && GetStatus(payer) == Opened && ValidReveal(t.m, secret)
    requires t.m.payerLock.expiration + 2 * cfg.confirmBlockCount <= MAX32
    requires IsSafeToWait(t.m.payerLock.expiration, payer.revealTimeout, t.height) && payer.revealTimeout >= 0
    requires t.height <= height <= later && !IsSafeToWait(t.m.payerLock.expiration, payer.revealTimeout, height)
    ensures |run| == 5 && run[0] == t && run[2].m.payer.Some? && InDanger(run[2].m, height)
    ensures IsPairRun(cfg, run, [OffChainReveal(secret, t.m.payeeAddress), Traffic(run[2].m.payer, run[2].m.payee),
                                 BlockEvent(height), BlockEvent(later)])
    ensures run[2].unlocks == 1 && !run[2].claimed && run[4].registrations == 0
  {
    StartShape(cfg, t, payer, payee, fees);
    var t1 := PaidAtOnce(cfg, t, payer, secret);
    run := SettlingFrom(cfg, t, OffChainReveal(secret, t.m.payeeAddress), t1, height, later);
  }

  lemma SettlingFrom(cfg: Config, t: Trace, ev: PairEvent, t1: Trace, height: uint32, later: uint32)
    returns (run: seq<Trace>)
    requires PairInv(cfg, t) && Happens(cfg, t, ev, t1) && JustPaid(cfg, t1) && t1.height <= height <= later
    requires !IsSafeToWait(t1.m.payerLock.expiration, t1.m.payer.value.revealTimeout, height)
    ensures |run| == 5 && run[0] == t && run[2].m.payer.Some? && InDanger(run[2].m, height)
    ensures IsPairRun(cfg, run, [ev, Traffic(run[2].m.payer, run[2].m.payee), BlockEvent(height), BlockEvent(later)])
    ensures run[2].unlocks == 1 && !run[2].claimed && run[4].registrations == 0
  {
    var t2, t3, t4 := SettlingPhase(cfg, t1, height, later);
    FourSteps(cfg, t, ev, t1, Traffic(t2.m.payer, t2.m.payee), t2, BlockEvent(height), t3, BlockEvent(later), t4);
    run := [t, t1, t2, t3, t4];
  }

  // ----- starts exist -----

  function FreshEnd(address: Address, deposit: uint64): End {
    End(address, deposit, 0, map[], map[], map[], EMPTY_TREE, None)
  }

  /** A new channel with the default timeouts, as `our` sees it. */
  function FreshChannel(channelId: nat, our: Address, partner: Address, deposit: uint64, other: uint64): Channel {
    Channel(ChannelKey(channelId, 1, 1), 50, 500, FreshEnd(our, deposit), FreshEnd(partner, other), [], None, None, None)
  }

  /** The payer 1 locks its whole deposit on channel 1. */
  ghost function PayerSends(amount: uint64, expiration: uint32, h: Hash): Sent {
    SendLocked(FreshChannel(1, 1, 2, amount, 0), amount, expiration, h)
  }

  /** Channel 1 after that as the mediator 2 sees it. */
  ghost function LockedChannel(amount: uint64, expiration: uint32, h: Hash): Channel {
    var s := PayerSends(amount, expiration, h);
    if s.Sent? then FreshChannel(1, 2, 1, 0, amount).(partner := s.channel.our) else FreshChannel(1, 2, 1, 0, amount)
  }

  /** Channel 2 between the mediator and the payee 3. */
  function PayeeChannel(amount: uint64): Channel {
    FreshChannel(2, 2, 3, amount, 0)
  }

  /** The pair the mediator forwards over the two channels without a fee. */
  ghost function FreshStart(amount: uint64, expiration: uint32, h: Hash): Trace {
    var s := SendLocked(PayeeChannel(amount), amount, expiration, h);
    Trace(Mediation(h, Lock(amount, expiration, h), Lock(amount, expiration, h), 3, None, PayerPending, PayeePending,
                    Some(LockedChannel(amount, expiration, h)), if s.Sent? then Some(s.channel) else None),
          0, 0, 0, false, false)
  }

  lemma FreshStarts(amount: uint64, expiration: uint32, h: Hash)
    requires h != 0 && 50 < expiration <= 500
    ensures Starts(FreshStart(amount, expiration, h), LockedChannel(amount, expiration, h), PayeeChannel(amount),
                   FeeSchedule(0, 0))
    ensures LockedChannel(amount, expiration, h).partner.address == 1
  {
    PayerLocked(amount, expiration, h);
    FreshForwards(LockedChannel(amount, expiration, h), amount, expiration, h);
  }

  lemma PayerLocked(amount: uint64, expiration: uint32, h: Hash)
    requires h != 0
    ensures var c := LockedChannel(amount, expiration, h);
            && EndsValid(c) && c.partner.address == 1
            && h in c.partner.locked && c.partner.locked[h] == Lock(amount, expiration, h)
  {
    FreshSendsLock(FreshChannel(1, 1, 2, amount, 0), Lock(amount, expiration, h));
    NewEndValid(FreshEnd(2, 0));
  }

  lemma FreshForwards(payer: Channel, amount: uint64, expiration: uint32, h: Hash)
    requires h != 0 && 50 < expiration <= 500
    ensures var s := SendLocked(PayeeChannel(amount), amount, expiration, h);
            && s.Sent? && EndsValid(PayeeChannel(amount)) && h !in Pending(PayeeChannel(amount).our)
            && Forward(payer, PayeeChannel(amount), Lock(amount, expiration, h), FeeSchedule(0, 0), 0)
               == Some(Mediation(h, Lock(amount, expiration, h), Lock(amount, expiration, h), 3, None, PayerPending,
                                 PayeePending, Some(payer), Some(s.channel)))
  {
    FreshSendsLock(PayeeChannel(amount), Lock(amount, expiration, h));
    NoFee(amount);
    ForwardIs(payer, PayeeChannel(amount), Lock(amount, expiration, h), FeeSchedule(0, 0));
  }

  lemma NoFee(amount: uint64)
    ensures AmountWithoutFees(amount, FeeSchedule(0, 0)) == amount
  {
  }

  lemma ForwardIs(payer: Channel, payee: Channel, lock: Lock, fees: FeeSchedule)
    requires IsChannelUsable(payee, lock.amount, lock.expiration) && AmountWithoutFees(lock.amount, fees) == lock.amount
    requires SendLocked(payee, lock.amount, lock.expiration, lock.secretHash).Sent?
    ensures Forward(payer, payee, lock, fees, 0)
            == Some(Mediation(lock.secretHash, lock, lock, payee.partner.address, None, PayerPending, PayeePending,
                              Some(payer), Some(SendLocked(payee, lock.amount, lock.expiration, lock.secretHash).channel)))
  {
  }

  /**
   With the default settings (no confirmation blocks, a block delay of 3, a reveal
   timeout of 50): a lock expiring at 100 is dropped at 97, and an on-chain reveal
   emitted at 49 or before still pays the payee.
   */
  lemma LateRevealHappens(amount: uint64, secret: Secret, eventHeight: uint32) returns (run: seq<Trace>, events: seq<PairEvent>)
    requires SecretDigest(secret) != 0 && secret != EMPTY_SECRET && eventHeight < 50
    ensures IsPairRun(Config(0, 3), run, events) && |events| == 4
    ensures run[0] == FreshStart(amount, 100, SecretDigest(secret))
    ensures Starts(run[0], LockedChannel(amount, 100, SecretDigest(secret)), PayeeChannel(amount), FeeSchedule(0, 0))
    ensures run[4].unlocks == 1 && run[3].unlocks == 0 && !BackedPayment(run[3], events[3], run[4])
  {
    var h := SecretDigest(secret);
    FreshStarts(amount, 100, h);
    OpenPayer(amount, 100, h);
    var t, payer := FreshStart(amount, 100, h), LockedChannel(amount, 100, h);
    run := LateRevealRun(Config(0, 3), t, payer, PayeeChannel(amount), FeeSchedule(0, 0), secret, eventHeight);
    events := LateEvents(Config(0, 3), t, payer, secret, eventHeight);
  }

  lemma OpenPayer(amount: uint64, expiration: uint32, h: Hash)
    ensures var c := LockedChannel(amount, expiration, h);
            GetStatus(c) == Opened && c.revealTimeout == 50 && c.our.onChain == map[]
  {
  }
}
