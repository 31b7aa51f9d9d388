/**
 A mediator that has paid goes on-chain in time: what the danger-zone reveal of
 transfer/mediator.go guarantees over whole runs, and what disarms it.
 */
module MediatorReveal {
  import opened Prelude
  import opened Merkle
  import opened Channel
  import opened Agreement
  import opened Mediator
  import opened MediatorRuns

  /**
   Steps that do not disarm the reveal: a lock-expired message for the pending payer
   lock is a valid one, and the payer's channel is not being settled when a block finds
   its lock in danger.
   */
  ghost predicate Attended(cfg: Config, t: Trace, ev: PairEvent) {
    && Timely(cfg, t, ev)
    && (t.m.payer.Some? && ev.PayerLockExpired? && t.m.secretHash in Pending(t.m.payer.value.partner) ==>
          Accepts(cfg, t.m.payer.value, ev.message, t.height))
    && (t.m.payer.Some? && ev.BlockEvent? && InDanger(t.m, ev.height) ==> InUse(t.m.payer.value))
  }

  /** No settlement of the channel has begun, and no close of it has failed. */
  predicate InUse(c: Channel) {
    c.settleTx == None && (c.closeTx == None || c.closeTx.value.result == Success || c.closeTx.value.finished == 0)
  }

  /** The payer's lock is known to be claimable and has at most revealTimeout blocks left. */
  ghost predicate InDanger(m: Mediation, height: uint32)
    requires m.payer.Some?
  {
    && !IsSafeToWait(m.payerLock.expiration, m.payer.value.revealTimeout, height)
    && SecretKnown(m.payer.value.partner, m.secretHash)
  }

  ghost predicate OnItsWay(t: Trace) {
    t.registrations >= 1 || (t.m.payer.Some? && t.m.secretHash in t.m.payer.value.partner.onChain)
  }

  /** The payer's state never claims more than what happened. */
  ghost predicate RevealInv(t: Trace) {
    && (t.m.payerState == PayerBalanceProof ==> t.claimed)
    && (t.m.payerState == PayerWaitingSecretReveal && t.m.payer.Some? ==> t.claimed || OnItsWay(t))
    && (t.m.payerState == PayerExpired ==> t.height >= t.m.payerLock.expiration)
  }

  ghost predicate PaidKept(t: Trace) {
    t.unlocks == 1 ==> !t.dropped
  }

  // ----- every attended event keeps it -----

  lemma LearnKeepsOnChain(e: End, secret: Secret, h: Hash)
    ensures h in RegisterSecret(e, secret, h).onChain <==> h in e.onChain
  {
  }

  lemma LearnedKeepsReveal(t: Trace, secret: Secret, sender: Address)
    requires RevealInv(t)
    ensures RevealInv(Learned(t, secret, sender))
  {
    if t.m.payer.Some? {
      LearnKeepsOnChain(t.m.payer.value.partner, secret, t.m.secretHash);
    }
  }

  lemma PayKeepsReveal(t: Trace, secret: Secret, height: uint32)
    requires RevealInv(t)
    ensures RevealInv(Following(t, PayPayee(t.m, secret, height)))
  {
  }

  lemma OffChainKeepsReveal(cfg: Config, t: Trace, secret: Secret, sender: Address)
    requires RevealInv(t)
    ensures RevealInv(PairStep(cfg, t, OffChainReveal(secret, sender)))
  {
    OffChainShape(cfg, t, secret, sender);
    LearnedKeepsReveal(t, secret, sender);
    PayKeepsReveal(Learned(t, secret, sender), secret, t.height);
  }

  lemma KnownOnChainKeepsReveal(t: Trace, secret: Secret, eventHeight: uint32)
    requires LocksInPlace(t.m) && RevealInv(t)
    ensures RevealInv(t.(m := KnownOnChain(t.m, secret, eventHeight)))
  {
    OnChainKeepsLocks(t.m, secret, eventHeight);
  }

  lemma OnChainKeepsReveal(cfg: Config, t: Trace, secret: Secret, eventHeight: uint32)
    requires LocksInPlace(t.m) && RevealInv(t)
    ensures RevealInv(PairStep(cfg, t, OnChainReveal(secret, eventHeight)))
  {
    OnChainShape(cfg, t, secret, eventHeight);
    KnownOnChainKeepsReveal(t, secret, eventHeight);
    PayKeepsReveal(t.(m := KnownOnChain(t.m, secret, eventHeight)), secret, eventHeight);
  }

  lemma DangerKeepsReveal(t: Trace, height: uint32)
    requires RevealInv(t) && (t.m.payer.Some? && InDanger(t.m, height) ==> InUse(t.m.payer.value))
    ensures RevealInv(Following(t, RevealIfDanger(t.m, height)))
  {
  }

  lemma BlockKeepsReveal(cfg: Config, t: Trace, height: uint32)
    requires LocksInPlace(t.m) && RevealInv(t) && MayHappen(cfg, t, BlockEvent(height)) && Attended(cfg, t, BlockEvent(height))
    ensures RevealInv(PairStep(cfg, t, BlockEvent(height)))
  {
    RemoveExpiredKeeps(cfg, t.m, height);
    var t1 := t.(m := RemoveExpired(cfg, t.m, height));
    DangerKeepsReveal(t1, height);
    BlockInTwo(cfg, t, t1, height);
    MarkKeepsReveal(cfg, Following(t1, RevealIfDanger(t1.m, height)), height);
  }

  lemma BlockInTwo(cfg: Config, t: Trace, t1: Trace, height: uint32)
    requires t1 == t.(m := RemoveExpired(cfg, t.m, height))
    ensures var t2 := Following(t1, RevealIfDanger(t1.m, height));
            PairStep(cfg, t, BlockEvent(height)) == t2.(m := MarkExpired(cfg, t2.m, height), height := height)
  {
  }

  lemma MarkKeepsReveal(cfg: Config, t: Trace, height: uint32)
    requires RevealInv(t) && t.height <= height && t.m.payerLock.expiration + 2 * cfg.confirmBlockCount <= MAX32
    ensures RevealInv(t.(m := MarkExpired(cfg, t.m, height), height := height))
  {
  }

  lemma PayerMessageKeepsReveal(cfg: Config, t: Trace, ev: PairEvent)
    requires LocksInPlace(t.m) && RevealInv(t) && MayHappen(cfg, t, ev) && Attended(cfg, t, ev)
    requires ev.PayerUnlock? || ev.PayerLockExpired?
    ensures RevealInv(PairStep(cfg, t, ev))
  {
    if t.m.payer.Some? {
      var c := t.m.payer.value;
      var d := Receive(cfg, c, ev.message, t.height);
      ReceiveRemoves(cfg, c, ev.message, t.m.secretHash, t.height);
      GetLockPending(d.partner, t.m.secretHash);
    }
  }

  lemma RevealStep(cfg: Config, t: Trace, ev: PairEvent)
    requires LocksInPlace(t.m) && RevealInv(t) && MayHappen(cfg, t, ev) && Attended(cfg, t, ev)
    ensures RevealInv(PairStep(cfg, t, ev))
  {
    match ev
    case BlockEvent(height) => BlockKeepsReveal(cfg, t, height);
    case OffChainReveal(secret, sender) => OffChainKeepsReveal(cfg, t, secret, sender);
    case OnChainReveal(secret, eventHeight) => OnChainKeepsReveal(cfg, t, secret, eventHeight);
    case PayerUnlock(_) => PayerMessageKeepsReveal(cfg, t, ev);
    case PayerLockExpired(_) => PayerMessageKeepsReveal(cfg, t, ev);
    case Traffic(_, _) =>
  }

  /** Once the payee is paid the payer's lock can no longer be dropped: its secret is registered. */
  lemma PaidStep(cfg: Config, t: Trace, ev: PairEvent)
    requires PairInv(cfg, t) && PaidKept(t) && MayHappen(cfg, t, ev) && Timely(cfg, t, ev)
    ensures PaidKept(PairStep(cfg, t, ev))
  {
    StepPaysBacked(cfg, t, ev);
    PairStepKeepsInv(cfg, t, ev);
    if ev.PayerLockExpired? && PayerAccepts(cfg, t, ev.message) {
      ReceiveRemoves(cfg, t.m.payer.value, ev.message, t.m.secretHash, t.height);
    }
  }

  // ----- the danger block -----

  lemma PaidBlockKeepsPayee(cfg: Config, t: Trace, height: uint32)
    requires PairInv(cfg, t) && t.unlocks == 1
    ensures RemoveExpired(cfg, t.m, height) == t.m
  {
    RemoveExpiredKeeps(cfg, t.m, height);
  }

  /** The situation the danger-zone reveal is for. */
  ghost predicate NeedsReveal(t: Trace, height: uint32) {
    && t.unlocks == 1 && !t.claimed && t.m.payer.Some?
    && (t.m.payerLock.expiration < height || t.m.payerLock.expiration <= height + t.m.payer.value.revealTimeout)
    && InUse(t.m.payer.value)
  }

  /**
   A block that finds a paid pair in danger emits the on-chain reveal exactly when the
   secret is not on-chain already and the payer's state is one of the first two.
   */
  lemma DangerBlockRevealsIff(cfg: Config, t: Trace, height: uint32)
    requires PairInv(cfg, t) && PaidKept(t) && NeedsReveal(t, height)
    ensures PairStep(cfg, t, BlockEvent(height)).registrations == t.registrations + 1 <==>
            && t.m.secretHash !in t.m.payer.value.partner.onChain
            && (t.m.payerState == PayerPending || t.m.payerState == PayerSecretRevealed)
  {
    PaidBlockKeepsPayee(cfg, t, height);
  }

  lemma DangerBlockHeard(cfg: Config, t: Trace, height: uint32)
    requires PairInv(cfg, t) && PaidKept(t) && RevealInv(t) && NeedsReveal(t, height)
    requires t.height <= height < t.m.payerLock.expiration
    ensures OnItsWay(PairStep(cfg, t, BlockEvent(height)))
  {
    DangerBlockRevealsIff(cfg, t, height);
    BlockShape(cfg, t, height);
    RemoveExpiredKeeps(cfg, t.m, height);
  }

  // ----- runs -----

  lemma {:induction false} RunKeepsReveal(cfg: Config, run: seq<Trace>, events: seq<PairEvent>, n: nat)
    requires IsPairRun(cfg, run, events) && n < |run| && RevealInv(run[0]) && PaidKept(run[0])
    requires forall i :: 0 <= i < n ==> Attended(cfg, run[i], events[i])
    ensures RevealInv(run[n]) && PaidKept(run[n])
  {
    if n > 0 {
      RunKeepsReveal(cfg, run, events, n - 1);
      PairRunKeepsInv(cfg, run, events, n - 1);
      RevealStep(cfg, run[n - 1], events[n - 1]);
      PaidStep(cfg, run[n - 1], events[n - 1]);
    }
  }

  /**
   In every attended run, once the payee is paid, every block handled inside the reveal
   window and before expiry, with the payer's lock unclaimed and its channel open,
   closing or closed, leaves an on-chain reveal emitted or the secret on-chain.
   */
  lemma PaidMediatorReveals(cfg: Config, run: seq<Trace>, events: seq<PairEvent>, n: nat, payer: Channel,
                            payee: Channel, fees: FeeSchedule)
    requires |run| == |events| + 1 && n < |events| && Starts(run[0], payer, payee, fees)
    requires forall i :: 0 <= i < |events| ==>
               MayHappen(cfg, run[i], events[i]) && run[i + 1] == PairStep(cfg, run[i], events[i])
    requires forall i :: 0 <= i < n ==> Attended(cfg, run[i], events[i])
    requires events[n].BlockEvent? && NeedsReveal(run[n], events[n].height)
    requires events[n].height < run[n].m.payerLock.expiration
    ensures OnItsWay(run[n + 1])
  {
    StartInv(cfg, run[0], payer, payee, fees);
    PairRunKeepsInv(cfg, run, events, n);
    RunKeepsReveal(cfg, run, events, n);
    DangerBlockHeard(cfg, run[n], events[n].height);
  }

  // ----- what the conditions keep out -----

  /** A refused lock-expired message marks the payer expired, and no block reveals any more. */
  lemma InvalidExpiryDisarms(cfg: Config, t: Trace, msg: Message, height: uint32)
    requires PairInv(cfg, t) && PaidKept(t) && NeedsReveal(t, height)
    requires MayHappen(cfg, t, PayerLockExpired(msg)) && !PayerAccepts(cfg, t, msg)
    ensures var t1 := PairStep(cfg, t, PayerLockExpired(msg));
            NeedsReveal(t1, height) && PairStep(cfg, t1, BlockEvent(height)).registrations == t.registrations
  {
    RefusedExpiry(cfg, t, msg);
    NoReveal(cfg, PairStep(cfg, t, PayerLockExpired(msg)), height);
  }

  lemma RefusedExpiry(cfg: Config, t: Trace, msg: Message)
    requires PairInv(cfg, t) && t.m.payer.Some? && t.m.secretHash in Pending(t.m.payer.value.partner)
    requires !PayerAccepts(cfg, t, msg)
    ensures PairStep(cfg, t, PayerLockExpired(msg)) == t.(m := t.m.(payerState := PayerExpired))
  {
    GetLockPending(t.m.payer.value.partner, t.m.secretHash);
  }

  lemma NoReveal(cfg: Config, t: Trace, height: uint32)
    requires PairInv(cfg, t) && t.unlocks == 1
    requires t.m.payerState == PayerExpired || t.m.payerState == PayerWaitingSecretReveal
    ensures PairStep(cfg, t, BlockEvent(height)).registrations == t.registrations
  {
    PaidBlockKeepsPayee(cfg, t, height);
  }

  lemma SettlingBlock(cfg: Config, t: Trace, height: uint32)
    requires PairInv(cfg, t) && t.unlocks == 1 && t.m.payer.Some? && InDanger(t.m, height)
    requires t.m.payerState == PayerSecretRevealed && !InUse(t.m.payer.value)
    ensures var t1 := PairStep(cfg, t, BlockEvent(height));
            && t1.registrations == t.registrations && t1.unlocks == 1
            && (t1.m.payerState == PayerExpired || t1.m.payerState == PayerWaitingSecretReveal)
  {
    PaidBlockKeepsPayee(cfg, t, height);
    SettlingWaits(t.m, height);
    var waiting := t.m.(payerState := PayerWaitingSecretReveal);
    assert HandleMediatorBlock(cfg, t.m, height) == Effect(MarkExpired(cfg, waiting, height), 0, 0);
  }

  lemma SettlingWaits(m: Mediation, height: uint32)
    requires m.payer.Some? && InDanger(m, height) && m.payerState == PayerSecretRevealed && !InUse(m.payer.value)
    ensures RevealIfDanger(m, height) == Effect(m.(payerState := PayerWaitingSecretReveal), 0, 0)
  {
  }

  /**
   A danger block that finds the payer's channel being settled marks the reveal as
   waiting without emitting it, and no later block emits it either.
   */
  lemma SettlingSilencesReveal(cfg: Config, t: Trace, height: uint32, later: uint32)
    requires PairInv(cfg, t) && t.unlocks == 1 && t.m.payer.Some? && InDanger(t.m, height) && t.height <= height
    requires t.m.payerState == PayerSecretRevealed && !InUse(t.m.payer.value)
    ensures var t1 := PairStep(cfg, t, BlockEvent(height));
            && t1.registrations == t.registrations
            && PairStep(cfg, t1, BlockEvent(later)).registrations == t.registrations
  {
    var t1 := PairStep(cfg, t, BlockEvent(height));
    SettlingBlock(cfg, t, height);
    BlockKeepsInv(cfg, t, height);
    NoReveal(cfg, t1, later);
  }

  /**
   An on-chain reveal is judged by the height it was emitted at, so it can pay after the
   payer's lock was dropped: the payment is backed exactly when the payer has paid or its
   lock is still pending.
   */
  lemma OnChainPaymentBackedIff(cfg: Config, t: Trace, secret: Secret, eventHeight: uint32)
    requires PairInv(cfg, t) && MayHappen(cfg, t, OnChainReveal(secret, eventHeight))
    requires PairStep(cfg, t, OnChainReveal(secret, eventHeight)).unlocks > t.unlocks
    ensures t.m.payer.Some?
    ensures BackedPayment(t, OnChainReveal(secret, eventHeight), PairStep(cfg, t, OnChainReveal(secret, eventHeight)))
            <==> t.claimed || t.m.secretHash in Pending(t.m.payer.value.partner)
  {
    OnChainIsSafe(t, secret, eventHeight);
    if !t.dropped {
      OnChainPaysBacked(cfg, t, secret, eventHeight);
    } else if t.claimed {
      HistoryIrrelevant(cfg, t, secret, eventHeight);
      OnChainPaysBacked(cfg, t.(dropped := false), secret, eventHeight);
    } else {
      HistoryIrrelevant(cfg, t, secret, eventHeight);
      OnChainKeepsInv(cfg, t, secret, eventHeight);
      DroppedUnbacked(cfg, t, OnChainReveal(secret, eventHeight), PairStep(cfg, t, OnChainReveal(secret, eventHeight)));
    }
  }

  lemma HistoryIrrelevant(cfg: Config, t: Trace, secret: Secret, eventHeight: uint32)
    ensures var t' := PairStep(cfg, t, OnChainReveal(secret, eventHeight));
            && t'.claimed == t.claimed && t'.dropped == t.dropped && t'.m.secretHash == t.m.secretHash
            && PairStep(cfg, t.(dropped := false), OnChainReveal(secret, eventHeight)) == t'.(dropped := false)
  {
  }

  lemma DroppedUnbacked(cfg: Config, t: Trace, ev: PairEvent, t': Trace)
    requires PairInv(cfg, t') && t'.dropped && !t'.claimed && t'.m.secretHash == t.m.secretHash
    ensures !BackedPayment(t, ev, t')
  {
    if t'.m.payer.Some? {
      GetLockPending(t'.m.payer.value.partner, t'.m.secretHash);
    }
  }

  /**
   The failing run: the payer's lock is dropped, the payee sends the secret before its
   own lock is expired for it, and an older on-chain reveal arrives.
   */
  lemma LateRevealPaysUnbacked(cfg: Config, t: Trace, secret: Secret, eventHeight: uint32)
    requires PairInv(cfg, t) && t.dropped && !t.claimed && t.m.payer.Some? && HeedsReveal(cfg, t, secret)
    requires t.m.payee.Some? && GetStatus(t.m.payee.value) == Opened && t.m.secretHash in Pending(t.m.payee.value.our)
    requires !IsSafeToWait(t.m.payerLock.expiration, t.m.payer.value.revealTimeout, t.height)
    requires IsSafeToWait(t.m.payerLock.expiration, t.m.payer.value.revealTimeout, eventHeight) && eventHeight <= t.height
    ensures var t1 := PairStep(cfg, t, OffChainReveal(secret, t.m.payeeAddress));
            var t2 := PairStep(cfg, t1, OnChainReveal(secret, eventHeight));
            && t1.unlocks == t.unlocks && t2.unlocks == t.unlocks + 1 && t2.dropped && !t2.claimed
            && !BackedPayment(t1, OnChainReveal(secret, eventHeight), t2)
  {
    var t1 := PairStep(cfg, t, OffChainReveal(secret, t.m.payeeAddress));
    UnsafeLearns(cfg, t, secret);
    OpenReveal(t1.m, secret, eventHeight);
    OnChainShape(cfg, t1, secret, eventHeight);
    HistoryIrrelevant(cfg, t1, secret, eventHeight);
    OnChainPaymentBackedIff(cfg, t1, secret, eventHeight);
  }

  /** A payment the secret can still unlock. */
  ghost predicate ReadyToPay(m: Mediation, secret: Secret, height: uint32) {
    && LocksInPlace(m) && ValidReveal(m, secret) && m.payeeState == PayeeSecretRevealed
    && m.payer.Some? && IsSafeToWait(m.payerLock.expiration, m.payer.value.revealTimeout, height)
    && m.payee.Some? && GetStatus(m.payee.value) == Opened && m.secretHash in Pending(m.payee.value.our)
  }

  lemma UnsafeLearns(cfg: Config, t: Trace, secret: Secret)
    requires PairInv(cfg, t) && t.m.payer.Some? && HeedsReveal(cfg, t, secret)
    requires t.m.payee.Some? && GetStatus(t.m.payee.value) == Opened && t.m.secretHash in Pending(t.m.payee.value.our)
    requires !IsSafeToWait(t.m.payerLock.expiration, t.m.payer.value.revealTimeout, t.height)
    ensures var t1 := PairStep(cfg, t, OffChainReveal(secret, t.m.payeeAddress));
            && PairInv(cfg, t1) && t1.dropped == t.dropped && t1.claimed == t.claimed && t1.height == t.height
            && t1.unlocks == t.unlocks
            && forall height :: IsSafeToWait(t.m.payerLock.expiration, t.m.payer.value.revealTimeout, height) ==>
                                  ReadyToPay(t1.m, secret, height)
  {
    var t1 := Learned(t, secret, t.m.payeeAddress);
    OffChainShape(cfg, t, secret, t.m.payeeAddress);
    LearnedKeepsInv(cfg, t, secret, t.m.payeeAddress);
    LearningMovesNoMoney(t, secret, t.m.payeeAddress);
    LearnedPayee(t, secret);
    LearnKeepsLocks(t.m, secret, t.m.payeeAddress);
    UnsafePaysNothing(t1.m, secret, t.height);
  }

  lemma LearnedPayee(t: Trace, secret: Secret)
    requires t.m.payee.Some?
    ensures var m := Learned(t, secret, t.m.payeeAddress).m;
            && m.payeeState == PayeeSecretRevealed
            && m.payee == LearnSecret(t.m, secret, t.m.payeeAddress).payee
            && m.payee.Some? && GetStatus(m.payee.value) == GetStatus(t.m.payee.value)
  {
  }

  lemma UnsafePaysNothing(m: Mediation, secret: Secret, height: uint32)
    requires m.payer.Some? ==> !IsSafeToWait(m.payerLock.expiration, m.payer.value.revealTimeout, height)
    ensures PayPayee(m, secret, height) == Effect(m, 0, 0)
  {
  }

  lemma ReadyPays(m: Mediation, secret: Secret, height: uint32)
    requires ReadyToPay(m, secret, height)
    ensures PayPayee(m, secret, height).unlocks == 1
  {
    UnlockRemoves(m.payee.value, secret);
  }

  lemma KnownPayee(m: Mediation, secret: Secret, eventHeight: uint32)
    requires m.payee.Some?
    ensures GetStatus(KnownOnChain(m, secret, eventHeight).payee.value) == GetStatus(m.payee.value)
    ensures KnownOnChain(m, secret, eventHeight).payeeState == m.payeeState
  {
  }

  lemma OpenReveal(m: Mediation, secret: Secret, eventHeight: uint32)
    requires ReadyToPay(m, secret, eventHeight)
    ensures PayPayee(KnownOnChain(m, secret, eventHeight), secret, eventHeight).unlocks == 1
  {
    OnChainKeepsLocks(m, secret, eventHeight);
    OnChainMovesNoMoney(m, secret, eventHeight);
    KnownPayee(m, secret, eventHeight);
    ReadyPays(KnownOnChain(m, secret, eventHeight), secret, eventHeight);
  }
}
