/**
 What single handlers of a mediator decide, exactly: when it forwards, when the payer
 pays or expires, which secrets it heeds, and when it goes on-chain or pays the payee.
 */
module MediatorSteps {
  import opened Prelude
  import opened Merkle
  import opened Channel
  import opened Ledger
  import opened Agreement
  import opened Node
  import opened Mediator
  import opened MediatorRuns

  /**
   A transfer is forwarded exactly when the payee's channel is open, can pay the whole
   amount with its fee, has room for a new lock, and the lock lasts longer than the
   channel's reveal timeout and no longer than its settlement window.
   */
  lemma ForwardedIff(payer: Channel, payee: Channel, lock: Lock, fees: FeeSchedule, height: uint32)
    requires EndValid(payee.our) && EndValid(payee.partner) && BothSolvent(payee.our, payee.partner)
    ensures var paid := Lock(AmountWithoutFees(lock.amount, fees), lock.expiration, lock.secretHash);
            Forward(payer, payee, lock, fees, height).Some? <==>
              && payee.settleTx == None && payee.closeTx == None
              && Outstanding(ViewOf(payee.our)) + lock.amount <= Credit(payee.our, payee.partner)
              && Outstanding(ViewOf(payee.our)) + lock.amount <= MAX64
              && |payee.our.tree[0]| < MAXIMUM_PENDING_TRANSFERS
              && LockHash(paid) !in HashesOf(Pending(payee.our))
              && height < lock.expiration && height + payee.revealTimeout < lock.expiration
              && lock.expiration <= height + payee.settleTimeout
  {
    var amount := AmountWithoutFees(lock.amount, fees);
    FeeWithinLimit(lock.amount, fees);
    LockedSentIff(payee, amount, lock.expiration, lock.secretHash);
    DistributableTrue(payee.our, payee.partner);
  }

  /** An accepted unlock moves the payer's lock to this node; any other message leaves the pair as it is. */
  lemma PayerPaysLock(cfg: Config, t: Trace, msg: Message)
    requires PairInv(cfg, t) && MayHappen(cfg, t, PayerUnlock(msg))
    ensures var t' := PairStep(cfg, t, PayerUnlock(msg));
            if PayerAccepts(cfg, t, msg) then
              && t'.m.payerState == PayerBalanceProof && t'.claimed
              && t.m.payer.Some? && t'.m.payer.Some?
              && t.m.secretHash in Pending(t.m.payer.value.partner)
              && Pending(t'.m.payer.value.partner) == Pending(t.m.payer.value.partner) - {t.m.secretHash}
              && Transferred(t'.m.payer.value.partner) == Transferred(t.m.payer.value.partner) + t.m.payerLock.amount
            else t' == t
  {
    if PayerAccepts(cfg, t, msg) {
      var c := t.m.payer.value;
      AcceptedFits(cfg, c, msg, t.height);
      InstallApplies(c.partner, msg, c.key);
      UnlockInstalls(c.partner, msg, c.key);
      ReceiveRemoves(cfg, c, msg, t.m.secretHash, t.height);
    }
  }

  lemma UnlockInstalls(e: End, m: Message, key: ChannelKey)
    requires EndValid(e) && m.Unlock? && Fits(ViewOf(e), m, key)
    ensures SecretDigest(m.secret) in Pending(e)
    ensures Transferred(Install(e, m)) == Transferred(e) + Pending(e)[SecretDigest(m.secret)].amount
  {
  }

  /** A block marks a payer that has neither paid nor expired as expired exactly from its lock's threshold on. */
  lemma PayerExpiresIff(cfg: Config, t: Trace, height: uint32)
    requires t.m.payer.Some? && t.m.payerState != PayerBalanceProof && t.m.payerState != PayerExpired
    ensures PairStep(cfg, t, BlockEvent(height)).m.payerState == PayerExpired <==>
            t.m.payerLock.secretHash !in t.m.payer.value.our.onChain && height >= SenderThreshold(cfg, t.m.payerLock)
  {
  }

  // ----- when a reveal is heeded and goes on-chain -----

  /** The channel is closed on the chain and no settlement of it has begun. */
  predicate ShutOnChain(c: Channel) {
    c.settleTx == None && c.closeTx.Some? && c.closeTx.value.result == Success
  }

  /** Neither half of the pair can change any more once the reveal of `sender` is taken in. */
  predicate Final(m: Mediation, sender: Address) {
    && sender != m.payeeAddress
    && m.payeeState != PayeePending && m.payeeState != PayeeSecretRevealed
    && (m.payerState == PayerBalanceProof || m.payerState == PayerExpired)
  }

  /**
   A secret sent to the mediator counts exactly when it is the first one, is the payment's
   own, and the payer's lock has not run out; otherwise nothing changes.
   */
  lemma RevealHeededIff(cfg: Config, m: Mediation, secret: Secret, sender: Address, height: uint32)
    ensures var heeded := && m.payer.Some? && m.secret == None
                          && secret != seq(32, _ => 0) && SecretDigest(secret) == m.secretHash
                          && (m.payerLock.secretHash in m.payer.value.our.onChain
                              || height < SenderThreshold(cfg, m.payerLock));
            var effect := HandleOffChainReveal(cfg, m, secret, sender, height);
            if heeded then effect.m.secret == Some(secret) else effect == Effect(m, 0, 0)
  {
  }

  /**
   A secret that is heeded goes on-chain at once exactly when the payer's channel is closed
   and the pair is not finished, unless it is on-chain already or was waited for before.
   */
  lemma ClosedRevealsIff(cfg: Config, m: Mediation, secret: Secret, sender: Address, height: uint32)
    ensures var effect := HandleOffChainReveal(cfg, m, secret, sender, height);
            && effect.registrations <= 1
            && (effect.registrations == 1 <==>
                  && m.secret == None && effect.m.secret == Some(secret)
                  && m.payer.Some? && ShutOnChain(m.payer.value) && !Final(m, sender)
                  && m.secretHash !in m.payer.value.partner.onChain && m.payerState != PayerWaitingSecretReveal)
            && (effect.registrations == 1 ==> effect.m.payerState == PayerWaitingSecretReveal)
  {
  }

  // ----- when the payee is paid -----

  /** The payer's lock is safely ahead, and the payee's open channel still holds the payee's. */
  ghost predicate CanPay(m: Mediation, height: uint32) {
    && m.payer.Some? && m.payerLock.expiration >= height
    && m.payerLock.expiration > height + m.payer.value.revealTimeout
    && m.payee.Some? && m.payee.value.settleTx == None && m.payee.value.closeTx == None
    && m.secretHash in Pending(m.payee.value.our)
  }

  /** The payee got the amount of its lock, and nothing else of its channel's pending locks changed. */
  ghost predicate GotItsLock(before: Mediation, after: Mediation) {
    && before.payee.Some? && after.payee.Some? && after.payeeState == PayeeBalanceProof
    && Transferred(after.payee.value.our) == Transferred(before.payee.value.our) + before.payeeLock.amount
    && Pending(after.payee.value.our) == Pending(before.payee.value.our) - {before.secretHash}
  }

  lemma UnlockGives(c: Channel, lock: Lock, secret: Secret)
    requires EndsValid(c) && HoldsOnly(c.our, lock) && SecretDigest(secret) == lock.secretHash
    ensures GetStatus(c) == Opened <==> c.settleTx == None && c.closeTx == None
    ensures var s := SendUnlock(c, secret, lock.secretHash);
            && (s.Sent? <==> lock.secretHash in Pending(c.our))
            && (s.Sent? ==>
                  && Transferred(s.channel.our) == Transferred(c.our) + lock.amount
                  && Pending(s.channel.our) == Pending(c.our) - {lock.secretHash})
  {
    UnlockRemoves(c, secret);
  }

  lemma PaysIff(m: Mediation, secret: Secret, height: uint32)
    requires LocksInPlace(m) && SecretDigest(secret) == m.secretHash
    ensures var effect := PayPayee(m, secret, height);
            && effect.unlocks == (if CanPay(m, height) && m.payeeState == PayeeSecretRevealed then 1 else 0)
            && (effect.unlocks == 1 ==> GotItsLock(m, effect.m))
  {
    if m.payee.Some? {
      UnlockGives(m.payee.value, m.payeeLock, secret);
    }
  }

  /** What paying depends on is the same before and after a secret is learned. */
  ghost predicate SameFunds(m: Mediation, k: Mediation) {
    && k.secretHash == m.secretHash && k.payerLock == m.payerLock && k.payeeLock == m.payeeLock
    && (k.payer.Some? <==> m.payer.Some?) && (k.payee.Some? <==> m.payee.Some?)
    && (m.payer.Some? ==> k.payer.value.revealTimeout == m.payer.value.revealTimeout)
    && (m.payee.Some? ==>
          && var (c, d) := (m.payee.value, k.payee.value);
          && d.settleTx == c.settleTx && d.closeTx == c.closeTx
          && Pending(d.our) == Pending(c.our) && Transferred(d.our) == Transferred(c.our))
  }

  lemma SameFundsPay(m: Mediation, k: Mediation, after: Mediation, height: uint32)
    requires SameFunds(m, k)
    ensures CanPay(k, height) <==> CanPay(m, height)
    ensures GotItsLock(k, after) ==> GotItsLock(m, after)
  {
  }

  lemma KnownOnChainKeepsFunds(m: Mediation, secret: Secret, eventHeight: uint32)
    requires LocksInPlace(m)
    ensures var k := KnownOnChain(m, secret, eventHeight);
            LocksInPlace(k) && SameFunds(m, k) && k.payeeState == m.payeeState
  {
    OnChainKeepsLocks(m, secret, eventHeight);
  }

  lemma LearnedKeepsFunds(t: Trace, secret: Secret, sender: Address)
    requires LocksInPlace(t.m)
    ensures var k := Learned(t, secret, sender).m;
            && LocksInPlace(k) && SameFunds(t.m, k)
            && k.payeeState == if sender == t.m.payeeAddress then PayeeSecretRevealed else t.m.payeeState
  {
    LearnKeepsLocks(t.m, secret, sender);
    LearnKeepsFunds(t.m, secret, sender);
    PayerStateOnly(t, secret, sender);
  }

  lemma LearnKeepsFunds(m: Mediation, secret: Secret, sender: Address)
    requires LocksInPlace(m)
    ensures SameFunds(m, LearnSecret(m, secret, sender))
  {
    LearnKeepsLocks(m, secret, sender);
  }

  lemma PayerStateOnly(t: Trace, secret: Secret, sender: Address)
    ensures var k, l := LearnSecret(t.m, secret, sender), Learned(t, secret, sender).m;
            l == k.(payerState := l.payerState)
  {
  }

  /**
   A secret seen on the chain pays the payee exactly when it is the payment's own, the
   payee has sent it before and is unpaid, and paying was safe when the chain showed it.
   */
  lemma OnChainPaysIff(cfg: Config, t: Trace, secret: Secret, eventHeight: uint32)
    requires PairInv(cfg, t)
    ensures var t' := PairStep(cfg, t, OnChainReveal(secret, eventHeight));
            var pays := && secret != seq(32, _ => 0) && SecretDigest(secret) == t.m.secretHash
                        && t.m.payeeState == PayeeSecretRevealed && CanPay(t.m, eventHeight);
            && t'.unlocks == t.unlocks + (if pays then 1 else 0)
            && (pays ==> GotItsLock(t.m, t'.m))
  {
    OnChainShape(cfg, t, secret, eventHeight);
    if ValidReveal(t.m, secret) {
      var k := KnownOnChain(t.m, secret, eventHeight);
      KnownOnChainKeepsFunds(t.m, secret, eventHeight);
      PaysIff(k, secret, eventHeight);
      SameFundsPay(t.m, k, PayPayee(k, secret, eventHeight).m, eventHeight);
    }
  }

  lemma LearnedPaysIff(t: Trace, secret: Secret, sender: Address)
    requires LocksInPlace(t.m) && SecretDigest(secret) == t.m.secretHash && !PayeeKnowsSecret(t.m.payeeState)
    ensures var effect := PayPayee(Learned(t, secret, sender).m, secret, t.height);
            var pays := sender == t.m.payeeAddress && CanPay(t.m, t.height);
            && effect.unlocks == (if pays then 1 else 0)
            && (pays ==> GotItsLock(t.m, effect.m))
            && effect.m.secret == Some(secret)
  {
    var k := Learned(t, secret, sender).m;
    LearnedKeepsFunds(t, secret, sender);
    PaysIff(k, secret, t.height);
    SameFundsPay(t.m, k, PayPayee(k, secret, t.height).m, t.height);
  }

  /** A secret sent to the mediator pays the payee exactly when it is heeded, comes from the payee, and paying is safe. */
  lemma RevealPaysIff(cfg: Config, t: Trace, secret: Secret, sender: Address)
    requires PairInv(cfg, t)
    ensures var t' := PairStep(cfg, t, OffChainReveal(secret, sender));
            var pays := && t.m.secret == None && t'.m.secret == Some(secret)
                        && sender == t.m.payeeAddress && CanPay(t.m, t.height);
            && t'.unlocks == t.unlocks + (if pays then 1 else 0)
            && (pays ==> GotItsLock(t.m, t'.m))
  {
    OffChainShape(cfg, t, secret, sender);
    if HeedsReveal(cfg, t, secret) {
      LearnedPaysIff(t, secret, sender);
    }
  }

  // ----- whose reveal lets the payee be paid -----

  /** The payee itself has sent the secret of the payment in the first n events. */
  ghost predicate PayeeAsked(m: Mediation, events: seq<PairEvent>, n: nat)
    requires n <= |events|
  {
    exists i :: 0 <= i < n && events[i].OffChainReveal? && events[i].sender == m.payeeAddress
                && SecretDigest(events[i].secret) == m.secretHash
  }

  lemma LearnsFromPayee(cfg: Config, t: Trace, ev: PairEvent)
    ensures var t' := PairStep(cfg, t, ev);
            && t'.m.payeeAddress == t.m.payeeAddress && t'.m.secretHash == t.m.secretHash
            && (PayeeKnowsSecret(t'.m.payeeState) ==>
                  PayeeKnowsSecret(t.m.payeeState)
                  || (ev.OffChainReveal? && ev.sender == t.m.payeeAddress && SecretDigest(ev.secret) == t.m.secretHash))
  {
    if ev.OffChainReveal? {
      OffChainShape(cfg, t, ev.secret, ev.sender);
    } else if ev.BlockEvent? {
      BlockShape(cfg, t, ev.height);
    }
  }

  lemma AskedSoFar(m: Mediation, events: seq<PairEvent>, n: nat)
    requires n < |events|
    ensures PayeeAsked(m, events, n) ==> PayeeAsked(m, events, n + 1)
    ensures var ev := events[n];
            ev.OffChainReveal? && ev.sender == m.payeeAddress && SecretDigest(ev.secret) == m.secretHash ==>
              PayeeAsked(m, events, n + 1)
  {
  }

  lemma {:induction false} KnowsAfterAsking(cfg: Config, run: seq<Trace>, events: seq<PairEvent>, n: nat)
    requires IsPairRun(cfg, run, events) && n < |run| && !PayeeKnowsSecret(run[0].m.payeeState)
    ensures run[n].m.payeeAddress == run[0].m.payeeAddress && run[n].m.secretHash == run[0].m.secretHash
    ensures PayeeKnowsSecret(run[n].m.payeeState) ==> PayeeAsked(run[0].m, events, n)
  {
    if n > 0 {
      KnowsAfterAsking(cfg, run, events, n - 1);
      RunSteps(cfg, run, events, n - 1);
      LearnsFromPayee(cfg, run[n - 1], events[n - 1]);
      AskedSoFar(run[0].m, events, n - 1);
    }
  }

  lemma RunSteps(cfg: Config, run: seq<Trace>, events: seq<PairEvent>, i: nat)
    requires IsPairRun(cfg, run, events) && i < |events|
    ensures run[i + 1] == PairStep(cfg, run[i], events[i])
  {
  }

  /** In every run the payee is paid only after it has sent the secret itself. */
  lemma PaidOnlyWhenAsked(cfg: Config, run: seq<Trace>, events: seq<PairEvent>, n: nat,
                          payer: Channel, payee: Channel, fees: FeeSchedule)
    requires |run| == |events| + 1 && n < |run| && Starts(run[0], payer, payee, fees)
    requires forall i :: 0 <= i < |events| ==>
               MayHappen(cfg, run[i], events[i]) && run[i + 1] == PairStep(cfg, run[i], events[i])
    ensures run[n].unlocks > 0 ==> PayeeAsked(run[0].m, events, n)
  {
    StartInv(cfg, run[0], payer, payee, fees);
    PairRunKeepsInv(cfg, run, events, n);
    KnowsAfterAsking(cfg, run, events, n);
  }
}
