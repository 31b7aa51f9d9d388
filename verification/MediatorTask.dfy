/**
 The mediator's pair as the source holds it: an object whose states the handlers set
 and whose two channels they change in place.  Every handler is proved against the
 function of Mediator that specifies it.
 */
module MediatorTask {
  import opened Prelude
  import opened Merkle
  import opened Channel
  import opened NettingChannelState
  import opened Mediator

  class TransferPair {
    const secretHash: Hash
    const payerLock: Lock
    const payeeLock: Lock
    const payeeAddress: Address
    var secret: Option<Secret>
    var payerState: PayerState
    var payeeState: PayeeState
    const payer: NettingChannel?
    const payee: NettingChannel?

    constructor (m: Mediation, payer: NettingChannel?, payee: NettingChannel?)
      ensures this.payer == payer && this.payee == payee
      ensures secretHash == m.secretHash && payerLock == m.payerLock && payeeLock == m.payeeLock
      ensures payeeAddress == m.payeeAddress
      ensures secret == m.secret && payerState == m.payerState && payeeState == m.payeeState
    {
      secretHash, payerLock, payeeLock, payeeAddress := m.secretHash, m.payerLock, m.payeeLock, m.payeeAddress;
      secret, payerState, payeeState := m.secret, m.payerState, m.payeeState;
      this.payer, this.payee := payer, payee;
    }

    /** The objects the pair reaches. */
    ghost function Parts(): set<object> {
      {this}
      + (if payer != null then {payer, payer.our, payer.partner} else {})
      + (if payee != null then {payee, payee.our, payee.partner} else {})
    }

    function ValueOf(c: NettingChannel?): Option<Channel>
      reads if c != null then {c, c.our, c.partner} else {}
    {
      if c != null then Some(c.Value()) else None
    }

    function Value(): Mediation
      reads Parts()
    {
      Mediation(secretHash, payerLock, payeeLock, payeeAddress, secret, payerState, payeeState, ValueOf(payer), ValueOf(payee))
    }

    /** The two channels are different objects with different ends. */
    ghost predicate Apart() {
      payer != null && payee != null ==>
        && payer != payee
        && payer.our != payee.our && payer.our != payee.partner && payer.partner != payee.our && payer.partner != payee.partner
    }

    ghost predicate Valid()
      reads Parts()
    {
      && Apart()
      && (payer != null ==> payer.Valid())
      && (payee != null ==> payee.Valid())
    }

    // ----- the pieces of a handler -----

    /** `eventsForBalanceProof`. */
    method EventsForBalanceProof(revealed: Secret, height: uint32) returns (unlocks: nat)
      requires Valid()
      modifies this`payeeState, if payee != null then {payee.our} else {}
      ensures Effect(Value(), unlocks, 0) == PayPayee(old(Value()), revealed, height)
    {
      unlocks := 0;
      if payer != null && IsSafeToWait(payerLock.expiration, payer.revealTimeout, height)
         && payee != null && GetStatus(payee.Value()) == Opened
         && PayeeKnowsSecret(payeeState) && !PayeePaid(payeeState)
      {
        payeeState := PayeeBalanceProof;
        var message := payee.SendUnlockFor(revealed, secretHash);
        if message.Some? {
          unlocks := 1;
        }
      }
    }

    /** `setOffChainSecret` with `setOffchainRevealState`. */
    method SetOffChainSecret(revealed: Secret, sender: Address)
      requires Valid()
      modifies Parts()
      ensures Valid() && Value() == LearnSecret(old(Value()), revealed, sender)
    {
      secret := Some(revealed);
      if payer != null {
        payer.RegisterOffChain(revealed, secretHash);
      }
      if payee != null {
        payee.RegisterOffChain(revealed, secretHash);
      }
      if sender == payeeAddress {
        payeeState := PayeeSecretRevealed;
      }
    }

    /** `eventsForOnChainSecretRevealIfClosed`. */
    method EventsForOnChainSecretRevealIfClosed() returns (registrations: nat)
      modifies this`payerState
      ensures Effect(Value(), 0, registrations) == RevealIfClosed(old(Value()))
    {
      registrations := 0;
      if PairPending(Value()) && payer != null && GetStatus(payer.Value()) == Closed {
        if !RegistrationStarted(Value()) {
          registrations := 1;
        }
        payerState := PayerWaitingSecretReveal;
      }
    }

    /** `eventsForSecretReveal`. */
    method EventsForSecretReveal()
      modifies this`payerState
      ensures Value() == RevealToPayer(old(Value()))
    {
      if PayeeKnowsSecret(payeeState) && payerState == PayerPending {
        payerState := PayerSecretRevealed;
      }
    }

    /** `secretLearned`. */
    method LearnAndPay(revealed: Secret, sender: Address, height: uint32) returns (unlocks: nat, registrations: nat)
      requires Valid()
      modifies Parts()
      ensures Effect(Value(), unlocks, registrations) == SecretLearned(old(Value()), revealed, sender, height)
    {
      SetOffChainSecret(revealed, sender);
      registrations := EventsForOnChainSecretRevealIfClosed();
      EventsForSecretReveal();
      unlocks := EventsForBalanceProof(revealed, height);
    }

    // ----- the handlers -----

    /** `handleOffChainSecretReveal`. */
    method HandleOffChainSecretReveal(cfg: Config, revealed: Secret, sender: Address, height: uint32)
      returns (unlocks: nat, registrations: nat)
      requires Valid()
      modifies Parts()
      ensures Effect(Value(), unlocks, registrations) == HandleOffChainReveal(cfg, old(Value()), revealed, sender, height)
    {
      unlocks, registrations := 0, 0;
      if payer != null && secret.None? && ValidReveal(Value(), revealed) && !TransferExpired(cfg, Value(), height) {
        unlocks, registrations := LearnAndPay(revealed, sender, height);
      }
    }

    /** `handleOnChainSecretReveal`. */
    method HandleOnChainSecretReveal(revealed: Secret, eventHeight: uint32) returns (unlocks: nat)
      requires Valid()
      modifies Parts()
      ensures Effect(Value(), unlocks, 0) == HandleOnChainReveal(old(Value()), revealed, eventHeight)
    {
      unlocks := 0;
      if ValidReveal(Value(), revealed) {
        secret := Some(revealed);
        if payer != null {
          payer.RegisterOnChain(revealed, secretHash, eventHeight);
        }
        if payee != null {
          payee.RegisterOnChain(revealed, secretHash, eventHeight);
        }
        unlocks := EventsForBalanceProof(revealed, eventHeight);
      }
    }

    /** `eventsToRemoveExpiredLocks`. */
    method EventsToRemoveExpiredLocks(cfg: Config, height: uint32) returns (message: Option<Message>)
      requires Valid()
      modifies this`payeeState, if payee != null then {payee.our} else {}
      ensures Value() == RemoveExpired(cfg, old(Value()), height)
    {
      message := None;
      if payee != null {
        var due;
        due, message := payee.ExpireIfDue(cfg, secretHash, height);
        if due {
          payeeState := PayeeExpired;
        }
      }
    }

    /** `eventsForOnChainSecretRevealIfDangerzone`. */
    method EventsForOnChainSecretRevealIfDangerzone(height: uint32) returns (registrations: nat)
      modifies this`payerState
      ensures Effect(Value(), 0, registrations) == RevealIfDanger(old(Value()), height)
    {
      registrations := 0;
      if PairPending(Value()) && payer != null
         && !IsSafeToWait(payerLock.expiration, payer.revealTimeout, height)
         && SecretKnown(payer.partner.Value(), secretHash)
      {
        if !RegistrationStarted(Value()) && MayReveal(payer.Value()) {
          registrations := 1;
        }
        payerState := PayerWaitingSecretReveal;
      }
    }

    /** `eventsForExpiredPairs`. */
    method EventsForExpiredPairs(cfg: Config, height: uint32)
      modifies this`payerState
      ensures Value() == MarkExpired(cfg, old(Value()), height)
    {
      if PairPending(Value()) && payer != null && TransferExpired(cfg, Value(), height) {
        payerState := PayerExpired;
      }
    }

    /** `MdHandleBlock`. */
    method HandleBlock(cfg: Config, height: uint32) returns (registrations: nat)
      requires Valid()
      modifies Parts()
      ensures Effect(Value(), 0, registrations) == HandleMediatorBlock(cfg, old(Value()), height)
    {
      var _ := EventsToRemoveExpiredLocks(cfg, height);
      registrations := EventsForOnChainSecretRevealIfDangerzone(height);
      EventsForExpiredPairs(cfg, height);
    }

    /** `handleUnlock`. */
    method HandleUnlock(cfg: Config, m: Message, height: uint32)
      requires Valid() && m.Unlock?
      modifies Parts()
      ensures Value() == HandlePayerUnlock(cfg, old(Value()), m, height)
    {
      if payer != null {
        var accepted := payer.HandleUnlock(cfg, m, height);
        if accepted {
          payerState := PayerBalanceProof;
        }
      }
    }

    /** `handleLockExpired`. */
    method HandleLockExpired(cfg: Config, m: Message, height: uint32)
      requires Valid() && m.LockExpired?
      modifies Parts()
      ensures Value() == HandlePayerExpired(cfg, old(Value()), m, height)
    {
      if payer != null {
        var _ := payer.HandleReceiveLockExpired(cfg, m, height);
        if GetLock(payer.partner.Value(), secretHash).Some? {
          payerState := PayerExpired;
        }
      }
    }
  }
}
