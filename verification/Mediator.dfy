/**
 A mediator's forward pair (transfer/mediator.go): the payer's locked transfer that
 came in, the payee's that went out, and the handlers that decide when the payee is
 paid and when the secret must go on-chain.
 */
module Mediator {
  import opened Prelude
  import opened Merkle
  import opened Channel

  datatype PayerState = PayerPending | PayerSecretRevealed | PayerWaitingSecretReveal | PayerBalanceProof | PayerExpired

  datatype PayeeState = PayeePending | PayeeSecretRevealed | PayeeBalanceProof | PayeeExpired

  /** A channel that left the channel map is None. */
  datatype Mediation = Mediation(secretHash: Hash, payerLock: Lock, payeeLock: Lock, payeeAddress: Address,
                                 secret: Option<Secret>, payerState: PayerState, payeeState: PayeeState,
                                 payer: Option<Channel>, payee: Option<Channel>)

  /** The state after a handler, with the payee unlocks and on-chain secret registrations it emitted. */
  datatype Effect = Effect(m: Mediation, unlocks: nat, registrations: nat)

  const EMPTY_SECRET: Secret := seq(32, _ => 0)

  // ----- fees -----

  datatype FeeSchedule = FeeSchedule(flat: uint64, proportional: uint64)

  /** `GetAmountWithoutFees`, with the source's floating-point products taken exactly. */
  function AmountWithoutFees(amount: uint64, schedule: FeeSchedule): uint64 {
    var fee := Wrap64(schedule.flat + Wrap64(amount * schedule.proportional / 1_000_000_000));
    if 5 * fee <= amount then Wrap64(amount - fee) else Wrap64(amount - amount / 5)
  }

  /** Whatever the schedule, even one that wraps, the fee is at most a fifth and never a gift. */
  lemma FeeWithinLimit(amount: uint64, schedule: FeeSchedule)
    ensures AmountWithoutFees(amount, schedule) <= amount
    ensures 4 * amount <= 5 * AmountWithoutFees(amount, schedule)
  {
    var fee := Wrap64(schedule.flat + Wrap64(amount * schedule.proportional / 1_000_000_000));
    assert AmountWithoutFees(amount, schedule) == if 5 * fee <= amount then amount - fee else amount - amount / 5;
  }

  /** `fee` is the flat fee and the whole tokens of the proportional one, which is in billionths of the amount. */
  ghost predicate ScheduledFee(amount: uint64, schedule: FeeSchedule, fee: int) {
    var proportional := fee - schedule.flat;
    1_000_000_000 * proportional <= amount * schedule.proportional < 1_000_000_000 * (proportional + 1)
  }

  lemma Rounds(product: int, n: int)
    requires 1_000_000_000 * n <= product < 1_000_000_000 * (n + 1)
    ensures product / 1_000_000_000 == n
  {
  }

  /** Where nothing wraps the fee taken is the scheduled one, or a fifth when that is more. */
  lemma FeeCharged(amount: uint64, schedule: FeeSchedule, fee: int)
    requires ScheduledFee(amount, schedule, fee) && fee <= MAX64
    ensures var taken := amount - AmountWithoutFees(amount, schedule);
            if 5 * fee <= amount then taken == fee else 5 * taken <= amount < 5 * taken + 5
  {
    Rounds(amount * schedule.proportional, fee - schedule.flat);
    assert amount * schedule.proportional >= 0;
    FeeWithinLimit(amount, schedule);
  }

  // ----- small predicates -----

  /** `MdIsSafeToWait`. */
  predicate IsSafeToWait(expiration: uint32, revealTimeout: int, height: uint32) {
    expiration >= height && expiration - height > revealTimeout
  }

  predicate PayeeKnowsSecret(s: PayeeState) {
    s == PayeeSecretRevealed || s == PayeeBalanceProof
  }

  predicate PayeePaid(s: PayeeState) {
    s == PayeeBalanceProof
  }

  /** `GetPendingTransferPairs` keeps a pair unless both its states are final. */
  predicate PairPending(m: Mediation) {
    !((m.payeeState == PayeeBalanceProof || m.payeeState == PayeeExpired)
      && (m.payerState == PayerBalanceProof || m.payerState == PayerExpired))
  }

  /** `MdHasSecretRegistrationStarted`. */
  predicate RegistrationStarted(m: Mediation) {
    || (m.payer.Some? && m.secretHash in m.payer.value.partner.onChain)
    || m.payerState == PayerWaitingSecretReveal
  }

  predicate SecretKnown(e: End, h: Hash) {
    h in e.unlocked || h in e.onChain
  }

  predicate MayReveal(c: Channel) {
    GetStatus(c) == Closed || GetStatus(c) == Opened || GetStatus(c) == Closing
  }

  /** `TransferExpired`: looks at our own end of the payer's channel. */
  predicate TransferExpired(cfg: Config, m: Mediation, height: uint32)
    requires m.payer.Some?
  {
    IsLockExpired(m.payer.value.our, m.payerLock, height, SenderThreshold(cfg, m.payerLock))
  }

  predicate ValidReveal(m: Mediation, secret: Secret) {
    secret != EMPTY_SECRET && SecretDigest(secret) == m.secretHash
  }

  // ----- the pieces of a handler -----

  /** `eventsForBalanceProof`: pays the payee while the payer's lock is safe. */
  ghost function PayPayee(m: Mediation, secret: Secret, height: uint32): Effect {
    if m.payer.Some? && IsSafeToWait(m.payerLock.expiration, m.payer.value.revealTimeout, height)
       && m.payee.Some? && GetStatus(m.payee.value) == Opened
       && PayeeKnowsSecret(m.payeeState) && !PayeePaid(m.payeeState)
    then
      var paid := m.(payeeState := PayeeBalanceProof);
      var s := SendUnlock(m.payee.value, secret, m.secretHash);
      if s.Sent? then Effect(paid.(payee := Some(s.channel)), 1, 0) else Effect(paid, 0, 0)
    else Effect(m, 0, 0)
  }

  /** `setOffChainSecret` and `setOffchainRevealState`. */
  function LearnSecret(m: Mediation, secret: Secret, sender: Address): Mediation {
    m.(secret := Some(secret),
       payer := if m.payer.Some? then Some(RegisterOffChainSecret(m.payer.value, secret, m.secretHash)) else None,
       payee := if m.payee.Some? then Some(RegisterOffChainSecret(m.payee.value, secret, m.secretHash)) else None,
       payeeState := if sender == m.payeeAddress then PayeeSecretRevealed else m.payeeState)
  }

  /** `eventsForOnChainSecretRevealIfClosed`; its nil lock is excluded by `SecretLearnedRuns`. */
  function RevealIfClosed(m: Mediation): Effect {
    if PairPending(m) && m.payer.Some? && GetStatus(m.payer.value) == Closed then
      Effect(m.(payerState := PayerWaitingSecretReveal), 0, if RegistrationStarted(m) then 0 else 1)
    else Effect(m, 0, 0)
  }

  /** `eventsForSecretReveal`. */
  function RevealToPayer(m: Mediation): Mediation {
    if PayeeKnowsSecret(m.payeeState) && m.payerState == PayerPending
    then m.(payerState := PayerSecretRevealed) else m
  }

  /** `secretLearned`. */
  ghost function SecretLearned(m: Mediation, secret: Secret, sender: Address, height: uint32): Effect {
    var closed := RevealIfClosed(LearnSecret(m, secret, sender));
    var paid := PayPayee(RevealToPayer(closed.m), secret, height);
    Effect(paid.m, paid.unlocks, closed.registrations)
  }

  /** The source dereferences the payer's lock when it reveals for a closed channel. */
  predicate SecretLearnedRuns(m: Mediation) {
    m.payer.Some? && GetStatus(m.payer.value) == Closed && PairPending(m) && !RegistrationStarted(m) ==>
      GetLock(m.payer.value.partner, m.secretHash).Some?
  }

  // ----- the handlers -----

  /** `handleOffChainSecretReveal`. */
  ghost function HandleOffChainReveal(cfg: Config, m: Mediation, secret: Secret, sender: Address, height: uint32): Effect {
    if m.payer.Some? && m.secret.None? && ValidReveal(m, secret) && !TransferExpired(cfg, m, height)
    then SecretLearned(m, secret, sender, height)
    else Effect(m, 0, 0)
  }

  /** `setOnChainSecret`. */
  function KnownOnChain(m: Mediation, secret: Secret, eventHeight: uint32): Mediation {
    m.(secret := Some(secret),
       payer := if m.payer.Some? then
                  Some(RegisterOnChainSecret(m.payer.value, secret, m.secretHash, eventHeight)) else None,
       payee := if m.payee.Some? then
                  Some(RegisterOnChainSecret(m.payee.value, secret, m.secretHash, eventHeight)) else None)
  }

  /** `handleOnChainSecretReveal`: works with the height the event was emitted at. */
  ghost function HandleOnChainReveal(m: Mediation, secret: Secret, eventHeight: uint32): Effect {
    if ValidReveal(m, secret) then
      PayPayee(KnownOnChain(m, secret, eventHeight), secret, eventHeight)
    else Effect(m, 0, 0)
  }

  /** `eventsToRemoveExpiredLocks`. */
  ghost function RemoveExpired(cfg: Config, m: Mediation, height: uint32): Mediation {
    if m.payee.None? || !ExpiryReached(cfg, m.payee.value.our, m.secretHash, height) then m
    else
      var s := SendExpired(cfg, m.payee.value, m.secretHash, height);
      m.(payeeState := PayeeExpired, payee := if s.Sent? then Some(s.channel) else m.payee)
  }

  /** `eventsForOnChainSecretRevealIfDangerzone`. */
  function RevealIfDanger(m: Mediation, height: uint32): Effect {
    if PairPending(m) && m.payer.Some?
       && !IsSafeToWait(m.payerLock.expiration, m.payer.value.revealTimeout, height)
       && SecretKnown(m.payer.value.partner, m.secretHash)
    then
      Effect(m.(payerState := PayerWaitingSecretReveal), 0,
             if !RegistrationStarted(m) && MayReveal(m.payer.value) then 1 else 0)
    else Effect(m, 0, 0)
  }

  /** `eventsForExpiredPairs`. */
  function MarkExpired(cfg: Config, m: Mediation, height: uint32): Mediation {
    if PairPending(m) && m.payer.Some? && TransferExpired(cfg, m, height) then m.(payerState := PayerExpired) else m
  }

  /** `MdHandleBlock`. */
  ghost function HandleMediatorBlock(cfg: Config, m: Mediation, height: uint32): Effect {
    var danger := RevealIfDanger(RemoveExpired(cfg, m, height), height);
    Effect(MarkExpired(cfg, danger.m, height), 0, danger.registrations)
  }

  /** `handleUnlock`: the payer pays. */
  ghost function HandlePayerUnlock(cfg: Config, m: Mediation, msg: Message, height: uint32): Mediation {
    if m.payer.Some? && Accepts(cfg, m.payer.value, msg, height) then
      m.(payer := Some(Receive(cfg, m.payer.value, msg, height)), payerState := PayerBalanceProof)
    else m
  }

  /** `handleLockExpired`: marks the payer expired when the lock is still there afterwards. */
  ghost function HandlePayerExpired(cfg: Config, m: Mediation, msg: Message, height: uint32): Mediation {
    if m.payer.None? then m
    else
      var c := Receive(cfg, m.payer.value, msg, height);
      var m1 := m.(payer := Some(c));
      if GetLock(c.partner, m.secretHash).Some? then m1.(payerState := PayerExpired) else m1
  }

  // ----- starting -----

  /** `MdIsChannelUsable`; its last check, `IsValidAmount`, compares a wrapped sum and always passes. */
  ghost predicate IsChannelUsable(c: Channel, amount: uint64, lockTimeout: int) {
    && lockTimeout > 0
    && GetStatus(c) == Opened
    && c.settleTimeout >= lockTimeout
    && c.revealTimeout < lockTimeout
    && BelowPendingLimit(c.our)
    && amount <= GetDistributable(c.our, c.partner)
  }

  /** `forwardTransferPair` on the channel the route lookup chose. */
  ghost function Forward(payer: Channel, payee: Channel, lock: Lock, fees: FeeSchedule, height: uint32): Option<Mediation> {
    var lockTimeout := if lock.expiration > height then lock.expiration - height else 0;
    var amount := AmountWithoutFees(lock.amount, fees);
    if !IsChannelUsable(payee, lock.amount, lockTimeout) then None
    else
      var s := SendLocked(payee, amount, lock.expiration, lock.secretHash);
      if s.Refused? then None
      else Some(Mediation(lock.secretHash, lock, Lock(amount, lock.expiration, lock.secretHash), payee.partner.address,
                          None, PayerPending, PayeePending, Some(payer), Some(s.channel)))
  }

  /** The fee a mediator keeps when it forwards: the payee's lock has the payer's terms and its amount less that fee. */
  lemma ForwardCharges(payer: Channel, payee: Channel, lock: Lock, fees: FeeSchedule, height: uint32, fee: int)
    requires ScheduledFee(lock.amount, fees, fee) && fee <= MAX64
    ensures var f := Forward(payer, payee, lock, fees, height);
            f.Some? ==>
              && var (paid, taken) := (f.value.payeeLock, lock.amount - f.value.payeeLock.amount);
              && paid.expiration == lock.expiration && paid.secretHash == lock.secretHash
              && (if 5 * fee <= lock.amount then taken == fee else 5 * taken <= lock.amount < 5 * taken + 5)
              && f.value.payee.Some? && lock.secretHash in f.value.payee.value.our.locked
              && f.value.payee.value.our.locked[lock.secretHash] == paid
  {
    FeeCharged(lock.amount, fees, fee);
  }
}
