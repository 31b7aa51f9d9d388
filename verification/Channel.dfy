/**
 One node's view of a bilateral netting channel (transfer/state.go,
 transfer/channel.go) and what each handler of the node does to it.

 Signature checks are the boolean `signed` that a message carries; SHA-256 of a
 secret and of a packed lock are uninterpreted constants.
 */
module Channel {
  import opened Prelude
  import opened Merkle

  type Secret = seq<nat>

  const SecretDigest: Secret -> Hash
  const LockDigest: (uint32, uint64, Hash) -> Hash

  const MAXIMUM_PENDING_TRANSFERS: nat := 160

  /** The two settable block counts of common/config.go. */
  datatype Config = Config(confirmBlockCount: nat, maxBlockDelay: nat)

  datatype Lock = Lock(amount: uint64, expiration: uint32, secretHash: Hash)

  datatype PartialProof = PartialProof(lock: Lock, secret: Secret)

  datatype ChannelKey = ChannelKey(channelId: nat, tokenNetwork: Address, chainId: int)

  datatype BalanceProof = BalanceProof(nonce: uint64, transferred: uint64, lockedAmount: uint64,
                                       locksRoot: Hash, key: ChannelKey)

  datatype End = End(address: Address, contractBalance: uint64, totalWithdraw: uint64,
                     locked: map<Hash, Lock>,
                     unlocked: map<Hash, PartialProof>,
                     onChain: map<Hash, PartialProof>,
                     tree: Tree, proof: Option<BalanceProof>)

  datatype TxResult = NoResult | Success | Failure

  datatype Tx = Tx(started: uint32, finished: uint32, result: TxResult)

  datatype Status = Opened | Closing | Closed | Settling | Settled | Unusable

  datatype Deposit = Deposit(participant: Address, balance: uint64, height: uint32)

  datatype Channel = Channel(key: ChannelKey, revealTimeout: int, settleTimeout: int,
                             our: End, partner: End, deposits: seq<Deposit>,
                             closeTx: Option<Tx>, settleTx: Option<Tx>, updateTx: Option<Tx>)

  datatype Message =
    | Direct(proof: BalanceProof, signed: bool)
    | LockedTransfer(proof: BalanceProof, lock: Lock, signed: bool)
    | Unlock(proof: BalanceProof, secret: Secret, signed: bool)
    | LockExpired(proof: BalanceProof, secretHash: Hash, signed: bool)

  datatype Sent = Refused | Sent(channel: Channel, message: Message)

  function LockHash(lock: Lock): Hash {
    LockDigest(lock.expiration, lock.amount, lock.secretHash)
  }

  // ----- lock tables -----

  ghost function LocksOf(table: map<Hash, PartialProof>): map<Hash, Lock> {
    map h | h in table :: table[h].lock
  }

  /** The three tables as one; the order gives `GetLock` its priority. */
  ghost function Pending(e: End): map<Hash, Lock> {
    LocksOf(e.onChain) + LocksOf(e.unlocked) + e.locked
  }

  /** `GetLock`. */
  function GetLock(e: End, h: Hash): Option<Lock> {
    if h in e.locked then Some(e.locked[h])
    else if h in e.unlocked then Some(e.unlocked[h].lock)
    else if h in e.onChain then Some(e.onChain[h].lock)
    else None
  }

  function DelUnclaimedLock(e: End, h: Hash): End {
    e.(locked := e.locked - {h}, unlocked := e.unlocked - {h})
  }

  function DelLock(e: End, h: Hash): End {
    e.(locked := e.locked - {h}, unlocked := e.unlocked - {h}, onChain := e.onChain - {h})
  }

  ghost function SumLocks(m: map<Hash, Lock>): nat
    decreases |m|
  {
    if m == map[] then 0
    else
      var h :| h in m;
      m[h].amount + SumLocks(m - {h})
  }

  /** `getAmountLocked`: the three totals, added with wrap-around. */
  ghost function AmountLocked(e: End): uint64 {
    Wrap64(SumLocks(e.locked) + SumLocks(LocksOf(e.unlocked)) + SumLocks(LocksOf(e.onChain)))
  }

  // ----- balance arithmetic -----

  function Transferred(e: End): uint64 {
    if e.proof.Some? then e.proof.value.transferred else 0
  }

  /** The locked amount that `getCurrentBalanceProof` reports. */
  ghost function CurrentLocked(e: End): uint64 {
    if e.proof.Some? then AmountLocked(e) else 0
  }

  function CurrentRoot(e: End): Hash {
    if e.proof.Some? then e.proof.value.locksRoot else 0
  }

  function NextNonce(e: End): uint64 {
    if e.proof.Some? then Wrap64(e.proof.value.nonce + 1) else 1
  }

  function GetBalance(sender: End, receiver: End): uint64 {
    Wrap64(sender.contractBalance - sender.totalWithdraw - Transferred(sender) + Transferred(receiver))
  }

  ghost function GetDistributable(sender: End, receiver: End): uint64 {
    var overflowLimit := Wrap64(MAX64 - Transferred(sender) - CurrentLocked(sender));
    Min(overflowLimit, Wrap64(GetBalance(sender, receiver) - AmountLocked(sender)))
  }

  function GetStatus(c: Channel): Status {
    if c.settleTx.Some? then
      if c.settleTx.value.result == Success then Settled
      else if c.settleTx.value.finished == 0 then Settling
      else Unusable
    else if c.closeTx.Some? then
      if c.closeTx.value.result == Success then Closed
      else if c.closeTx.value.finished == 0 then Closing
      else Unusable
    else Opened
  }

  // ----- sending -----

  /** `handleSendDirectTransfer` with `sendDirectTransfer`. */
  ghost function SendDirect(c: Channel, amount: uint64): Sent {
    var e := c.our;
    if GetStatus(c) == Opened && amount > 0
       && Wrap64(Transferred(e) + amount + CurrentLocked(e)) < MAX64
       && amount <= GetDistributable(e, c.partner)
    then
      var p := BalanceProof(NextNonce(e), Wrap64(amount + Transferred(e)), AmountLocked(e), CurrentRoot(e), c.key);
      Sent(c.(our := e.(proof := Some(p))), Direct(p, true))
    else Refused
  }

  /** The limit that `InitNextChannelFromRoutes` and `MdIsChannelUsable` check before a lock is sent. */
  predicate BelowPendingLimit(e: End) {
    e.tree != [] && |e.tree[0]| < MAXIMUM_PENDING_TRANSFERS
  }

  /**
   `sendLockedTransfer` on a channel its callers found usable.  A lock hash that is
   already a leaf has no new tree; the source dereferences that nil tree.
   */
  ghost function SendLocked(c: Channel, amount: uint64, expiration: uint32, secretHash: Hash): Sent {
    var e := c.our;
    var lock := Lock(amount, expiration, secretHash);
    if BelowPendingLimit(e) && amount <= GetDistributable(e, c.partner) && GetStatus(c) == Opened
       && TreeWith(e.tree, LockHash(lock)).Some?
    then
      var tree := TreeWith(e.tree, LockHash(lock)).value;
      var p := BalanceProof(NextNonce(e), Transferred(e), Wrap64(AmountLocked(e) + amount), MerkleRoot(tree), c.key);
      var our := e.(proof := Some(p), tree := tree, locked := e.locked[secretHash := lock]);
      Sent(c.(our := our), LockedTransfer(p, lock, true))
    else Refused
  }

  /** `SendUnlock`. */
  ghost function SendUnlock(c: Channel, secret: Secret, secretHash: Hash): Sent {
    var e := c.our;
    if GetLock(e, secretHash).None? || e.tree == [] then Refused
    else
      var lock := GetLock(e, secretHash).value;
      var tree := TreeWithout(e.tree, LockHash(lock));
      var p := BalanceProof(NextNonce(e), Wrap64(lock.amount + Transferred(e)),
                            Wrap64(AmountLocked(e) - lock.amount), MerkleRoot(tree), c.key);
      Sent(c.(our := DelLock(e.(proof := Some(p), tree := tree), lock.secretHash)), Unlock(p, secret, true))
  }

  /** `IsLockExpired`. */
  predicate IsLockExpired(e: End, lock: Lock, height: uint32, threshold: uint32) {
    lock.secretHash !in e.onChain && height >= threshold
  }

  function SenderThreshold(cfg: Config, lock: Lock): uint32 {
    Wrap32(lock.expiration + 2 * cfg.confirmBlockCount)
  }

  function ReceiverThreshold(cfg: Config, lock: Lock): uint32 {
    Wrap32(lock.expiration + cfg.confirmBlockCount - cfg.maxBlockDelay)
  }

  /** `EventsForExpiredLock`. */
  ghost function ExpireLock(c: Channel, lock: Lock): Sent {
    var e := c.our;
    if e.proof.None? || e.tree == [] then Refused
    else
      var tree := TreeWithout(e.tree, LockHash(lock));
      var p := BalanceProof(NextNonce(e), Transferred(e), Wrap64(AmountLocked(e) - lock.amount),
                            MerkleRoot(tree), c.key);
      Sent(c.(our := DelUnclaimedLock(e.(proof := Some(p), tree := tree), lock.secretHash)),
           LockExpired(p, lock.secretHash, true))
  }

  /** The guard of `eventsToRemoveExpiredLocks`; `InitHandleBlock` tests the locked table only. */
  ghost function SendExpired(cfg: Config, c: Channel, secretHash: Hash, height: uint32): Sent {
    if !ExpiryReached(cfg, c.our, secretHash, height) then Refused
    else ExpireLock(c, UnclaimedLock(c.our, secretHash))
  }

  function UnclaimedLock(e: End, secretHash: Hash): Lock
    requires secretHash in e.locked || secretHash in e.unlocked
  {
    if secretHash in e.unlocked then e.unlocked[secretHash].lock else e.locked[secretHash]
  }

  predicate ExpiryReached(cfg: Config, e: End, secretHash: Hash, height: uint32) {
    && (secretHash in e.locked || secretHash in e.unlocked)
    && var lock := UnclaimedLock(e, secretHash);
       IsLockExpired(e, lock, height, SenderThreshold(cfg, lock))
  }

  // ----- receiving -----

  /** `IsBalanceProofSafeForOnchainOperations`: the sum wraps before it is compared. */
  predicate SafeForOnChain(p: BalanceProof) {
    Wrap64(p.transferred + p.lockedAmount) <= MAX64
  }

  /** `IsBalanceProofUsableOnChain`. */
  predicate UsableOnChain(c: Channel, p: BalanceProof, signed: bool, sender: End) {
    && signed
    && GetStatus(c) == Opened
    && p.key == c.key
    && SafeForOnChain(p)
    && p.nonce == NextNonce(sender)
  }

  /** `IsValidDirectTransfer`. */
  ghost predicate ValidDirect(c: Channel, m: Message)
    requires m.Direct?
  {
    var e := c.partner;
    && UsableOnChain(c, m.proof, m.signed, e)
    && m.proof.locksRoot == CurrentRoot(e)
    && m.proof.transferred > Transferred(e)
    && m.proof.lockedAmount == CurrentLocked(e)
    && Wrap64(m.proof.transferred - Transferred(e)) <= GetDistributable(e, c.our)
  }

  /** `ValidLockedTransferCheck`. */
  ghost predicate ValidLocked(c: Channel, m: Message)
    requires m.LockedTransfer?
  {
    var e := c.partner;
    && e.tree != []
    && UsableOnChain(c, m.proof, m.signed, e)
    && TreeWith(e.tree, LockHash(m.lock)).Some?
    && var tree := TreeWith(e.tree, LockHash(m.lock)).value;
       && |tree[0]| <= MAXIMUM_PENDING_TRANSFERS
       && m.proof.locksRoot == MerkleRoot(tree)
       && m.proof.transferred == Transferred(e)
       && m.proof.lockedAmount == Wrap64(CurrentLocked(e) + m.lock.amount)
       && m.lock.amount <= GetDistributable(e, c.our)
       && m.lock.secretHash != 0
  }

  /** `IsValidUnlock`. */
  ghost predicate ValidUnlock(c: Channel, m: Message)
    requires m.Unlock?
  {
    var e := c.partner;
    && e.tree != []
    && GetLock(e, SecretDigest(m.secret)).Some?
    && var lock := GetLock(e, SecretDigest(m.secret)).value;
       && UsableOnChain(c, m.proof, m.signed, e)
       && m.proof.locksRoot == MerkleRoot(TreeWithout(e.tree, LockHash(lock)))
       && m.proof.transferred == Wrap64(Transferred(e) + lock.amount)
       && m.proof.lockedAmount == Wrap64(CurrentLocked(e) - lock.amount)
  }

  /** `IsValidLockExpired`: a lock outside the locked table is refused before anything else. */
  ghost predicate ValidExpired(cfg: Config, c: Channel, m: Message, height: uint32)
    requires m.LockExpired?
  {
    var e := c.partner;
    && e.tree != []
    && m.secretHash in e.locked
    && m.secretHash !in c.our.onChain
    && var lock := e.locked[m.secretHash];
       && UsableOnChain(c, m.proof, m.signed, e)
       && IsLockExpired(c.our, lock, height, ReceiverThreshold(cfg, lock))
       && m.proof.locksRoot == MerkleRoot(TreeWithout(e.tree, LockHash(lock)))
       && m.proof.transferred == Transferred(e)
       && m.proof.lockedAmount == Wrap64(CurrentLocked(e) - lock.amount)
  }

  ghost predicate Accepts(cfg: Config, c: Channel, m: Message, height: uint32) {
    match m
    case Direct(_, _) => ValidDirect(c, m)
    case LockedTransfer(_, _, _) => ValidLocked(c, m)
    case Unlock(_, _, _) => ValidUnlock(c, m)
    case LockExpired(_, _, _) => ValidExpired(cfg, c, m, height)
  }

  /** What a valid message installs in the partner's end. */
  function Install(e: End, m: Message): End
    requires e.tree != []
  {
    match m
    case Direct(p, _) => e.(proof := Some(p))
    case LockedTransfer(p, lock, _) =>
      var tree := TreeWith(e.tree, LockHash(lock));
      e.(proof := Some(p), tree := if tree.Some? then tree.value else e.tree,
         locked := e.locked[lock.secretHash := lock])
    case Unlock(p, secret, _) =>
      var h := SecretDigest(secret);
      var tree := if GetLock(e, h).Some? then TreeWithout(e.tree, LockHash(GetLock(e, h).value)) else e.tree;
      DelLock(e.(proof := Some(p), tree := tree), h)
    case LockExpired(p, h, _) =>
      var tree := if h in e.locked then TreeWithout(e.tree, LockHash(e.locked[h])) else e.tree;
      DelUnclaimedLock(e.(proof := Some(p), tree := tree), h)
  }

  ghost function Receive(cfg: Config, c: Channel, m: Message, height: uint32): Channel {
    if Accepts(cfg, c, m, height) && c.partner.tree != [] then c.(partner := Install(c.partner, m)) else c
  }

  // ----- secrets -----

  /** `RegisterSecretEndState`. */
  function RegisterSecret(e: End, secret: Secret, h: Hash): End {
    if h in e.locked then
      e.(locked := e.locked - {h}, unlocked := e.unlocked[h := PartialProof(e.locked[h], secret)])
    else e
  }

  /** `RegisterOnChainSecretEndState` with `deleteLock`, as every caller passes it. */
  function RegisterOnChain(e: End, secret: Secret, h: Hash, height: uint32): End {
    if h !in e.locked && h !in e.unlocked then e
    else
      var lock := if h in e.unlocked then e.unlocked[h].lock else e.locked[h];
      if lock.expiration < height then e
      else
        var cleared := DelLock(e, h);
        cleared.(onChain := cleared.onChain[h := PartialProof(lock, secret)])
  }

  function RegisterOffChainSecret(c: Channel, secret: Secret, h: Hash): Channel {
    c.(our := RegisterSecret(c.our, secret, h), partner := RegisterSecret(c.partner, secret, h))
  }

  function RegisterOnChainSecret(c: Channel, secret: Secret, h: Hash, height: uint32): Channel {
    c.(our := RegisterOnChain(c.our, secret, h, height), partner := RegisterOnChain(c.partner, secret, h, height))
  }
}
