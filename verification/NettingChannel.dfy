/**
 The channel as the source holds it: two end-state objects whose lock tables, tree
 and proof the handlers update in place.  Every method is proved against the
 function of Channel or Lifecycle that specifies it.
 */
module NettingChannelState {
  import opened Prelude
  import opened Merkle
  import opened Channel
  import opened Lifecycle
  import Ledger

  lemma WrapAdd(x: int, y: int)
    ensures Wrap64(Wrap64(x) + y) == Wrap64(x + y)
  {
  }

  lemma SumStep(total: uint64, rest: map<Hash, Lock>, h: Hash)
    requires h in rest
    ensures Wrap64(Wrap64(total + rest[h].amount) + SumLocks(rest - {h})) == Wrap64(total + SumLocks(rest))
    ensures |rest - {h}| < |rest|
  {
    Ledger.SumRemove(rest, h);
    WrapAdd(total + rest[h].amount, SumLocks(rest - {h}));
    assert (rest - {h}).Keys == rest.Keys - {h};
  }

  /** One `Range` loop of `getAmountLocked`. */
  method SumTable(table: map<Hash, Lock>) returns (total: uint64)
    ensures total == Wrap64(SumLocks(table))
  {
    total := 0;
    var rest := table;
    while rest != map[]
      invariant Wrap64(total + SumLocks(rest)) == Wrap64(SumLocks(table))
      decreases |rest|
    {
      var h :| h in rest;
      SumStep(total, rest, h);
      total := Wrap64(total + rest[h].amount);
      rest := rest - {h};
    }
  }

  method SumProofs(table: map<Hash, PartialProof>) returns (total: uint64)
    ensures total == Wrap64(SumLocks(LocksOf(table)))
  {
    total := SumTable(map h | h in table :: table[h].lock);
  }

  lemma WrapThree(x: int, y: int, z: int)
    ensures Wrap64(Wrap64(x) + Wrap64(y) + Wrap64(z)) == Wrap64(x + y + z)
  {
    WrapAdd(x, Wrap64(y) + Wrap64(z));
    WrapAdd(y, x + Wrap64(z));
    WrapAdd(z, x + y);
  }

  lemma PushBelow(q: seq<Deposit>, d: Deposit, j: nat)
    requires 0 < j <= |q| && q[j - 1].height > d.height
    ensures Push(q[..j], d) + q[j..] == Push(q[..j - 1], d) + q[j - 1..]
  {
    assert q[..j][..j - 1] == q[..j - 1];
    assert [q[j - 1]] + q[j..] == q[j - 1..];
  }

  /** The proof that drops a lock from an end and pays `paid` of it. */
  ghost function RemovalProof(e: End, lock: Lock, paid: uint64, key: ChannelKey): BalanceProof
    requires e.tree != []
  {
    ProofWithout(e, lock, paid, key, AmountLocked(e))
  }

  function ProofWithout(e: End, lock: Lock, paid: uint64, key: ChannelKey, amountLocked: uint64): BalanceProof
    requires e.tree != []
  {
    BalanceProof(NextNonce(e), Wrap64(paid + Transferred(e)), Wrap64(amountLocked - lock.amount),
                 MerkleRoot(TreeWithout(e.tree, LockHash(lock))), key)
  }

  /** What the two validators of a lock's removal ask of the proof, given the amounts and the tree without it. */
  predicate MatchesRemoval(c: Channel, m: Message, lock: Lock, paid: uint64, current: uint64, without: Tree) {
    && UsableOnChain(c, m.proof, m.signed, c.partner)
    && m.proof.locksRoot == MerkleRoot(without)
    && m.proof.transferred == Wrap64(Transferred(c.partner) + paid)
    && m.proof.lockedAmount == Wrap64(current - lock.amount)
  }

  lemma UnlockMatches(c: Channel, m: Message)
    requires m.Unlock? && c.partner.tree != [] && GetLock(c.partner, SecretDigest(m.secret)).Some?
    ensures var lock := GetLock(c.partner, SecretDigest(m.secret)).value;
            ValidUnlock(c, m) <==>
              MatchesRemoval(c, m, lock, lock.amount, CurrentLocked(c.partner), TreeWithout(c.partner.tree, LockHash(lock)))
  {
  }

  lemma ExpiryMatches(cfg: Config, c: Channel, m: Message, height: uint32)
    requires m.LockExpired? && c.partner.tree != [] && m.secretHash in c.partner.locked
    ensures var lock := c.partner.locked[m.secretHash];
            ValidExpired(cfg, c, m, height) <==>
              && m.secretHash !in c.our.onChain
              && IsLockExpired(c.our, lock, height, ReceiverThreshold(cfg, lock))
              && MatchesRemoval(c, m, lock, 0, CurrentLocked(c.partner), TreeWithout(c.partner.tree, LockHash(lock)))
  {
  }

  class EndState {
    const address: Address
    var contractBalance: uint64
    var totalWithdraw: uint64
    var locked: map<Hash, Lock>
    var unlocked: map<Hash, PartialProof>
    var onChain: map<Hash, PartialProof>
    var tree: Tree
    var proof: Option<BalanceProof>

    function Value(): End
      reads this
    {
      End(address, contractBalance, totalWithdraw, locked, unlocked, onChain, tree, proof)
    }

    /** `NewNettingChannelEndState`. */
    constructor (address: Address, deposit: uint64)
      ensures Value() == End(address, deposit, 0, map[], map[], map[], EMPTY_TREE, None)
    {
      this.address := address;
      contractBalance, totalWithdraw := deposit, 0;
      locked, unlocked, onChain := map[], map[], map[];
      tree, proof := EMPTY_TREE, None;
    }

    /** `getAmountLocked`. */
    method GetAmountLocked() returns (amount: uint64)
      ensures amount == AmountLocked(Value())
    {
      var pending: int := SumTable(locked);
      var unclaimed: int := SumProofs(unlocked);
      var unclaimedOnChain: int := SumProofs(onChain);
      WrapThree(SumLocks(locked), SumLocks(LocksOf(unlocked)), SumLocks(LocksOf(onChain)));
      amount := Wrap64(pending + unclaimed + unclaimedOnChain);
    }

    method GetCurrentLocked() returns (amount: uint64)
      ensures amount == CurrentLocked(Value())
    {
      if proof.Some? {
        amount := GetAmountLocked();
      } else {
        amount := 0;
      }
    }

    method Adopt(p: BalanceProof, t: Tree)
      modifies this
      ensures Value() == old(Value()).(proof := Some(p), tree := t)
    {
      proof := Some(p);
      tree := t;
    }

    /** `DelUnclaimedLock`. */
    method DelUnclaimed(h: Hash)
      modifies this
      ensures Value() == DelUnclaimedLock(old(Value()), h)
    {
      locked := locked - {h};
      unlocked := unlocked - {h};
    }

    /** `DelLock`. */
    method Del(h: Hash)
      modifies this
      ensures Value() == DelLock(old(Value()), h)
    {
      if h in locked || h in unlocked || h in onChain {
        DelUnclaimed(h);
        onChain := onChain - {h};
      } else {
        assert locked - {h} == locked && unlocked - {h} == unlocked && onChain - {h} == onChain;
      }
    }

    /** `RegisterSecretEndState`. */
    method Register(secret: Secret, h: Hash)
      modifies this
      ensures Value() == RegisterSecret(old(Value()), secret, h)
    {
      if h in locked {
        var lock := locked[h];
        locked := locked - {h};
        unlocked := unlocked[h := PartialProof(lock, secret)];
      }
    }

    /** `RegisterOnChainSecretEndState`. */
    method RegisterFromChain(secret: Secret, h: Hash, height: uint32)
      modifies this
      ensures Value() == RegisterOnChain(old(Value()), secret, h, height)
    {
      var pending: Option<Lock> := None;
      if h in locked {
        pending := Some(locked[h]);
      }
      if h in unlocked {
        pending := Some(unlocked[h].lock);
      }
      if pending.Some? && pending.value.expiration >= height {
        Del(h);
        onChain := onChain[h := PartialProof(pending.value, secret)];
      }
    }
  }

  /** `GetDistributable`. */
  method Distributable(sender: EndState, receiver: EndState) returns (amount: uint64)
    ensures amount == GetDistributable(sender.Value(), receiver.Value())
  {
    var current := sender.GetCurrentLocked();
    var amountLocked: int := sender.GetAmountLocked();
    var balance: int := GetBalance(sender.Value(), receiver.Value());
    var overflowLimit := Wrap64(MAX64 - Transferred(sender.Value()) - current);
    var distributable := Wrap64(balance - amountLocked);
    amount := Min(overflowLimit, distributable);
  }

  class NettingChannel {
    const key: ChannelKey
    const revealTimeout: int
    const settleTimeout: int
    const our: EndState
    const partner: EndState
    var deposits: seq<Deposit>
    var closeTx: Option<Tx>
    var settleTx: Option<Tx>
    var updateTx: Option<Tx>

    function Value(): Channel
      reads this, our, partner
    {
      Channel(key, revealTimeout, settleTimeout, our.Value(), partner.Value(), deposits, closeTx, settleTx, updateTx)
    }

    ghost predicate Valid()
      reads our, partner
    {
      our != partner && our.tree != [] && partner.tree != []
    }

    constructor (key: ChannelKey, revealTimeout: int, settleTimeout: int, our: EndState, partner: EndState)
      requires our != partner && our.tree != [] && partner.tree != []
      ensures Valid()
      ensures Value() == Channel(key, revealTimeout, settleTimeout, our.Value(), partner.Value(), [], None, None, None)
    {
      this.key, this.revealTimeout, this.settleTimeout := key, revealTimeout, settleTimeout;
      this.our, this.partner := our, partner;
      deposits, closeTx, settleTx, updateTx := [], None, None, None;
    }

    // ----- sending -----

    /** `handleSendDirectTransfer`. */
    method HandleSendDirectTransfer(amount: uint64) returns (message: Option<Message>)
      requires Valid()
      modifies our
      ensures Valid()
      ensures var s := SendDirect(old(Value()), amount);
              if s.Sent? then Value() == s.channel && message == Some(s.message)
              else Value() == old(Value()) && message == None
    {
      var distributable := Distributable(our, partner);
      var current := our.GetCurrentLocked();
      var isOpen := GetStatus(Value()) == Opened;
      var isValid := amount > 0 && Wrap64(Transferred(our.Value()) + amount + current) < MAX64;
      if isOpen && isValid && amount <= distributable {
        var lockedAmount := our.GetAmountLocked();
        var p := BalanceProof(NextNonce(our.Value()), Wrap64(amount + Transferred(our.Value())), lockedAmount,
                              CurrentRoot(our.Value()), key);
        our.proof := Some(p);
        message := Some(Direct(p, true));
      } else {
        message := None;
      }
    }

    /** `sendLockedTransfer`. */
    method SendLockedTransfer(amount: uint64, expiration: uint32, secretHash: Hash) returns (message: Option<Message>)
      requires Valid()
      modifies our
      ensures Valid()
      ensures var s := SendLocked(old(Value()), amount, expiration, secretHash);
              if s.Sent? then Value() == s.channel && message == Some(s.message)
              else Value() == old(Value()) && message == None
    {
      message := None;
      var distributable := Distributable(our, partner);
      if |our.tree[0]| >= MAXIMUM_PENDING_TRANSFERS || amount > distributable || GetStatus(Value()) != Opened {
        return;
      }
      var lock := Lock(amount, expiration, secretHash);
      var tree := ComputeTreeWith(our.tree, LockHash(lock));
      if tree.None? {
        return;
      }
      var amountLocked := our.GetAmountLocked();
      var p := BalanceProof(NextNonce(our.Value()), Transferred(our.Value()), Wrap64(amountLocked + amount),
                            MerkleRoot(tree.value), key);
      our.Adopt(p, tree.value);
      our.locked := our.locked[secretHash := lock];
      message := Some(LockedTransfer(p, lock, true));
    }

    /** `createUnlock`: the proof and tree that drop a lock and may pay it. */
    method CreateUnlock(lock: Lock, paid: uint64) returns (p: BalanceProof, tree: Tree)
      requires our.tree != []
      ensures tree == TreeWithout(our.tree, LockHash(lock))
      ensures p == RemovalProof(our.Value(), lock, paid, key)
    {
      var amountLocked := our.GetAmountLocked();
      p := ProofWithout(our.Value(), lock, paid, key, amountLocked);
      tree := ComputeTreeWithout(our.tree, LockHash(lock));
    }

    /** `SendUnlock`. */
    method SendUnlockFor(secret: Secret, secretHash: Hash) returns (message: Option<Message>)
      requires Valid()
      modifies our
      ensures var s := SendUnlock(old(Value()), secret, secretHash);
              if s.Sent? then Value() == s.channel && message == Some(s.message)
              else Value() == old(Value()) && message == None
    {
      var found := GetLock(our.Value(), secretHash);
      if found.None? {
        return None;
      }
      var lock := found.value;
      var p, tree := CreateUnlock(lock, lock.amount);
      our.Adopt(p, tree);
      our.Del(lock.secretHash);
      message := Some(Unlock(p, secret, true));
    }

    /** `EventsForExpiredLock`. */
    method EventsForExpiredLock(lock: Lock) returns (message: Option<Message>)
      requires Valid()
      modifies our
      ensures var s := ExpireLock(old(Value()), lock);
              if s.Sent? then Value() == s.channel && message == Some(s.message)
              else Value() == old(Value()) && message == None
    {
      if our.proof.None? {
        return None;
      }
      var p, tree := CreateUnlock(lock, 0);
      our.Adopt(p, tree);
      our.DelUnclaimed(lock.secretHash);
      message := Some(LockExpired(p, lock.secretHash, true));
    }

    // ----- receiving -----

    /** `handleReceiveDirectTransfer`. */
    method HandleReceiveDirectTransfer(cfg: Config, m: Message, height: uint32) returns (accepted: bool)
      requires Valid() && m.Direct?
      modifies partner
      ensures Value() == Receive(cfg, old(Value()), m, height)
      ensures accepted == Accepts(cfg, old(Value()), m, height)
    {
      var current := partner.GetCurrentLocked();
      var distributable := Distributable(partner, our);
      var paid := Transferred(partner.Value());
      accepted := UsableOnChain(Value(), m.proof, m.signed, partner.Value())
                  && m.proof.locksRoot == CurrentRoot(partner.Value())
                  && m.proof.transferred > paid
                  && m.proof.lockedAmount == current
                  && Wrap64(m.proof.transferred - paid) <= distributable;
      if accepted {
        partner.proof := Some(m.proof);
      }
    }

    /** `ValidLockedTransferCheck`. */
    method CheckLockedTransfer(m: Message) returns (tree: Option<Tree>)
      requires Valid() && m.LockedTransfer?
      ensures tree.Some? == ValidLocked(Value(), m)
      ensures tree.Some? ==> tree == TreeWith(partner.tree, LockHash(m.lock))
    {
      tree := ComputeTreeWith(partner.tree, LockHash(m.lock));
      var current := partner.GetCurrentLocked();
      var distributable := Distributable(partner, our);
      if !(UsableOnChain(Value(), m.proof, m.signed, partner.Value())
           && tree.Some?
           && |tree.value[0]| <= MAXIMUM_PENDING_TRANSFERS
           && m.proof.locksRoot == MerkleRoot(tree.value)
           && m.proof.transferred == Transferred(partner.Value())
           && m.proof.lockedAmount == Wrap64(current + m.lock.amount)
           && m.lock.amount <= distributable
           && m.lock.secretHash != 0)
      {
        tree := None;
      }
    }

    /** `HandleReceiveLockedTransfer`. */
    method HandleReceiveLockedTransfer(cfg: Config, m: Message, height: uint32) returns (accepted: bool)
      requires Valid() && m.LockedTransfer?
      modifies partner
      ensures Value() == Receive(cfg, old(Value()), m, height)
      ensures accepted == Accepts(cfg, old(Value()), m, height)
    {
      var tree := CheckLockedTransfer(m);
      accepted := tree.Some?;
      if accepted {
        partner.Adopt(m.proof, tree.value);
        partner.locked := partner.locked[m.lock.secretHash := m.lock];
      }
    }

    /** `IsValidUnlock`. */
    method CheckUnlock(m: Message) returns (tree: Option<Tree>)
      requires Valid() && m.Unlock?
      ensures tree.Some? == ValidUnlock(Value(), m)
      ensures tree.Some? ==>
                tree.value == TreeWithout(partner.tree, LockHash(GetLock(partner.Value(), SecretDigest(m.secret)).value))
    {
      var found := GetLock(partner.Value(), SecretDigest(m.secret));
      if found.None? {
        return None;
      }
      var c, lock := Value(), found.value;
      var current := partner.GetCurrentLocked();
      var without := ComputeTreeWithout(partner.tree, LockHash(lock));
      UnlockMatches(c, m);
      if MatchesRemoval(c, m, lock, lock.amount, current, without) {
        tree := Some(without);
      } else {
        tree := None;
      }
    }

    /** `HandleUnlock`. */
    method HandleUnlock(cfg: Config, m: Message, height: uint32) returns (accepted: bool)
      requires Valid() && m.Unlock?
      modifies partner
      ensures Value() == Receive(cfg, old(Value()), m, height)
      ensures accepted == Accepts(cfg, old(Value()), m, height)
    {
      var tree := CheckUnlock(m);
      accepted := tree.Some?;
      if accepted {
        partner.Adopt(m.proof, tree.value);
        partner.Del(SecretDigest(m.secret));
      }
    }

    /** `IsValidLockExpired`. */
    method CheckLockExpired(cfg: Config, m: Message, height: uint32) returns (tree: Option<Tree>)
      requires Valid() && m.LockExpired?
      ensures tree.Some? == ValidExpired(cfg, Value(), m, height)
      ensures tree.Some? ==> tree.value == TreeWithout(partner.tree, LockHash(partner.locked[m.secretHash]))
    {
      if m.secretHash !in partner.locked {
        return None;
      }
      var c, lock := Value(), partner.locked[m.secretHash];
      var current := partner.GetCurrentLocked();
      var without := ComputeTreeWithout(partner.tree, LockHash(lock));
      ExpiryMatches(cfg, c, m, height);
      if m.secretHash !in c.our.onChain
         && IsLockExpired(c.our, lock, height, ReceiverThreshold(cfg, lock))
         && MatchesRemoval(c, m, lock, 0, current, without)
      {
        tree := Some(without);
      } else {
        tree := None;
      }
    }

    /** `handleReceiveLockExpired`. */
    method HandleReceiveLockExpired(cfg: Config, m: Message, height: uint32) returns (accepted: bool)
      requires Valid() && m.LockExpired?
      modifies partner
      ensures Value() == Receive(cfg, old(Value()), m, height)
      ensures accepted == Accepts(cfg, old(Value()), m, height)
    {
      var tree := CheckLockExpired(cfg, m, height);
      accepted := tree.Some?;
      if accepted {
        partner.Adopt(m.proof, tree.value);
        partner.DelUnclaimed(m.secretHash);
      }
    }

    // ----- the chain -----

    method ApplyNewBalance(d: Deposit)
      requires Valid()
      modifies our, partner
      ensures Valid() && Value() == ApplyDeposit(old(Value()), d)
    {
      if d.participant == our.address {
        if d.balance > our.contractBalance {
          our.contractBalance := d.balance;
        }
      } else if d.participant == partner.address {
        if d.balance > partner.contractBalance {
          partner.contractBalance := d.balance;
        }
      }
    }

    /** `handleBlock`, with its drain loop. */
    method HandleNewBlock(cfg: Config, height: uint32) returns (outputs: seq<Output>)
      requires Valid()
      modifies this, our, partner
      ensures Value() == HandleBlock(cfg, old(Value()), height).channel
      ensures outputs == HandleBlock(cfg, old(Value()), height).outputs
    {
      outputs := [];
      if GetStatus(Value()) == Closed {
        var settlementEnd := Wrap32(closeTx.value.finished + settleTimeout);
        if height > settlementEnd && settleTx.None? {
          settleTx := Some(Tx(height, 0, NoResult));
          outputs := [SendSettle];
        }
      }
      ghost var goal := Drain(cfg, Value(), height);
      while |deposits| > 0 && Confirmed(cfg, deposits[0].height, height)
        invariant Valid()
        invariant Drain(cfg, Value(), height) == goal
        decreases |deposits|
      {
        var first := deposits[0];
        deposits := deposits[1..];
        ApplyNewBalance(first);
      }
    }

    /** `EventsForClose`. */
    method EventsForClose(height: uint32) returns (outputs: seq<Output>)
      requires Valid()
      modifies this`closeTx
      ensures Value() == CloseChannel(old(Value()), height).channel
      ensures outputs == CloseChannel(old(Value()), height).outputs
    {
      outputs := [];
      var status := GetStatus(Value());
      if status == Opened || status == Closing {
        closeTx := Some(Tx(height, 0, NoResult));
        outputs := [SendClose(partner.proof)];
      }
    }

    /** `handleChannelClosed`. */
    method HandleChannelClosed(channelId: nat, from: Address, height: uint32) returns (outputs: seq<Output>)
      requires Valid()
      modifies this`closeTx, this`updateTx
      ensures Value() == ChannelClosed(old(Value()), channelId, from, height).channel
      ensures outputs == ChannelClosed(old(Value()), channelId, from, height).outputs
    {
      outputs := [];
      var status := GetStatus(Value());
      if channelId == key.channelId && (status == Opened || status == Closing) {
        if closeTx.None? {
          closeTx := Some(Tx(0, height, Success));
        } else if closeTx.value.finished == 0 {
          closeTx := Some(closeTx.value.(finished := height, result := Success));
        }
        if from != our.address && partner.proof.Some? && updateTx.None? {
          updateTx := Some(Tx(height, 0, NoResult));
          outputs := [SendUpdate(partner.proof)];
        }
      }
    }

    /** `Push` of the deposit queue: the new entry sinks below the later ones. */
    method PushDeposit(d: Deposit)
      modifies this`deposits
      ensures deposits == Push(old(deposits), d)
    {
      var q := deposits;
      var j := |q|;
      assert q[..j] == q && Push(q, d) + q[j..] == Push(q, d);
      while j > 0 && q[j - 1].height > d.height
        invariant 0 <= j <= |q|
        invariant Push(q, d) == Push(q[..j], d) + q[j..]
      {
        PushBelow(q, d, j);
        j := j - 1;
      }
      assert Push(q[..j], d) == q[..j] + [d];
      deposits := q[..j] + [d] + q[j..];
    }

    /** `handleChannelNewBalance`. */
    method HandleChannelNewBalance(cfg: Config, d: Deposit, height: uint32)
      requires Valid()
      modifies this`deposits, our, partner
      ensures Valid() && Value() == NewBalance(cfg, old(Value()), d, height)
    {
      if Confirmed(cfg, d.height, height) {
        ApplyNewBalance(d);
      } else {
        PushDeposit(d);
      }
    }

    /** `handleChannelWithdraw`. */
    method HandleChannelWithdraw(participant: Address, total: uint64)
      requires Valid()
      modifies our, partner
      ensures Valid() && Value() == Withdrawn(old(Value()), participant, total)
    {
      if participant == our.address {
        our.totalWithdraw := total;
      } else {
        partner.totalWithdraw := total;
      }
    }

    // ----- secrets -----

    /** `RegisterOffChainSecret`. */
    method RegisterOffChain(secret: Secret, h: Hash)
      requires Valid()
      modifies our, partner
      ensures Valid() && Value() == RegisterOffChainSecret(old(Value()), secret, h)
    {
      our.Register(secret, h);
      partner.Register(secret, h);
    }

    /** `RegisterOnChainSecret`. */
    method RegisterOnChain(secret: Secret, h: Hash, height: uint32)
      requires Valid()
      modifies our, partner
      ensures Valid() && Value() == RegisterOnChainSecret(old(Value()), secret, h, height)
    {
      our.RegisterFromChain(secret, h, height);
      partner.RegisterFromChain(secret, h, height);
    }

    /** The guard of `eventsToRemoveExpiredLocks` around `EventsForExpiredLock`. */
    method ExpireIfDue(cfg: Config, h: Hash, height: uint32) returns (due: bool, message: Option<Message>)
      requires Valid()
      modifies our
      ensures due == ExpiryReached(cfg, old(our.Value()), h, height)
      ensures var s := SendExpired(cfg, old(Value()), h, height);
              if s.Sent? then Value() == s.channel && message == Some(s.message)
              else Value() == old(Value()) && message == None
    {
      if h !in our.locked && h !in our.unlocked {
        return false, None;
      }
      var lock := if h in our.unlocked then our.unlocked[h].lock else our.locked[h];
      if !IsLockExpired(our.Value(), lock, height, SenderThreshold(cfg, lock)) {
        return false, None;
      }
      due := true;
      message := EventsForExpiredLock(lock);
    }

    // ----- cooperative settlement -----

    /** `calculateCooperativeSettleBalance`. */
    method SettleBalance(end: EndState, other: EndState) returns (balance: uint64)
      ensures balance == CoopBalance(end.Value(), other.Value())
    {
      var lockedByOther: int := other.GetCurrentLocked();
      var lockedByEnd: int := end.GetCurrentLocked();
      balance := Wrap64(end.contractBalance - end.totalWithdraw + Transferred(other.Value()) - Transferred(end.Value())
                        + lockedByOther - lockedByEnd);
    }

    /** `handleSendCooperativeSettleRequest`. */
    method HandleSendCoopRequest() returns (request: Option<CoopMessage>)
      modifies this`settleTx
      ensures Value() == SendCoopRequest(old(Value()))
      ensures request == if GetStatus(old(Value())) == Opened then Some(CoopRequest(old(Value()))) else None
    {
      if GetStatus(Value()) != Opened {
        return None;
      }
      var ourBalance := SettleBalance(our, partner);
      var partnerBalance := SettleBalance(partner, our);
      request := Some(CoopMessage(our.address, ourBalance, partner.address, partnerBalance, our.address, true, 0, false));
      settleTx := ONGOING;
    }

    /** `handleCooperativeSettleRequestReceived`. */
    method HandleCoopRequest(m: CoopMessage) returns (reply: Option<CoopMessage>)
      modifies this`settleTx
      ensures Value() == ReceiveCoopRequest(old(Value()), m)
      ensures reply == if ValidCoopRequest(old(Value()), m) then Some(CoopReply(old(Value()), m)) else None
    {
      var ourBalance := SettleBalance(our, partner);
      var partnerBalance := SettleBalance(partner, our);
      if GetStatus(Value()) == Opened
         && partner.address == m.participant1 && our.address == m.participant2 && m.participant1 == m.signer1
         && ourBalance == m.balance2 && partnerBalance == m.balance1 && m.signed1
      {
        reply := Some(m.(signer2 := our.address, signed2 := true));
        settleTx := ONGOING;
      } else {
        reply := None;
      }
    }

    /** `handleCooperativeSettleReceived`. */
    method HandleCoopReply(m: CoopMessage) returns (accepted: bool)
      modifies this`settleTx
      ensures Value() == ReceiveCoopReply(old(Value()), m)
      ensures accepted == ValidCoopReply(old(Value()), m)
    {
      var ourBalance := SettleBalance(our, partner);
      var partnerBalance := SettleBalance(partner, our);
      accepted := GetStatus(Value()) == Settling
                  && our.address == m.participant1 && partner.address == m.participant2
                  && m.participant1 == m.signer1 && m.participant2 == m.signer2
                  && ourBalance == m.balance1 && partnerBalance == m.balance2 && m.signed1 && m.signed2;
      if !accepted {
        settleTx := None;
      }
    }
  }
}
