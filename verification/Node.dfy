/** Whole runs of one node's channel: what every reachable state satisfies. */
module Node {
  import opened Prelude
  import opened Merkle
  import opened Channel
  import opened Ledger
  import opened Agreement
  import opened Lifecycle

  datatype Event =
    | DoDirect(amount: uint64)
    | DoLocked(lockAmount: uint64, expiration: uint32, secretHash: Hash)
    | DoUnlock(secret: Secret)
    | DoExpire(expired: Hash, at: uint32)
    | Get(message: Message, at: uint32)
    | LearnOffChain(offChain: Secret, offChainHash: Hash)
    | LearnOnChain(onChain: Secret, onChainHash: Hash, revealedAt: uint32)
    | NewBlock(at: uint32)
    | NewDeposit(deposit: Deposit, at: uint32)
    | NewWithdraw(participant: Address, total: uint64)
    | DoClose(at: uint32)
    | ChainClosed(channelId: nat, from: Address, at: uint32)
    | ChainUpdated(channelId: nat)
    | DoCoopSettle
    | GetCoopRequest(coop: CoopMessage)
    | GetCoopReply(coop: CoopMessage)

  ghost function After(c: Channel, s: Sent): Channel {
    if s.Sent? then s.channel else c
  }

  ghost function Step(cfg: Config, c: Channel, ev: Event): Channel {
    match ev
    case DoDirect(amount) => After(c, SendDirect(c, amount))
    case DoLocked(amount, expiration, h) => After(c, SendLocked(c, amount, expiration, h))
    case DoUnlock(secret) => After(c, SendUnlock(c, secret, SecretDigest(secret)))
    case DoExpire(h, at) => After(c, SendExpired(cfg, c, h, at))
    case Get(m, at) => Receive(cfg, c, m, at)
    case LearnOffChain(secret, h) => RegisterOffChainSecret(c, secret, h)
    case LearnOnChain(secret, h, at) => RegisterOnChainSecret(c, secret, h, at)
    case NewBlock(at) => HandleBlock(cfg, c, at).channel
    case NewDeposit(d, at) => NewBalance(cfg, c, d, at)
    case NewWithdraw(p, total) => Withdrawn(c, p, total)
    case DoClose(at) => CloseChannel(c, at).channel
    case ChainClosed(id, from, at) => ChannelClosed(c, id, from, at).channel
    case ChainUpdated(id) => UpdatedTransfer(c, id)
    case DoCoopSettle => SendCoopRequest(c)
    case GetCoopRequest(m) => ReceiveCoopRequest(c, m)
    case GetCoopReply(m) => ReceiveCoopReply(c, m)
  }

  /** A new lock's secret hash is nonzero and not already pending on its end. */
  ghost predicate FreshLocks(c: Channel, ev: Event) {
    match ev
    case DoLocked(_, _, h) => h != 0 && h !in Pending(c.our)
    case Get(m, _) => Fresh(c.partner, m)
    case _ => true
  }

  /** The largest deposits the two parties ever make; together they fit a word. */
  datatype Caps = Caps(our: nat, partner: nat)

  ghost predicate WithinCaps(caps: Caps, c: Channel, d: Deposit) {
    && (d.participant == c.our.address ==> d.balance <= caps.our)
    && (d.participant != c.our.address && d.participant == c.partner.address ==> d.balance <= caps.partner)
  }

  /** Deposits stay within the caps; a withdraw event finds its tokens still free. */
  ghost predicate HonestChain(caps: Caps, c: Channel, ev: Event) {
    match ev
    case NewDeposit(d, _) => WithinCaps(caps, c, d)
    case NewWithdraw(p, total) =>
      if p == c.our.address then StillFree(c.our, c.partner, total) else StillFree(c.partner, c.our, total)
    case _ => true
  }

  ghost predicate NewEnd(e: End) {
    && e.totalWithdraw == 0 && e.locked == map[] && e.unlocked == map[] && e.onChain == map[]
    && e.tree == EMPTY_TREE && e.proof == None
  }

  ghost predicate Initial(c: Channel) {
    && NewEnd(c.our) && NewEnd(c.partner) && c.deposits == []
    && c.closeTx == None && c.settleTx == None && c.updateTx == None
  }

  ghost predicate IsRun(cfg: Config, run: seq<Channel>, events: seq<Event>) {
    && |run| == |events| + 1
    && Initial(run[0])
    && forall i :: 0 <= i < |events| ==> FreshLocks(run[i], events[i]) && run[i + 1] == Step(cfg, run[i], events[i])
  }

  // ----- ledger agreement and the overflow bound, with no assumption on the chain -----

  ghost predicate EndsValid(c: Channel) {
    EndValid(c.our) && EndValid(c.partner)
  }

  lemma NewEndValid(e: End)
    requires NewEnd(e)
    ensures EndValid(e) && Outstanding(ViewOf(e)) == 0
  {
    assert Pending(e) == map[];
    assert HashesOf(Pending(e)) == {} == Leaves(e.tree);
  }

  /** Two end states that differ only in their chain figures. */
  ghost predicate SameBooks(e: End, f: End) {
    && f.locked == e.locked && f.unlocked == e.unlocked && f.onChain == e.onChain
    && f.tree == e.tree && f.proof == e.proof && f.address == e.address
  }

  lemma SameBooksValid(e: End, f: End)
    requires SameBooks(e, f)
    ensures Pending(f) == Pending(e) && ViewOf(f) == ViewOf(e)
    ensures EndValid(e) <==> EndValid(f)
  {
  }

  lemma {:induction false} DrainKeepsBooks(cfg: Config, c: Channel, height: uint32)
    ensures var d := Drain(cfg, c, height);
            && SameBooks(c.our, d.our) && SameBooks(c.partner, d.partner)
            && d.our.totalWithdraw == c.our.totalWithdraw && d.partner.totalWithdraw == c.partner.totalWithdraw
            && d.our.contractBalance >= c.our.contractBalance
            && d.partner.contractBalance >= c.partner.contractBalance
            && d == c.(our := d.our, partner := d.partner, deposits := d.deposits)
    decreases |c.deposits|
  {
    if c.deposits != [] && Confirmed(cfg, c.deposits[0].height, height) {
      DrainKeepsBooks(cfg, ApplyDeposit(c.(deposits := c.deposits[1..]), c.deposits[0]), height);
    }
  }

  /** The events that leave both books as they are. */
  predicate KeepsBooks(ev: Event) {
    !ev.DoDirect? && !ev.DoLocked? && !ev.DoUnlock? && !ev.DoExpire? && !ev.Get?
    && !ev.LearnOffChain? && !ev.LearnOnChain?
  }

  lemma StepKeepsBooks(cfg: Config, c: Channel, ev: Event)
    requires KeepsBooks(ev)
    ensures SameBooks(c.our, Step(cfg, c, ev).our) && SameBooks(c.partner, Step(cfg, c, ev).partner)
  {
    if ev.NewBlock? {
      DrainKeepsBooks(cfg, c, ev.at);
      DrainKeepsBooks(cfg, c.(settleTx := Some(Tx(ev.at, 0, NoResult))), ev.at);
    }
  }

  lemma SentKeepsEnd(c: Channel, s: Sent)
    requires EndValid(c.our) && SentFits(c, s)
    ensures EndValid(After(c, s).our) && After(c, s).partner == c.partner
  {
    if s.Sent? {
      FitsKeepsValid(ViewOf(c.our), s.message, c.key);
    }
  }

  lemma ReceiveKeepsEnd(cfg: Config, c: Channel, m: Message, height: uint32)
    requires EndValid(c.partner) && Fresh(c.partner, m)
    ensures EndValid(Receive(cfg, c, m, height).partner) && Receive(cfg, c, m, height).our == c.our
  {
    if Accepts(cfg, c, m, height) {
      AcceptedFits(cfg, c, m, height);
      InstallApplies(c.partner, m, c.key);
    }
  }

  lemma LearnKeepsEnds(cfg: Config, c: Channel, ev: Event)
    requires EndsValid(c) && (ev.LearnOffChain? || ev.LearnOnChain?)
    ensures EndsValid(Step(cfg, c, ev))
    ensures ViewOf(Step(cfg, c, ev).our) == ViewOf(c.our) && ViewOf(Step(cfg, c, ev).partner) == ViewOf(c.partner)
  {
    if ev.LearnOffChain? {
      RegisterSecretKeepsView(c.our, ev.offChain, ev.offChainHash);
      RegisterSecretKeepsView(c.partner, ev.offChain, ev.offChainHash);
    } else {
      RegisterOnChainKeepsView(c.our, ev.onChain, ev.onChainHash, ev.revealedAt);
      RegisterOnChainKeepsView(c.partner, ev.onChain, ev.onChainHash, ev.revealedAt);
    }
  }

  lemma StepKeepsEnds(cfg: Config, c: Channel, ev: Event)
    requires EndsValid(c) && FreshLocks(c, ev)
    ensures EndsValid(Step(cfg, c, ev))
  {
    match ev
    case DoDirect(amount) =>
      SendDirectFits(c, amount);
      SentKeepsEnd(c, SendDirect(c, amount));
    case DoLocked(amount, expiration, h) =>
      SendLockedFits(c, amount, expiration, h);
      SentKeepsEnd(c, SendLocked(c, amount, expiration, h));
    case DoUnlock(secret) =>
      SendUnlockFits(c, secret);
      SentKeepsEnd(c, SendUnlock(c, secret, SecretDigest(secret)));
    case DoExpire(h, at) =>
      SendExpiredFits(cfg, c, h, at);
      SentKeepsEnd(c, SendExpired(cfg, c, h, at));
    case Get(m, at) => ReceiveKeepsEnd(cfg, c, m, at);
    case LearnOffChain(_, _) => LearnKeepsEnds(cfg, c, ev);
    case LearnOnChain(_, _, _) => LearnKeepsEnds(cfg, c, ev);
    case _ =>
      StepKeepsBooks(cfg, c, ev);
      SameBooksValid(c.our, Step(cfg, c, ev).our);
      SameBooksValid(c.partner, Step(cfg, c, ev).partner);
  }

  /**
   Ledger agreement in every reachable state: disjoint tables, proof and tree in
   agreement with the pending locks, and transferred + locked within a word.
   */
  lemma {:induction false} RunKeepsLedgers(cfg: Config, run: seq<Channel>, events: seq<Event>, n: nat)
    requires IsRun(cfg, run, events) && n < |run|
    ensures EndsValid(run[n])
  {
    if n == 0 {
      NewEndValid(run[0].our);
      NewEndValid(run[0].partner);
    } else {
      RunKeepsLedgers(cfg, run, events, n - 1);
      StepKeepsEnds(cfg, run[n - 1], events[n - 1]);
    }
  }

  // ----- the secrets an end holds -----

  /** Every secret kept with a lock opens that lock. */
  ghost predicate SecretsOpen(e: End) {
    && (forall h :: h in e.unlocked ==> SecretDigest(e.unlocked[h].secret) == h)
    && (forall h :: h in e.onChain ==> SecretDigest(e.onChain[h].secret) == h)
  }

  /** A secret is learned under its own digest. */
  predicate LearnsByDigest(ev: Event) {
    match ev
    case LearnOffChain(secret, h) => SecretDigest(secret) == h
    case LearnOnChain(secret, h, _) => SecretDigest(secret) == h
    case _ => true
  }

  lemma StepKeepsSecrets(cfg: Config, c: Channel, ev: Event)
    requires SecretsOpen(c.our) && SecretsOpen(c.partner) && LearnsByDigest(ev)
    ensures SecretsOpen(Step(cfg, c, ev).our) && SecretsOpen(Step(cfg, c, ev).partner)
  {
    if KeepsBooks(ev) {
      StepKeepsBooks(cfg, c, ev);
    }
  }

  /** In every reachable state each secret an end holds opens the lock it is kept with. */
  lemma {:induction false} RunKeepsSecrets(cfg: Config, run: seq<Channel>, events: seq<Event>, n: nat)
    requires IsRun(cfg, run, events) && n < |run|
    requires forall i :: 0 <= i < |events| ==> LearnsByDigest(events[i])
    ensures SecretsOpen(run[n].our) && SecretsOpen(run[n].partner)
  {
    if n > 0 {
      RunKeepsSecrets(cfg, run, events, n - 1);
      StepKeepsSecrets(cfg, run[n - 1], events[n - 1]);
    }
  }
}
