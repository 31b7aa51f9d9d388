/**
 Two nodes of one channel joined by FIFO queues: the receiver's view of its
 partner, once the messages in flight are applied, is always the sender's own
 end, and every message it is sent is accepted.
 */
module Lockstep {
  import opened Prelude
  import opened Merkle
  import opened Channel
  import opened Ledger
  import opened Agreement
  import opened Lifecycle
  import opened Node
  import opened Solvency

  /** A message under way, with the sender's block height when it left. */
  datatype Post = Post(message: Message, sentAt: uint32)

  /** `ab` runs from node a to node b, `ba` the other way; ha and hb are the nodes' heights. */
  datatype Net = Net(a: Channel, b: Channel, ab: seq<Post>, ba: seq<Post>, ha: uint32, hb: uint32)

  function Swap(n: Net): Net {
    Net(n.b, n.a, n.ba, n.ab, n.hb, n.ha)
  }

  // ----- messages under way -----

  ghost predicate Dated(cfg: Config, v: View, p: Post) {
    p.message.LockExpired? && p.message.secretHash in v.pending ==>
      p.sentAt >= SenderThreshold(cfg, v.pending[p.message.secretHash])
  }

  ghost predicate Deliverable(cfg: Config, key: ChannelKey, v: View, p: Post, credit: int) {
    && Fits(v, p.message, key)
    && p.message.signed
    && Outstanding(v) + Spend(v, p.message) <= credit
    && Dated(cfg, v, p)
  }

  /** Applying the queue to `v`, each message deliverable in its turn, leads to `goal`. */
  ghost predicate InFlight(cfg: Config, key: ChannelKey, v: View, q: seq<Post>, goal: View, credit: int)
    decreases |q|
  {
    if q == [] then v == goal
    else
      && Deliverable(cfg, key, v, q[0], credit)
      && InFlight(cfg, key, Apply(v, q[0].message, key), q[1..], goal, credit)
  }

  lemma {:induction false} InFlightAppend(cfg: Config, key: ChannelKey, v: View, q: seq<Post>, goal: View, credit: int, p: Post)
    requires InFlight(cfg, key, v, q, goal, credit) && Deliverable(cfg, key, goal, p, credit)
    ensures InFlight(cfg, key, v, q + [p], Apply(goal, p.message, key), credit)
    decreases |q|
  {
    if q == [] {
      assert (q + [p])[1..] == [];
    } else {
      InFlightAppend(cfg, key, Apply(v, q[0].message, key), q[1..], goal, credit, p);
      assert (q + [p])[1..] == q[1..] + [p];
    }
  }

  lemma {:induction false} InFlightMoreCredit(cfg: Config, key: ChannelKey, v: View, q: seq<Post>, goal: View, credit: int, more: int)
    requires InFlight(cfg, key, v, q, goal, credit) && credit <= more
    ensures InFlight(cfg, key, v, q, goal, more)
    decreases |q|
  {
    if q != [] {
      InFlightMoreCredit(cfg, key, Apply(v, q[0].message, key), q[1..], goal, credit, more);
    }
  }

  ghost predicate NoExpiry(q: seq<Post>) {
    forall i :: 0 <= i < |q| ==> !q[i].message.LockExpired?
  }

  /** Without an expiry nothing owed is given back along the queue, so the last amount bounds all. */
  lemma {:induction false} InFlightOwes(cfg: Config, key: ChannelKey, v: View, q: seq<Post>, goal: View, credit: int, less: int)
    requires InFlight(cfg, key, v, q, goal, credit) && ViewValid(v) && NoExpiry(q)
    requires Outstanding(goal) <= less
    ensures InFlight(cfg, key, v, q, goal, less) && Outstanding(v) <= less
    decreases |q|
  {
    if q != [] {
      FitsOwes(v, q[0].message, key);
      InFlightOwes(cfg, key, Apply(v, q[0].message, key), q[1..], goal, credit, less);
    }
  }

  lemma FitsOwes(v: View, m: Message, key: ChannelKey)
    requires ViewValid(v) && Fits(v, m, key) && !m.LockExpired?
    ensures ViewValid(Apply(v, m, key))
    ensures Outstanding(Apply(v, m, key)) == Outstanding(v) + Spend(v, m) >= Outstanding(v)
  {
    FitsKeepsValid(v, m, key);
    match m
    case Direct(_, _) =>
    case LockedTransfer(p, lock, _) => AddKeepsValid(v, p, lock);
    case Unlock(p, secret, _) => RemoveKeepsValid(v, p, SecretDigest(secret), true);
  }

  lemma {:induction false} InFlightPays(cfg: Config, key: ChannelKey, v: View, q: seq<Post>, goal: View, credit: int)
    requires InFlight(cfg, key, v, q, goal, credit) && ViewValid(v)
    ensures Paid(v) <= Paid(goal)
    decreases |q|
  {
    if q != [] {
      FitsKeepsValid(v, q[0].message, key);
      InFlightPays(cfg, key, Apply(v, q[0].message, key), q[1..], goal, credit);
    }
  }

  // ----- the invariant -----

  ghost predicate OpenNode(c: Channel) {
    && EndsValid(c)
    && Solvent(c.our, c.partner) && Solvent(c.partner, c.our)
    && c.our.contractBalance + c.partner.contractBalance <= MAX64
    && c.closeTx == None && c.settleTx == None && c.deposits == []
  }

  /** Both nodes know the same deposit and withdrawal of one party. */
  ghost predicate SameAccount(own: End, seen: End) {
    && own.address == seen.address
    && own.contractBalance == seen.contractBalance
    && own.totalWithdraw == seen.totalWithdraw
  }

  /** The direction from `sender` to `receiver`. */
  ghost predicate Linked(cfg: Config, sender: Channel, receiver: Channel, q: seq<Post>) {
    && SameAccount(sender.our, receiver.partner)
    && InFlight(cfg, sender.key, ViewOf(receiver.partner), q, ViewOf(sender.our), Credit(receiver.partner, receiver.our))
  }

  ghost predicate NetInv(cfg: Config, n: Net) {
    && n.a.key == n.b.key
    && n.a.our.address != n.b.our.address
    && OpenNode(n.a) && OpenNode(n.b)
    && Linked(cfg, n.a, n.b, n.ab)
    && Linked(cfg, n.b, n.a, n.ba)
  }

  lemma SwapKeepsInv(cfg: Config, n: Net)
    requires NetInv(cfg, n)
    ensures NetInv(cfg, Swap(n))
  {
  }

  // ----- moves of node a -----

  datatype Move =
    | SendDirectMove(amount: uint64)
    | SendLockedMove(lockAmount: uint64, expiration: uint32, secretHash: Hash)
    | SendUnlockMove(secret: Secret)
    | SendExpiredMove(expired: Hash)
    | DeliverMove
    | LearnOffChainMove(offChain: Secret, offChainHash: Hash)
    | LearnOnChainMove(onChain: Secret, onChainHash: Hash, revealedAt: uint32)
    | BlockMove(height: uint32)
    | DepositMove(balance: uint64)
    | WithdrawMove(total: uint64)

  ghost function SendOf(cfg: Config, n: Net, mv: Move): Sent {
    match mv
    case SendDirectMove(amount) => SendDirect(n.a, amount)
    case SendLockedMove(amount, expiration, h) => SendLocked(n.a, amount, expiration, h)
    case SendUnlockMove(secret) => SendUnlock(n.a, secret, SecretDigest(secret))
    case SendExpiredMove(h) => SendExpired(cfg, n.a, h, n.ha)
    case _ => Refused
  }

  ghost function Posted(n: Net, s: Sent): Net {
    if s.Sent? then n.(a := s.channel, ab := n.ab + [Post(s.message, n.ha)]) else n
  }

  /** Node a acts; a deposit or withdrawal of party a reaches both nodes together. */
  ghost function MoveA(cfg: Config, n: Net, mv: Move): Net {
    match mv
    case DeliverMove =>
      if n.ba == [] then n
      else n.(a := Receive(cfg, n.a, n.ba[0].message, n.ha), ba := n.ba[1..])
    case LearnOffChainMove(secret, h) => n.(a := RegisterOffChainSecret(n.a, secret, h))
    case LearnOnChainMove(secret, h, at) => n.(a := RegisterOnChainSecret(n.a, secret, h, at))
    case BlockMove(height) => n.(a := HandleBlock(cfg, n.a, height).channel, ha := height)
    case DepositMove(balance) =>
      var d := Deposit(n.a.our.address, balance, 0);
      n.(a := ApplyDeposit(n.a, d), b := ApplyDeposit(n.b, d))
    case WithdrawMove(total) =>
      n.(a := Withdrawn(n.a, n.a.our.address, total), b := Withdrawn(n.b, n.a.our.address, total))
    case _ => Posted(n, SendOf(cfg, n, mv))
  }

  ghost predicate NoHeightWrap(cfg: Config, lock: Lock) {
    lock.expiration + 2 * cfg.confirmBlockCount <= MAX32 && lock.expiration + cfg.confirmBlockCount >= cfg.maxBlockDelay
  }

  /** When the receiver still holds the lock as locked and does not lag too far. */
  ghost predicate ExpiryMeets(cfg: Config, c: Channel, p: Post, height: uint32) {
    p.message.LockExpired? ==>
      && p.message.secretHash in c.partner.locked
      && p.message.secretHash !in c.our.onChain
      && NoHeightWrap(cfg, c.partner.locked[p.message.secretHash])
      && height + cfg.confirmBlockCount + cfg.maxBlockDelay >= p.sentAt
  }

  /**
   What the protocol assumes of its environment: fresh secret hashes; an expiry
   reaches a node that still holds the lock as locked and lags by at most
   confirmBlockCount + maxBlockDelay blocks; deposits fit a word; a withdrawal finds its
   tokens still free and no lock-expired message of the withdrawing party under way.
   */
  ghost predicate MayMove(cfg: Config, n: Net, mv: Move) {
    match mv
    case SendLockedMove(_, _, h) => h != 0 && h !in Pending(n.a.our)
    case DeliverMove => n.ba != [] ==> ExpiryMeets(cfg, n.a, n.ba[0], n.ha)
    case DepositMove(balance) => balance + n.a.partner.contractBalance <= MAX64
    case WithdrawMove(total) => StillFree(n.a.our, n.a.partner, total) && NoExpiry(n.ab)
    case BlockMove(height) => height >= n.ha
    case _ => true
  }

  // ----- sending -----

  lemma CreditGrows(cfg: Config, n: Net)
    requires NetInv(cfg, n)
    ensures Credit(n.a.our, n.a.partner) <= Credit(n.b.partner, n.b.our)
  {
    InFlightPays(cfg, n.b.key, ViewOf(n.a.partner), n.ba, ViewOf(n.b.our), Credit(n.a.partner, n.a.our));
    assert Transferred(n.a.partner) == Paid(ViewOf(n.a.partner));
    assert Transferred(n.b.our) == Paid(ViewOf(n.b.our));
  }

  lemma SendOfFits(cfg: Config, n: Net, mv: Move)
    requires NetInv(cfg, n) && MayMove(cfg, n, mv)
    ensures Delivers(cfg, n.a, SendOf(cfg, n, mv), n.ha)
  {
    match mv
    case SendDirectMove(amount) => DirectDelivers(cfg, n.a, amount, n.ha);
    case SendLockedMove(amount, expiration, h) => LockedDelivers(cfg, n.a, amount, expiration, h, n.ha);
    case SendUnlockMove(secret) => UnlockDelivers(cfg, n.a, secret, n.ha);
    case SendExpiredMove(h) => ExpiryDelivers(cfg, n.a, h, n.ha);
    case _ =>
  }

  /** What is sent fits the sender's own end and may be delivered to a node that has the same view of it. */
  ghost predicate Delivers(cfg: Config, c: Channel, s: Sent, height: uint32) {
    && SentFits(c, s)
    && (s.Sent? ==> Deliverable(cfg, c.key, ViewOf(c.our), Post(s.message, height), Credit(c.our, c.partner)))
  }

  lemma DirectDelivers(cfg: Config, c: Channel, amount: uint64, height: uint32)
    requires OpenNode(c)
    ensures Delivers(cfg, c, SendDirect(c, amount), height)
  {
    SendDirectFits(c, amount);
    if SendDirect(c, amount).Sent? {
      DirectSpends(c, amount);
      SentAffordable(c, amount);
    }
  }

  lemma LockedDelivers(cfg: Config, c: Channel, amount: uint64, expiration: uint32, h: Hash, height: uint32)
    requires OpenNode(c) && h != 0 && h !in Pending(c.our)
    ensures Delivers(cfg, c, SendLocked(c, amount, expiration, h), height)
  {
    SendLockedFits(c, amount, expiration, h);
    if SendLocked(c, amount, expiration, h).Sent? {
      SentAffordable(c, amount);
    }
  }

  lemma UnlockDelivers(cfg: Config, c: Channel, secret: Secret, height: uint32)
    requires OpenNode(c)
    ensures Delivers(cfg, c, SendUnlock(c, secret, SecretDigest(secret)), height)
  {
    SendUnlockFits(c, secret);
  }

  lemma ExpiryDelivers(cfg: Config, c: Channel, h: Hash, height: uint32)
    requires OpenNode(c)
    ensures Delivers(cfg, c, SendExpired(cfg, c, h, height), height)
  {
    SendExpiredFits(cfg, c, h, height);
  }

  lemma NodeAfterSend(c: Channel, s: Sent)
    requires OpenNode(c) && SentFits(c, s) && s.Sent?
    requires Outstanding(ViewOf(c.our)) + Spend(ViewOf(c.our), s.message) <= Credit(c.our, c.partner)
    ensures OpenNode(s.channel) && Transferred(s.channel.our) >= Transferred(c.our)
  {
    var caps := Caps(c.our.contractBalance, c.partner.contractBalance);
    assert NodeInv(caps, c);
    SentKeepsInv(caps, c, s);
    FitsKeepsValid(ViewOf(c.our), s.message, c.key);
    assert Transferred(c.our) == Paid(ViewOf(c.our));
    assert Transferred(s.channel.our) == Paid(ViewOf(s.channel.our));
  }

  lemma PostedKeepsInv(cfg: Config, n: Net, s: Sent)
    requires NetInv(cfg, n) && Delivers(cfg, n.a, s, n.ha)
    ensures NetInv(cfg, Posted(n, s))
  {
    if s.Sent? {
      var credit := Credit(n.b.partner, n.b.our);
      CreditGrows(cfg, n);
      NodeAfterSend(n.a, s);
      InFlightAppend(cfg, n.a.key, ViewOf(n.b.partner), n.ab, ViewOf(n.a.our), credit, Post(s.message, n.ha));
      InFlightMoreCredit(cfg, n.b.key, ViewOf(n.a.partner), n.ba, ViewOf(n.b.our),
                         Credit(n.a.partner, n.a.our), Credit(s.channel.partner, s.channel.our));
    }
  }

  // ----- delivering -----

  /** Every message at the head of a queue is accepted. */
  lemma HeadAccepted(cfg: Config, n: Net)
    requires NetInv(cfg, n) && n.ba != [] && MayMove(cfg, n, DeliverMove)
    ensures Accepts(cfg, n.a, n.ba[0].message, n.ha)
  {
    assert Deliverable(cfg, n.b.key, ViewOf(n.a.partner), n.ba[0], Credit(n.a.partner, n.a.our));
    DeliverableAccepted(cfg, n.a, n.ba[0], n.ha);
  }

  lemma DeliverableAccepted(cfg: Config, c: Channel, p: Post, height: uint32)
    requires OpenNode(c) && Deliverable(cfg, c.key, ViewOf(c.partner), p, Credit(c.partner, c.our))
    requires ExpiryMeets(cfg, c, p, height)
    ensures Accepts(cfg, c, p.message, height)
  {
    if p.message.LockExpired? {
      assert p.message.secretHash in Pending(c.partner);
    }
    FittingAccepted(cfg, c, p.message, height);
  }

  lemma NodeAfterReceive(cfg: Config, c: Channel, m: Message, height: uint32)
    requires OpenNode(c) && Fits(ViewOf(c.partner), m, c.key) && Accepts(cfg, c, m, height)
    ensures var d := Receive(cfg, c, m, height);
            && OpenNode(d) && d.key == c.key && d.our == c.our
            && SameAccount(c.partner, d.partner)
            && ViewOf(d.partner) == Apply(ViewOf(c.partner), m, c.key)
  {
    var caps := Caps(c.our.contractBalance, c.partner.contractBalance);
    assert NodeInv(caps, c);
    ReceiveKeepsInv(cfg, caps, c, m, height);
    InstallApplies(c.partner, m, c.key);
  }

  lemma LinkedAfterReceive(cfg: Config, sender: Channel, c: Channel, d: Channel, q: seq<Post>)
    requires Linked(cfg, sender, c, q) && q != [] && sender.key == c.key
    requires d.our == c.our && SameAccount(c.partner, d.partner)
    requires ViewOf(d.partner) == Apply(ViewOf(c.partner), q[0].message, c.key)
    ensures Linked(cfg, sender, d, q[1..])
  {
  }

  lemma DeliverKeepsInv(cfg: Config, n: Net)
    requires NetInv(cfg, n) && MayMove(cfg, n, DeliverMove)
    ensures NetInv(cfg, MoveA(cfg, n, DeliverMove))
  {
    if n.ba != [] {
      var c, m := n.a, n.ba[0].message;
      HeadAccepted(cfg, n);
      assert Deliverable(cfg, n.b.key, ViewOf(c.partner), n.ba[0], Credit(c.partner, c.our));
      NodeAfterReceive(cfg, c, m, n.ha);
      LinkedAfterReceive(cfg, n.b, c, Receive(cfg, c, m, n.ha), n.ba);
    }
  }

  // ----- everything else -----

  lemma NodeAfterLearning(cfg: Config, c: Channel, ev: Event)
    requires OpenNode(c) && (ev.LearnOffChain? || ev.LearnOnChain?)
    ensures var d := Step(cfg, c, ev);
            && OpenNode(d) && d.key == c.key
            && ViewOf(d.our) == ViewOf(c.our) && ViewOf(d.partner) == ViewOf(c.partner)
            && SameAccount(c.our, d.our) && SameAccount(c.partner, d.partner)
            && Transferred(d.our) == Transferred(c.our) && Transferred(d.partner) == Transferred(c.partner)
  {
    var d := Step(cfg, c, ev);
    LearnKeepsEnds(cfg, c, ev);
    assert Transferred(d.our) == Paid(ViewOf(d.our)) == Transferred(c.our);
    assert Transferred(d.partner) == Paid(ViewOf(d.partner)) == Transferred(c.partner);
  }

  lemma LearnKeepsNet(cfg: Config, n: Net, mv: Move)
    requires NetInv(cfg, n) && (mv.LearnOffChainMove? || mv.LearnOnChainMove?)
    ensures NetInv(cfg, MoveA(cfg, n, mv))
  {
    LearnMoveIsStep(cfg, n, mv);
    NodeAfterLearning(cfg, n.a, LearningOf(mv));
    SameViewsKeepNet(cfg, n, Step(cfg, n.a, LearningOf(mv)));
  }

  lemma SameViewsKeepNet(cfg: Config, n: Net, d: Channel)
    requires NetInv(cfg, n) && OpenNode(d) && d.key == n.a.key
    requires ViewOf(d.our) == ViewOf(n.a.our) && ViewOf(d.partner) == ViewOf(n.a.partner)
    requires SameAccount(n.a.our, d.our) && SameAccount(n.a.partner, d.partner)
    requires Transferred(d.our) == Transferred(n.a.our)
    ensures NetInv(cfg, n.(a := d))
  {
    SameViewsKeepLink(cfg, n.a, d, n.b, n.ab, n.ba);
  }

  lemma SameViewsKeepLink(cfg: Config, c: Channel, d: Channel, other: Channel, out: seq<Post>, back: seq<Post>)
    requires Linked(cfg, c, other, out) && Linked(cfg, other, c, back) && d.key == c.key
    requires ViewOf(d.our) == ViewOf(c.our) && ViewOf(d.partner) == ViewOf(c.partner)
    requires SameAccount(c.our, d.our) && SameAccount(c.partner, d.partner) && Transferred(d.our) == Transferred(c.our)
    ensures Linked(cfg, d, other, out) && Linked(cfg, other, d, back)
  {
    assert Credit(d.partner, d.our) == Credit(c.partner, c.our);
  }

  function LearningOf(mv: Move): Event
    requires mv.LearnOffChainMove? || mv.LearnOnChainMove?
  {
    if mv.LearnOffChainMove? then LearnOffChain(mv.offChain, mv.offChainHash)
    else LearnOnChain(mv.onChain, mv.onChainHash, mv.revealedAt)
  }

  lemma LearnMoveIsStep(cfg: Config, n: Net, mv: Move)
    requires mv.LearnOffChainMove? || mv.LearnOnChainMove?
    ensures MoveA(cfg, n, mv) == n.(a := Step(cfg, n.a, LearningOf(mv)))
  {
  }

  lemma AccountMoveKeepsInv(cfg: Config, n: Net, n': Net)
    requires NetInv(cfg, n)
    requires n' == n.(a := n.a.(our := n'.a.our), b := n.b.(partner := n'.b.partner))
    requires SameBooks(n.a.our, n'.a.our) && SameBooks(n.b.partner, n'.b.partner)
    requires SameAccount(n'.a.our, n'.b.partner)
    requires OpenNode(n'.a) && OpenNode(n'.b)
    requires InFlight(cfg, n.a.key, ViewOf(n.b.partner), n.ab, ViewOf(n.a.our), Credit(n'.b.partner, n'.b.our))
    ensures NetInv(cfg, n')
  {
    SameBooksValid(n.a.our, n'.a.our);
    SameBooksValid(n.b.partner, n'.b.partner);
    SameViewsLink(cfg, n.a, n.b, n'.a, n'.b, n.ab);
    assert Credit(n'.a.partner, n'.a.our) == Credit(n.a.partner, n.a.our);
    SameViewsLink(cfg, n.b, n.a, n'.b, n'.a, n.ba);
  }

  lemma SameViewsLink(cfg: Config, sender: Channel, receiver: Channel, sender': Channel, receiver': Channel, q: seq<Post>)
    requires SameAccount(sender'.our, receiver'.partner) && sender'.key == sender.key
    requires ViewOf(sender'.our) == ViewOf(sender.our) && ViewOf(receiver'.partner) == ViewOf(receiver.partner)
    requires InFlight(cfg, sender.key, ViewOf(receiver.partner), q, ViewOf(sender.our),
                      Credit(receiver'.partner, receiver'.our))
    ensures Linked(cfg, sender', receiver', q)
  {
  }

  lemma NodeAfterRaise(c: Channel, c': Channel)
    requires OpenNode(c) && c' == c.(our := c'.our, partner := c'.partner)
    requires SameBooks(c.our, c'.our) && SameBooks(c.partner, c'.partner)
    requires c'.our.totalWithdraw == c.our.totalWithdraw && c'.partner.totalWithdraw == c.partner.totalWithdraw
    requires c'.our.contractBalance >= c.our.contractBalance && c'.partner.contractBalance >= c.partner.contractBalance
    requires c'.our.contractBalance + c'.partner.contractBalance <= MAX64
    ensures OpenNode(c')
  {
    SameBooksValid(c.our, c'.our);
    SameBooksValid(c.partner, c'.partner);
  }

  lemma DepositKeepsNet(cfg: Config, n: Net, balance: uint64)
    requires NetInv(cfg, n) && MayMove(cfg, n, DepositMove(balance))
    ensures NetInv(cfg, MoveA(cfg, n, DepositMove(balance)))
  {
    var n' := MoveA(cfg, n, DepositMove(balance));
    NodeAfterRaise(n.a, n'.a);
    NodeAfterRaise(n.b, n'.b);
    InFlightMoreCredit(cfg, n.a.key, ViewOf(n.b.partner), n.ab, ViewOf(n.a.our),
                       Credit(n.b.partner, n.b.our), Credit(n'.b.partner, n'.b.our));
    AccountMoveKeepsInv(cfg, n, n');
  }

  lemma WithdrawKeepsNet(cfg: Config, n: Net, total: uint64)
    requires NetInv(cfg, n) && MayMove(cfg, n, WithdrawMove(total))
    ensures NetInv(cfg, MoveA(cfg, n, WithdrawMove(total)))
  {
    var n' := MoveA(cfg, n, WithdrawMove(total));
    SameBooksValid(n.a.our, n'.a.our);
    SameBooksValid(n.b.partner, n'.b.partner);
    WithdrawnSolventIff(n.a, n.a.our.address, total);
    CreditGrows(cfg, n);
    InFlightOwes(cfg, n.a.key, ViewOf(n.b.partner), n.ab, ViewOf(n.a.our),
                 Credit(n.b.partner, n.b.our), Credit(n'.b.partner, n'.b.our));
    AccountMoveKeepsInv(cfg, n, n');
  }

  lemma MoveKeepsInv(cfg: Config, n: Net, mv: Move)
    requires NetInv(cfg, n) && MayMove(cfg, n, mv)
    ensures NetInv(cfg, MoveA(cfg, n, mv))
  {
    match mv
    case DeliverMove => DeliverKeepsInv(cfg, n);
    case LearnOffChainMove(_, _) => LearnKeepsNet(cfg, n, mv);
    case LearnOnChainMove(_, _, _) => LearnKeepsNet(cfg, n, mv);
    case DepositMove(balance) => DepositKeepsNet(cfg, n, balance);
    case WithdrawMove(total) => WithdrawKeepsNet(cfg, n, total);
    case BlockMove(height) =>
      assert HandleBlock(cfg, n.a, height).channel == n.a;
    case _ =>
      SendOfFits(cfg, n, mv);
      PostedKeepsInv(cfg, n, SendOf(cfg, n, mv));
  }

  // ----- whole runs -----

  /** One step: node a or, with the roles exchanged, node b moves. */
  ghost predicate NetStep(cfg: Config, n: Net, byA: bool, mv: Move, n': Net) {
    if byA then MayMove(cfg, n, mv) && n' == MoveA(cfg, n, mv)
    else MayMove(cfg, Swap(n), mv) && n' == Swap(MoveA(cfg, Swap(n), mv))
  }

  ghost predicate NewNet(n: Net) {
    && n.a.key == n.b.key && n.a.our.address != n.b.our.address
    && Initial(n.a) && Initial(n.b) && n.ab == [] && n.ba == []
    && SameAccount(n.a.our, n.b.partner) && SameAccount(n.b.our, n.a.partner)
    && n.a.our.contractBalance + n.b.our.contractBalance <= MAX64
  }

  ghost predicate IsNetRun(cfg: Config, run: seq<Net>, moves: seq<(bool, Move)>) {
    && |run| == |moves| + 1
    && NewNet(run[0])
    && forall i {:trigger moves[i]} :: 0 <= i < |moves| ==> NetStep(cfg, run[i], moves[i].0, moves[i].1, run[i + 1])
  }

  lemma NewNetInv(cfg: Config, n: Net)
    requires NewNet(n)
    ensures NetInv(cfg, n)
  {
    NewEndValid(n.a.our);
    NewEndValid(n.a.partner);
    NewEndValid(n.b.our);
    NewEndValid(n.b.partner);
    assert Pending(n.a.our) == Pending(n.b.partner) == Pending(n.b.our) == Pending(n.a.partner) == map[];
  }

  lemma NetStepKeepsInv(cfg: Config, n: Net, byA: bool, mv: Move, n': Net)
    requires NetInv(cfg, n) && NetStep(cfg, n, byA, mv, n')
    ensures NetInv(cfg, n')
  {
    if byA {
      MoveKeepsInv(cfg, n, mv);
    } else {
      SwapKeepsInv(cfg, n);
      MoveKeepsInv(cfg, Swap(n), mv);
      SwapKeepsInv(cfg, MoveA(cfg, Swap(n), mv));
    }
  }

  lemma RunStepKeepsInv(cfg: Config, run: seq<Net>, moves: seq<(bool, Move)>, k: nat)
    requires IsNetRun(cfg, run, moves) && k < |moves|
    requires forall i :: 0 <= i <= k ==> NetInv(cfg, run[i])
    ensures forall i :: 0 <= i <= k + 1 ==> NetInv(cfg, run[i])
  {
    NetStepKeepsInv(cfg, run[k], moves[k].0, moves[k].1, run[k + 1]);
  }

  lemma {:induction false} PrefixKeepsLockstep(cfg: Config, run: seq<Net>, moves: seq<(bool, Move)>, k: nat)
    requires IsNetRun(cfg, run, moves) && k < |run|
    ensures forall i :: 0 <= i <= k ==> NetInv(cfg, run[i])
  {
    if k == 0 {
      NewNetInv(cfg, run[0]);
    } else {
      PrefixKeepsLockstep(cfg, run, moves, k - 1);
      RunStepKeepsInv(cfg, run, moves, k - 1);
    }
  }

  /**
   Lockstep: in every reachable state of the two nodes, applying the messages under
   way to each receiver's partner end gives the sender's own end.
   */
  lemma RunKeepsLockstep(cfg: Config, run: seq<Net>, moves: seq<(bool, Move)>, k: nat)
    requires IsNetRun(cfg, run, moves) && k < |run|
    ensures NetInv(cfg, run[k])
  {
    PrefixKeepsLockstep(cfg, run, moves, k);
  }

  /** In every reachable state the next message of either direction is accepted. */
  lemma RunAcceptsEveryMessage(cfg: Config, run: seq<Net>, moves: seq<(bool, Move)>, k: nat)
    requires IsNetRun(cfg, run, moves) && k < |run|
    ensures run[k].ba != [] && MayMove(cfg, run[k], DeliverMove) ==>
            Accepts(cfg, run[k].a, run[k].ba[0].message, run[k].ha)
    ensures run[k].ab != [] && MayMove(cfg, Swap(run[k]), DeliverMove) ==>
            Accepts(cfg, run[k].b, run[k].ab[0].message, run[k].hb)
  {
    RunKeepsLockstep(cfg, run, moves, k);
    if run[k].ba != [] && MayMove(cfg, run[k], DeliverMove) {
      HeadAccepted(cfg, run[k]);
    }
    if run[k].ab != [] && MayMove(cfg, Swap(run[k]), DeliverMove) {
      SwapKeepsInv(cfg, run[k]);
      HeadAccepted(cfg, Swap(run[k]));
    }
  }

  /** With nothing under way the two nodes agree on both ends and on what each may still spend. */
  lemma QuietNodesMirror(cfg: Config, n: Net)
    requires NetInv(cfg, n) && n.ab == [] && n.ba == []
    ensures ViewOf(n.a.our) == ViewOf(n.b.partner) && ViewOf(n.b.our) == ViewOf(n.a.partner)
    ensures GetDistributable(n.a.our, n.a.partner) == GetDistributable(n.b.partner, n.b.our)
    ensures GetDistributable(n.a.partner, n.a.our) == GetDistributable(n.b.our, n.b.partner)
    ensures CoopBalance(n.a.our, n.a.partner) == CoopBalance(n.b.partner, n.b.our)
    ensures CoopBalance(n.a.partner, n.a.our) == CoopBalance(n.b.our, n.b.partner)
  {
    var (x, y, u, v) := (n.a.our, n.a.partner, n.b.our, n.b.partner);
    SameFigures(x, y, v, u);
    SameFigures(y, x, u, v);
  }

  lemma SameFigures(e: End, other: End, f: End, mirror: End)
    requires EndValid(e) && EndValid(other) && EndValid(f) && EndValid(mirror)
    requires BothSolvent(e, other) && BothSolvent(f, mirror)
    requires ViewOf(e) == ViewOf(f) && ViewOf(other) == ViewOf(mirror)
    requires e.contractBalance == f.contractBalance && e.totalWithdraw == f.totalWithdraw
    ensures GetDistributable(e, other) == GetDistributable(f, mirror)
    ensures CoopBalance(e, other) == CoopBalance(f, mirror)
  {
    assert Transferred(e) == Paid(ViewOf(e)) && Transferred(other) == Paid(ViewOf(other));
    assert Transferred(f) == Paid(ViewOf(f)) && Transferred(mirror) == Paid(ViewOf(mirror));
    DistributableTrue(e, other);
    DistributableTrue(f, mirror);
    CoopBalancesTrue(e, other);
    CoopBalancesTrue(f, mirror);
  }

  /** A settlement request of one mirrored node is accepted by the other, and its reply by the first. */
  lemma CoopSettleAgrees(cfg: Config, n: Net)
    requires NetInv(cfg, n) && n.ab == [] && n.ba == []
    ensures ValidCoopRequest(n.b, CoopRequest(n.a))
    ensures ValidCoopReply(SendCoopRequest(n.a), CoopReply(n.b, CoopRequest(n.a)))
  {
    QuietNodesMirror(cfg, n);
  }
}
