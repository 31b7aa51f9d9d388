/** Solvency and conservation over whole runs of one node. */
module Solvency {
  import opened Prelude
  import opened Channel
  import opened Ledger
  import opened Agreement
  import opened Lifecycle
  import opened Node

  ghost predicate QueueWithinCaps(caps: Caps, c: Channel, q: seq<Deposit>) {
    forall i :: 0 <= i < |q| ==> WithinCaps(caps, c, q[i])
  }

  ghost predicate NodeInv(caps: Caps, c: Channel) {
    && EndsValid(c)
    && Solvent(c.our, c.partner) && Solvent(c.partner, c.our)
    && c.our.contractBalance <= caps.our && c.partner.contractBalance <= caps.partner
    && QueueWithinCaps(caps, c, c.deposits)
    && caps.our + caps.partner <= MAX64
  }

  // ----- one step -----

  ghost predicate SameChain(c: Channel, d: Channel) {
    && d.our.contractBalance == c.our.contractBalance && d.partner.contractBalance == c.partner.contractBalance
    && d.our.totalWithdraw == c.our.totalWithdraw && d.partner.totalWithdraw == c.partner.totalWithdraw
    && d.our.address == c.our.address && d.partner.address == c.partner.address
    && d.deposits == c.deposits
  }

  lemma ViewsKeepInv(caps: Caps, c: Channel, d: Channel)
    requires NodeInv(caps, c) && EndsValid(d) && SameChain(c, d)
    requires Transferred(d.our) >= Transferred(c.our) && Transferred(d.partner) >= Transferred(c.partner)
    requires Outstanding(ViewOf(d.our)) <= Credit(c.our, c.partner)
    requires Outstanding(ViewOf(d.partner)) <= Credit(c.partner, c.our)
    ensures NodeInv(caps, d)
  {
  }

  /** The tokens a send step newly commits are within the distributable amount. */
  lemma SentKeepsInv(caps: Caps, c: Channel, s: Sent)
    requires NodeInv(caps, c) && SentFits(c, s)
    requires s.Sent? ==> Outstanding(ViewOf(c.our)) + Spend(ViewOf(c.our), s.message) <= Credit(c.our, c.partner)
    ensures NodeInv(caps, After(c, s))
  {
    if s.Sent? {
      FitsKeepsValid(ViewOf(c.our), s.message, c.key);
      LockedTrue(c.our);
      assert Transferred(s.channel.our) == Paid(ViewOf(s.channel.our));
      ViewsKeepInv(caps, c, s.channel);
    }
  }

  lemma ReceiveKeepsInv(cfg: Config, caps: Caps, c: Channel, m: Message, height: uint32)
    requires NodeInv(caps, c) && Fresh(c.partner, m)
    ensures NodeInv(caps, Receive(cfg, c, m, height))
  {
    if Accepts(cfg, c, m, height) {
      var d := Receive(cfg, c, m, height);
      AcceptedFits(cfg, c, m, height);
      AcceptedAffordable(cfg, c, m, height);
      InstallApplies(c.partner, m, c.key);
      FitsKeepsValid(ViewOf(c.partner), m, c.key);
      assert Transferred(c.partner) == Paid(ViewOf(c.partner));
      assert Transferred(d.partner) == Paid(ViewOf(d.partner));
      ViewsKeepInv(caps, c, d);
    }
  }

  lemma LearnKeepsInv(cfg: Config, caps: Caps, c: Channel, ev: Event)
    requires NodeInv(caps, c) && (ev.LearnOffChain? || ev.LearnOnChain?)
    ensures NodeInv(caps, Step(cfg, c, ev))
  {
    var d := Step(cfg, c, ev);
    LearnKeepsEnds(cfg, c, ev);
    assert Transferred(d.our) == Paid(ViewOf(d.our)) == Transferred(c.our);
    assert Transferred(d.partner) == Paid(ViewOf(d.partner)) == Transferred(c.partner);
    ViewsKeepInv(caps, c, d);
  }

  lemma ApplyDepositKeepsInv(caps: Caps, c: Channel, d: Deposit)
    requires NodeInv(caps, c) && WithinCaps(caps, c, d)
    ensures NodeInv(caps, ApplyDeposit(c, d))
  {
    var c' := ApplyDeposit(c, d);
    SameBooksValid(c.our, c'.our);
    SameBooksValid(c.partner, c'.partner);
  }

  lemma {:induction false} DrainKeepsInv(cfg: Config, caps: Caps, c: Channel, height: uint32)
    requires NodeInv(caps, c)
    ensures NodeInv(caps, Drain(cfg, c, height))
    decreases |c.deposits|
  {
    if c.deposits != [] && Confirmed(cfg, c.deposits[0].height, height) {
      var rest := c.(deposits := c.deposits[1..]);
      assert WithinCaps(caps, c, c.deposits[0]);
      assert NodeInv(caps, rest);
      ApplyDepositKeepsInv(caps, rest, c.deposits[0]);
      DrainKeepsInv(cfg, caps, ApplyDeposit(rest, c.deposits[0]), height);
    }
  }

  /** The bound of a withdraw request implies that its tokens are free at that moment. */
  lemma WithdrawCovered(e: End, other: End, total: uint64)
    requires EndValid(e) && EndValid(other) && BothSolvent(e, other) && ValidWithdrawAmount(e, other, total)
    ensures StillFree(e, other, total)
    ensures Outstanding(ViewOf(e)) + total <= e.contractBalance + Transferred(other)
  {
    DistributableTrue(e, other);
    LockedTrue(e);
  }

  /**
   A withdraw request passes exactly when it takes something and what it takes is free;
   that the two totals stay within the two deposits then follows.
   */
  lemma WithdrawValidIff(e: End, other: End, total: uint64)
    requires EndValid(e) && EndValid(other) && BothSolvent(e, other) && BothSolvent(other, e)
    ensures ValidWithdrawAmount(e, other, total) <==>
            && total > e.totalWithdraw
            && Outstanding(ViewOf(e)) + total <= e.contractBalance + Transferred(other)
            && Outstanding(ViewOf(e)) + total - e.totalWithdraw <= MAX64
    ensures ValidWithdrawAmount(e, other, total) ==>
            total + other.totalWithdraw <= e.contractBalance + other.contractBalance
  {
    DistributableTrue(e, other);
    assert Transferred(e) == Paid(ViewOf(e)) && Transferred(other) == Paid(ViewOf(other));
  }

  lemma WithdrawSolventIff(e: End, other: End, total: uint64)
    requires EndValid(e) && EndValid(other) && BothSolvent(e, other)
    ensures var f := e.(totalWithdraw := total);
            EndValid(f) && (BothSolvent(f, other) <==> StillFree(e, other, total))
  {
    DistributableTrue(e, other);
    LockedTrue(e);
    SameBooksValid(e, e.(totalWithdraw := total));
    assert Transferred(e.(totalWithdraw := total)) == Transferred(e);
  }

  /**
   A withdraw event is stored without a check; both ends stay solvent exactly when the
   tokens it takes are still free on the withdrawing end.
   */
  lemma WithdrawnSolventIff(c: Channel, p: Address, total: uint64)
    requires EndsValid(c) && BothSolvent(c.our, c.partner)
    ensures var d := Withdrawn(c, p, total);
            && EndsValid(d)
            && (BothSolvent(d.our, d.partner) <==>
                  if p == c.our.address then StillFree(c.our, c.partner, total)
                  else StillFree(c.partner, c.our, total))
  {
    if p == c.our.address {
      WithdrawSolventIff(c.our, c.partner, total);
    } else {
      WithdrawSolventIff(c.partner, c.our, total);
    }
  }

  lemma WithdrawKeepsInv(caps: Caps, c: Channel, p: Address, total: uint64)
    requires NodeInv(caps, c) && HonestChain(caps, c, NewWithdraw(p, total))
    ensures NodeInv(caps, Withdrawn(c, p, total))
  {
    WithdrawnSolventIff(c, p, total);
  }

  lemma NewBalanceKeepsInv(cfg: Config, caps: Caps, c: Channel, d: Deposit, at: uint32)
    requires NodeInv(caps, c) && WithinCaps(caps, c, d)
    ensures NodeInv(caps, NewBalance(cfg, c, d, at))
  {
    if Confirmed(cfg, d.height, at) {
      ApplyDepositKeepsInv(caps, c, d);
    } else {
      PushElements(c.deposits, d);
      assert forall i :: 0 <= i < |Push(c.deposits, d)| ==> Push(c.deposits, d)[i] in Push(c.deposits, d);
    }
  }

  lemma BlockKeepsInv(cfg: Config, caps: Caps, c: Channel, at: uint32)
    requires NodeInv(caps, c)
    ensures NodeInv(caps, HandleBlock(cfg, c, at).channel)
  {
    DrainKeepsInv(cfg, caps, c, at);
    DrainKeepsInv(cfg, caps, c.(settleTx := Some(Tx(at, 0, NoResult))), at);
  }

  lemma ChainStepKeepsInv(cfg: Config, caps: Caps, c: Channel, ev: Event)
    requires NodeInv(caps, c) && HonestChain(caps, c, ev)
    requires ev.NewBlock? || ev.NewDeposit? || ev.NewWithdraw?
    ensures NodeInv(caps, Step(cfg, c, ev))
  {
    match ev
    case NewBlock(at) => BlockKeepsInv(cfg, caps, c, at);
    case NewDeposit(d, at) => NewBalanceKeepsInv(cfg, caps, c, d, at);
    case NewWithdraw(p, total) => WithdrawKeepsInv(caps, c, p, total);
  }

  lemma SendStepKeepsInv(cfg: Config, caps: Caps, c: Channel, ev: Event)
    requires NodeInv(caps, c) && FreshLocks(c, ev)
    requires ev.DoDirect? || ev.DoLocked? || ev.DoUnlock? || ev.DoExpire?
    ensures NodeInv(caps, Step(cfg, c, ev))
  {
    match ev
    case DoDirect(amount) =>
      SendDirectFits(c, amount);
      if SendDirect(c, amount).Sent? {
        SentAffordable(c, amount);
        DirectSpends(c, amount);
      }
      SentKeepsInv(caps, c, SendDirect(c, amount));
    case DoLocked(amount, expiration, h) =>
      SendLockedFits(c, amount, expiration, h);
      if SendLocked(c, amount, expiration, h).Sent? {
        SentAffordable(c, amount);
      }
      SentKeepsInv(caps, c, SendLocked(c, amount, expiration, h));
    case DoUnlock(secret) =>
      SendUnlockFits(c, secret);
      SentKeepsInv(caps, c, SendUnlock(c, secret, SecretDigest(secret)));
    case DoExpire(h, at) =>
      SendExpiredFits(cfg, c, h, at);
      SentKeepsInv(caps, c, SendExpired(cfg, c, h, at));
  }

  lemma DirectSpends(c: Channel, amount: uint64)
    requires EndValid(c.our) && SendDirect(c, amount).Sent?
    ensures Spend(ViewOf(c.our), SendDirect(c, amount).message) == amount
  {
    LockedTrue(c.our);
    DistributableBelowLimit(c.our, c.partner);
  }

  lemma StepKeepsInv(cfg: Config, caps: Caps, c: Channel, ev: Event)
    requires NodeInv(caps, c) && FreshLocks(c, ev) && HonestChain(caps, c, ev)
    ensures NodeInv(caps, Step(cfg, c, ev))
  {
    if ev.DoDirect? || ev.DoLocked? || ev.DoUnlock? || ev.DoExpire? {
      SendStepKeepsInv(cfg, caps, c, ev);
    } else if ev.Get? {
      ReceiveKeepsInv(cfg, caps, c, ev.message, ev.at);
    } else if ev.LearnOffChain? || ev.LearnOnChain? {
      LearnKeepsInv(cfg, caps, c, ev);
    } else if ev.NewBlock? || ev.NewDeposit? || ev.NewWithdraw? {
      ChainStepKeepsInv(cfg, caps, c, ev);
    } else {
      assert Step(cfg, c, ev).our == c.our && Step(cfg, c, ev).partner == c.partner;
      assert Step(cfg, c, ev).deposits == c.deposits;
    }
  }

  // ----- whole runs -----

  ghost predicate HonestRun(cfg: Config, caps: Caps, run: seq<Channel>, events: seq<Event>) {
    && IsRun(cfg, run, events)
    && caps.our + caps.partner <= MAX64
    && run[0].our.contractBalance <= caps.our && run[0].partner.contractBalance <= caps.partner
    && forall i :: 0 <= i < |events| ==> HonestChain(caps, run[i], events[i])
  }

  lemma {:induction false} RunKeepsInv(cfg: Config, caps: Caps, run: seq<Channel>, events: seq<Event>, n: nat)
    requires HonestRun(cfg, caps, run, events) && n < |run|
    ensures NodeInv(caps, run[n])
  {
    if n == 0 {
      NewEndValid(run[0].our);
      NewEndValid(run[0].partner);
    } else {
      RunKeepsInv(cfg, caps, run, events, n - 1);
      StepKeepsInv(cfg, caps, run[n - 1], events[n - 1]);
    }
  }

  /** The end is covered, and the wrapped subtractions about it give the true values. */
  ghost predicate Covered(a: End, b: End) {
    var locked := SumLocks(Pending(a));
    && Transferred(a) + locked + a.totalWithdraw <= a.contractBalance + Transferred(b)
    && GetBalance(a, b) == a.contractBalance - a.totalWithdraw - Transferred(a) + Transferred(b)
    && GetDistributable(a, b) == Min(MAX64 - Transferred(a) - locked, GetBalance(a, b) - locked)
  }

  lemma SolventCovered(a: End, b: End)
    requires EndValid(a) && EndValid(b) && BothSolvent(a, b)
    ensures Covered(a, b)
  {
    DistributableTrue(a, b);
  }

  /**
   Solvency: in every reachable state each end's transferred, locked and withdrawn
   amounts are covered by its deposit and the other end's transfers, and the wrapped
   subtractions of `getBalance` and `GetDistributable` give the true values.
   */
  lemma RunIsSolvent(cfg: Config, caps: Caps, run: seq<Channel>, events: seq<Event>, n: nat)
    requires HonestRun(cfg, caps, run, events) && n < |run|
    ensures Covered(run[n].our, run[n].partner) && Covered(run[n].partner, run[n].our)
  {
    RunKeepsInv(cfg, caps, run, events, n);
    SolventCovered(run[n].our, run[n].partner);
    SolventCovered(run[n].partner, run[n].our);
  }

  lemma CoopBalancesTrue(e: End, other: End)
    requires EndValid(e) && EndValid(other) && BothSolvent(e, other)
    ensures CoopBalance(e, other)
         == e.contractBalance - e.totalWithdraw + Transferred(other) - Transferred(e)
            + SumLocks(Pending(other)) - SumLocks(Pending(e))
    ensures CoopBalance(e, other) + CoopBalance(other, e)
         == e.contractBalance + other.contractBalance - e.totalWithdraw - other.totalWithdraw
  {
    LockedTrue(e);
    LockedTrue(other);
  }

  /**
   Cooperative settlement splits exactly what is left on-chain: no computed balance
   wraps below zero and the two add up to both deposits minus both withdrawals.
   */
  lemma RunSettlesExactly(cfg: Config, caps: Caps, run: seq<Channel>, events: seq<Event>, n: nat)
    requires HonestRun(cfg, caps, run, events) && n < |run|
    ensures var (a, b) := (run[n].our, run[n].partner);
            && CoopBalance(a, b) + CoopBalance(b, a)
               == a.contractBalance + b.contractBalance - a.totalWithdraw - b.totalWithdraw
            && CoopBalance(a, b)
               == a.contractBalance - a.totalWithdraw + Transferred(b) - Transferred(a)
                  + SumLocks(Pending(b)) - SumLocks(Pending(a))
  {
    RunKeepsInv(cfg, caps, run, events, n);
    CoopBalancesTrue(run[n].our, run[n].partner);
  }
}
