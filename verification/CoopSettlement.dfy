/**
 What a cooperative settlement may contain (transfer/channel.go): a node signs a split,
 and takes a signed one to the chain, exactly when each side gets its true share.
 */
module CoopSettlement {
  import opened Prelude
  import opened Channel
  import opened Ledger
  import opened Agreement
  import opened Lifecycle
  import opened Node
  import opened Solvency

  /** What is left of an end's deposit once every pending lock has gone to its receiver. */
  ghost function Share(e: End, other: End): int {
    e.contractBalance - e.totalWithdraw
    + (Transferred(other) + SumLocks(Pending(other))) - (Transferred(e) + SumLocks(Pending(e)))
  }

  /** Nothing was closed or settled on the channel so far. */
  predicate Untouched(c: Channel) {
    c.settleTx == None && c.closeTx == None
  }

  /** A settlement was begun and has neither succeeded nor ended. */
  predicate SettlementBegun(c: Channel) {
    c.settleTx.Some? && c.settleTx.value.result != Success && c.settleTx.value.finished == 0
  }

  /** The partner proposes, in its own name and with its signature, the true shares of both. */
  ghost predicate FairRequest(c: Channel, m: CoopMessage) {
    && m.participant1 == c.partner.address && m.balance1 == Share(c.partner, c.our)
    && m.participant2 == c.our.address && m.balance2 == Share(c.our, c.partner)
    && m.signer1 == c.partner.address && m.signed1
  }

  /** Our own proposal of the true shares came back with both signatures. */
  ghost predicate FairReply(c: Channel, m: CoopMessage) {
    && m.participant1 == c.our.address && m.balance1 == Share(c.our, c.partner)
    && m.participant2 == c.partner.address && m.balance2 == Share(c.partner, c.our)
    && m.signer1 == c.our.address && m.signed1
    && m.signer2 == c.partner.address && m.signed2
  }

  /** The computed balances of both ends are their true shares. */
  ghost predicate SharesTrue(c: Channel) {
    && CoopBalance(c.our, c.partner) == Share(c.our, c.partner)
    && CoopBalance(c.partner, c.our) == Share(c.partner, c.our)
  }

  lemma BalancesAreShares(c: Channel)
    requires EndsValid(c) && BothSolvent(c.our, c.partner)
    ensures SharesTrue(c)
  {
    CoopBalancesTrue(c.our, c.partner);
    CoopBalancesTrue(c.partner, c.our);
  }

  /** The two shares are what is left on the chain. */
  lemma SharesAddUp(c: Channel)
    ensures Share(c.our, c.partner) + Share(c.partner, c.our)
         == c.our.contractBalance + c.partner.contractBalance - c.our.totalWithdraw - c.partner.totalWithdraw
  {
  }

  lemma RequestChecks(c: Channel, m: CoopMessage)
    requires SharesTrue(c)
    ensures ValidCoopRequest(c, m) <==> Untouched(c) && FairRequest(c, m)
  {
  }

  lemma ReplyChecks(c: Channel, m: CoopMessage)
    requires SharesTrue(c)
    ensures ValidCoopReply(c, m) <==> SettlementBegun(c) && FairReply(c, m)
  {
  }

  /** A request is accepted exactly when the channel is untouched and the split fair. */
  lemma RequestAcceptedIff(c: Channel, m: CoopMessage)
    requires EndsValid(c) && BothSolvent(c.our, c.partner)
    ensures ValidCoopRequest(c, m) <==> Untouched(c) && FairRequest(c, m)
    ensures ValidCoopRequest(c, m) ==>
              m.balance1 + m.balance2 == c.our.contractBalance + c.partner.contractBalance
                                         - c.our.totalWithdraw - c.partner.totalWithdraw
  {
    BalancesAreShares(c);
    RequestChecks(c, m);
    SharesAddUp(c);
  }

  /** A reply goes to the chain exactly when a settlement was begun and the split is still fair. */
  lemma ReplyAcceptedIff(c: Channel, m: CoopMessage)
    requires EndsValid(c) && BothSolvent(c.our, c.partner)
    ensures ValidCoopReply(c, m) <==> SettlementBegun(c) && FairReply(c, m)
    ensures ValidCoopReply(c, m) ==>
              m.balance1 + m.balance2 == c.our.contractBalance + c.partner.contractBalance
                                         - c.our.totalWithdraw - c.partner.totalWithdraw
  {
    BalancesAreShares(c);
    ReplyChecks(c, m);
    SharesAddUp(c);
  }

  /** What a node proposes is fair, and while it waits for the reply it takes nothing else to the chain. */
  lemma ProposalIsFair(c: Channel)
    requires EndsValid(c) && BothSolvent(c.our, c.partner) && Untouched(c)
    ensures SettlementBegun(SendCoopRequest(c)) && GetStatus(SendCoopRequest(c)) != Opened
    ensures var m := CoopRequest(c);
            && FairReply(c, m.(signer2 := c.partner.address, signed2 := true))
            && (forall r :: ValidCoopReply(SendCoopRequest(c), r) <==>
                  r == m.(signer2 := c.partner.address, signed2 := true))
  {
    var d := SendCoopRequest(c);
    BalancesAreShares(c);
    forall r: CoopMessage
      ensures ValidCoopReply(d, r) <==> r == CoopRequest(c).(signer2 := c.partner.address, signed2 := true)
    {
      ReplyChecks(d, r);
    }
  }

  /**
   Over whole runs: whatever the partner proposes, a settlement is begun by its request
   exactly when the request splits what is on the chain fairly.
   */
  lemma RunSignsFairSplits(cfg: Config, caps: Caps, run: seq<Channel>, events: seq<Event>, k: nat)
    requires HonestRun(cfg, caps, run, events) && k < |events| && events[k].GetCoopRequest?
    ensures run[k + 1] == if Untouched(run[k]) && FairRequest(run[k], events[k].coop)
                          then run[k].(settleTx := ONGOING) else run[k]
  {
    RunKeepsInv(cfg, caps, run, events, k);
    RequestAcceptedIff(run[k], events[k].coop);
  }

  /** A reply that is not the fair split in both names ends the settlement and changes nothing else. */
  lemma RunSettlesFairSplits(cfg: Config, caps: Caps, run: seq<Channel>, events: seq<Event>, k: nat)
    requires HonestRun(cfg, caps, run, events) && k < |events| && events[k].GetCoopReply?
    ensures run[k + 1] == if SettlementBegun(run[k]) && FairReply(run[k], events[k].coop) then run[k]
                          else run[k].(settleTx := None)
  {
    RunKeepsInv(cfg, caps, run, events, k);
    ReplyAcceptedIff(run[k], events[k].coop);
  }
}
