/**
 Deposits, withdrawals, blocks, closing and cooperative settlement of one channel
 (transfer/channel.go).
 */
module Lifecycle {
  import opened Prelude
  import opened Channel

  // ----- deposits -----

  /** `IsTransactionConfirmed`. */
  predicate Confirmed(cfg: Config, transactionHeight: uint32, height: uint32) {
    height > Wrap32(transactionHeight + cfg.confirmBlockCount)
  }

  /** `updateContractBalance`. */
  function RaiseBalance(e: End, balance: uint64): End {
    if balance > e.contractBalance then e.(contractBalance := balance) else e
  }

  /** `applyChannelNewBalance`. */
  function ApplyDeposit(c: Channel, d: Deposit): Channel {
    if d.participant == c.our.address then c.(our := RaiseBalance(c.our, d.balance))
    else if d.participant == c.partner.address then c.(partner := RaiseBalance(c.partner, d.balance))
    else c
  }

  /** `TransactionOrderHeap.Push`: append, then sort by height. */
  function Push(q: seq<Deposit>, d: Deposit): seq<Deposit> {
    if q == [] || q[|q| - 1].height <= d.height then q + [d]
    else Push(q[..|q| - 1], d) + [q[|q| - 1]]
  }

  lemma {:induction false} PushAdds(q: seq<Deposit>, d: Deposit)
    ensures multiset(Push(q, d)) == multiset(q) + multiset{d}
  {
    if !(q == [] || q[|q| - 1].height <= d.height) {
      PushAdds(q[..|q| - 1], d);
      assert q == q[..|q| - 1] + [q[|q| - 1]];
    }
  }

  lemma PushElements(q: seq<Deposit>, d: Deposit)
    ensures forall x :: x in Push(q, d) <==> x == d || x in q
  {
    PushAdds(q, d);
    assert forall x :: x in Push(q, d) <==> x in multiset(Push(q, d));
  }

  /** The drain loop of `handleBlock`. */
  function Drain(cfg: Config, c: Channel, height: uint32): Channel
    decreases |c.deposits|
  {
    if c.deposits != [] && Confirmed(cfg, c.deposits[0].height, height) then
      Drain(cfg, ApplyDeposit(c.(deposits := c.deposits[1..]), c.deposits[0]), height)
    else c
  }

  /** `handleChannelNewBalance`. */
  function NewBalance(cfg: Config, c: Channel, d: Deposit, height: uint32): Channel {
    if Confirmed(cfg, d.height, height) then ApplyDeposit(c, d)
    else c.(deposits := Push(c.deposits, d))
  }

  // ----- withdrawals -----

  /** `isValidWithdrawAmount`. */
  ghost predicate ValidWithdrawAmount(participant: End, partner: End, total: uint64) {
    && total >= participant.totalWithdraw
    && Wrap64(total - participant.totalWithdraw) > 0
    && Wrap64(total + partner.totalWithdraw) <= Wrap64(participant.contractBalance + partner.contractBalance)
    && Wrap64(total - participant.totalWithdraw) <= GetDistributable(participant, partner)
  }

  /** `handleChannelWithdraw`: the chain's total is taken as it comes. */
  function Withdrawn(c: Channel, participant: Address, total: uint64): Channel {
    if participant == c.our.address then c.(our := c.our.(totalWithdraw := total))
    else c.(partner := c.partner.(totalWithdraw := total))
  }

  // ----- closing -----

  datatype Output =
    | SendClose(proof: Option<BalanceProof>)
    | SendUpdate(proof: Option<BalanceProof>)
    | SendSettle

  datatype Result = Result(channel: Channel, outputs: seq<Output>)

  /** `EventsForClose`. */
  function CloseChannel(c: Channel, height: uint32): Result {
    if GetStatus(c) == Opened || GetStatus(c) == Closing then
      Result(c.(closeTx := Some(Tx(height, 0, NoResult))), [SendClose(c.partner.proof)])
    else Result(c, [])
  }

  /** `setClosed`. */
  function SetClosed(c: Channel, height: uint32): Channel {
    if c.closeTx.None? then c.(closeTx := Some(Tx(0, height, Success)))
    else if c.closeTx.value.finished == 0 then
      c.(closeTx := Some(c.closeTx.value.(finished := height, result := Success)))
    else c
  }

  /** `handleChannelClosed`. */
  function ChannelClosed(c: Channel, channelId: nat, from: Address, height: uint32): Result {
    if channelId == c.key.channelId && (GetStatus(c) == Opened || GetStatus(c) == Closing) then
      var closed := SetClosed(c, height);
      if from != c.our.address && c.partner.proof.Some? && c.updateTx.None? then
        Result(closed.(updateTx := Some(Tx(height, 0, NoResult))), [SendUpdate(c.partner.proof)])
      else Result(closed, [])
    else Result(c, [])
  }

  /** `handleChannelUpdatedTransfer`. */
  function UpdatedTransfer(c: Channel, channelId: nat): Channel {
    if channelId == c.key.channelId then c.(updateTx := Some(Tx(0, 0, Success))) else c
  }

  /** `handleBlock`: settle after the settlement window, then drain the deposit queue. */
  function HandleBlock(cfg: Config, c: Channel, height: uint32): Result {
    var settle := GetStatus(c) == Closed && c.settleTx.None?
                  && height > Wrap32(c.closeTx.value.finished + c.settleTimeout);
    var c1 := if settle then c.(settleTx := Some(Tx(height, 0, NoResult))) else c;
    Result(Drain(cfg, c1, height), if settle then [SendSettle] else [])
  }

  // ----- cooperative settlement -----

  datatype CoopMessage = CoopMessage(participant1: Address, balance1: uint64,
                                     participant2: Address, balance2: uint64,
                                     signer1: Address, signed1: bool, signer2: Address, signed2: bool)

  /** `calculateCooperativeSettleBalance`. */
  ghost function CoopBalance(e: End, other: End): uint64 {
    Wrap64(e.contractBalance - e.totalWithdraw + Transferred(other) - Transferred(e)
           + CurrentLocked(other) - CurrentLocked(e))
  }

  /** The request of `handleSendCooperativeSettleRequest`, signed by its sender. */
  ghost function CoopRequest(c: Channel): CoopMessage {
    CoopMessage(c.our.address, CoopBalance(c.our, c.partner), c.partner.address, CoopBalance(c.partner, c.our),
                c.our.address, true, 0, false)
  }

  const ONGOING: Option<Tx> := Some(Tx(0, 0, NoResult))

  ghost function SendCoopRequest(c: Channel): Channel {
    if GetStatus(c) == Opened then c.(settleTx := ONGOING) else c
  }

  /** `isValidCooperativeSettleRequest`. */
  ghost predicate ValidCoopRequest(c: Channel, m: CoopMessage) {
    && GetStatus(c) == Opened
    && c.partner.address == m.participant1
    && c.our.address == m.participant2
    && m.participant1 == m.signer1
    && CoopBalance(c.our, c.partner) == m.balance2
    && CoopBalance(c.partner, c.our) == m.balance1
    && m.signed1
  }

  ghost function ReceiveCoopRequest(c: Channel, m: CoopMessage): Channel {
    if ValidCoopRequest(c, m) then c.(settleTx := ONGOING) else c
  }

  /** The reply carries the request back with the second signature. */
  function CoopReply(c: Channel, m: CoopMessage): CoopMessage {
    m.(signer2 := c.our.address, signed2 := true)
  }

  /** `isValidCooperativeSettle`. */
  ghost predicate ValidCoopReply(c: Channel, m: CoopMessage) {
    && GetStatus(c) == Settling
    && c.our.address == m.participant1
    && c.partner.address == m.participant2
    && m.participant1 == m.signer1
    && m.participant2 == m.signer2
    && CoopBalance(c.our, c.partner) == m.balance1
    && CoopBalance(c.partner, c.our) == m.balance2
    && m.signed1 && m.signed2
  }

  /** `handleCooperativeSettleReceived`: an invalid reply drops the pending settlement. */
  ghost function ReceiveCoopReply(c: Channel, m: CoopMessage): Channel {
    if ValidCoopReply(c, m) then c else c.(settleTx := None)
  }
}
