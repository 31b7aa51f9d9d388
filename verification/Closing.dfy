/** Highest proof wins: which balance proof a close or update transaction carries. */
module Closing {
  import opened Prelude
  import opened Channel
  import opened Lifecycle
  import opened Node

  ghost predicate AcceptedAt(cfg: Config, run: seq<Channel>, events: seq<Event>, i: nat)
    requires |run| == |events| + 1 && i < |events|
  {
    events[i].Get? && Accepts(cfg, run[i], events[i].message, events[i].at) && run[i].partner.tree != []
  }

  /** The partner proofs accepted in the first n steps, oldest first. */
  ghost function AcceptedProofs(cfg: Config, run: seq<Channel>, events: seq<Event>, n: nat): seq<BalanceProof>
    requires |run| == |events| + 1 && n <= |events|
  {
    if n == 0 then []
    else
      var before := AcceptedProofs(cfg, run, events, n - 1);
      if AcceptedAt(cfg, run, events, n - 1) then before + [events[n - 1].message.proof] else before
  }

  lemma InstalledProof(cfg: Config, c: Channel, ev: Event)
    ensures Step(cfg, c, ev).partner.proof ==
            if ev.Get? && Accepts(cfg, c, ev.message, ev.at) && c.partner.tree != []
            then Some(ev.message.proof) else c.partner.proof
  {
    if KeepsBooks(ev) {
      StepKeepsBooks(cfg, c, ev);
    }
  }

  lemma AcceptedIsNext(cfg: Config, c: Channel, m: Message, height: uint32)
    requires Accepts(cfg, c, m, height)
    ensures m.proof.nonce == NextNonce(c.partner) && GetStatus(c) == Opened
  {
  }

  ghost predicate Numbered(proofs: seq<BalanceProof>, installed: Option<BalanceProof>) {
    && (forall i :: 0 <= i < |proofs| ==> proofs[i].nonce == Wrap64(i + 1))
    && installed == if proofs == [] then None else Some(proofs[|proofs| - 1])
  }

  lemma NextIsNumbered(proofs: seq<BalanceProof>, e: End, p: BalanceProof)
    requires Numbered(proofs, e.proof) && p.nonce == NextNonce(e)
    ensures Numbered(proofs + [p], Some(p))
  {
    WrapNext(|proofs|);
  }

  lemma WrapNext(n: nat)
    ensures Wrap64(Wrap64(n) + 1) == Wrap64(n + 1)
  {
  }

  /** Accepted proofs carry the nonces 1, 2, 3, ... without a gap, and the last one is installed. */
  lemma {:induction false} NoncesWithoutGaps(cfg: Config, run: seq<Channel>, events: seq<Event>, n: nat)
    requires IsRun(cfg, run, events) && n <= |events|
    ensures Numbered(AcceptedProofs(cfg, run, events, n), run[n].partner.proof)
  {
    if n > 0 {
      NoncesWithoutGaps(cfg, run, events, n - 1);
      InstalledProof(cfg, run[n - 1], events[n - 1]);
      if AcceptedAt(cfg, run, events, n - 1) {
        AcceptedIsNext(cfg, run[n - 1], events[n - 1].message, events[n - 1].at);
        NextIsNumbered(AcceptedProofs(cfg, run, events, n - 1), run[n - 1].partner, events[n - 1].message.proof);
      }
    }
  }

  lemma StepKeepsClose(cfg: Config, c: Channel, ev: Event)
    requires c.closeTx.Some?
    ensures Step(cfg, c, ev).closeTx.Some?
    ensures Step(cfg, c, ev).partner.proof == c.partner.proof
    ensures GetStatus(c) != Opened
  {
    InstalledProof(cfg, c, ev);
    if ev.Get? && Accepts(cfg, c, ev.message, ev.at) {
      AcceptedIsNext(cfg, c, ev.message, ev.at);
    }
    if ev.NewBlock? {
      DrainKeepsBooks(cfg, c, ev.at);
      DrainKeepsBooks(cfg, c.(settleTx := Some(Tx(ev.at, 0, NoResult))), ev.at);
    }
  }

  /** Once a close transaction is recorded the channel never reopens and the partner proof is frozen. */
  lemma {:induction false} CloseFreezes(cfg: Config, run: seq<Channel>, events: seq<Event>, i: nat, j: nat)
    requires IsRun(cfg, run, events) && i <= j < |run| && run[i].closeTx.Some?
    ensures run[j].closeTx.Some? && GetStatus(run[j]) != Opened
    ensures run[j].partner.proof == run[i].partner.proof
    ensures AcceptedProofs(cfg, run, events, j) == AcceptedProofs(cfg, run, events, i)
    decreases j - i
  {
    if i < j {
      CloseFreezes(cfg, run, events, i, j - 1);
      StepKeepsClose(cfg, run[j - 1], events[j - 1]);
      if AcceptedAt(cfg, run, events, j - 1) {
        AcceptedIsNext(cfg, run[j - 1], events[j - 1].message, events[j - 1].at);
      }
    }
  }

  ghost function Outputs(cfg: Config, c: Channel, ev: Event): seq<Output> {
    match ev
    case NewBlock(at) => HandleBlock(cfg, c, at).outputs
    case DoClose(at) => CloseChannel(c, at).outputs
    case ChainClosed(id, from, at) => ChannelClosed(c, id, from, at).outputs
    case _ => []
  }

  /**
   The proof put in a close or update transaction at step k is the newest ever
   accepted in the run, before or after: its nonce is the number of accepted proofs,
   which no accepted proof exceeds (while that number fits a word).
   */
  lemma HighestProofWins(cfg: Config, run: seq<Channel>, events: seq<Event>, k: nat, out: Output)
    requires IsRun(cfg, run, events) && k < |events|
    requires out in Outputs(cfg, run[k], events[k]) && !out.SendSettle?
    ensures var all := AcceptedProofs(cfg, run, events, |events|);
            && out.proof == (if all == [] then None else Some(all[|all| - 1]))
            && (|all| <= MAX64 && out.proof.Some? ==>
                  && out.proof.value.nonce == |all|
                  && forall i :: 0 <= i < |all| ==> all[i].nonce <= out.proof.value.nonce)
  {
    NoncesWithoutGaps(cfg, run, events, k);
    InstalledProof(cfg, run[k], events[k]);
    CloseFreezes(cfg, run, events, k + 1, |events|);
    NoncesWithoutGaps(cfg, run, events, |events|);
  }

  // ----- when a close or an update is sent at all -----

  /** Nothing is settled, and no close has succeeded or ended. */
  predicate MayClose(c: Channel) {
    && c.settleTx == None
    && (c.closeTx.Some? ==> c.closeTx.value.result != Success && c.closeTx.value.finished == 0)
  }

  /** The chain reports the close of this channel while it is open or closing. */
  ghost predicate CloseHeeded(c: Channel, ev: Event) {
    ev.ChainClosed? && ev.channelId == c.key.channelId && MayClose(c)
  }

  /** The chain reported an update of this channel, or the node sent one, in the first n steps. */
  ghost predicate UpdateRecorded(cfg: Config, run: seq<Channel>, events: seq<Event>, n: nat)
    requires |run| == |events| + 1 && n <= |events|
  {
    exists i :: 0 <= i < n &&
      ((events[i].ChainUpdated? && events[i].channelId == run[i].key.channelId)
       || exists p :: SendUpdate(p) in Outputs(cfg, run[i], events[i]))
  }

  lemma StepRecordsUpdate(cfg: Config, c: Channel, ev: Event)
    ensures var sent := exists p :: SendUpdate(p) in Outputs(cfg, c, ev);
            Step(cfg, c, ev).updateTx.Some? <==>
              c.updateTx.Some? || (ev.ChainUpdated? && ev.channelId == c.key.channelId) || sent
  {
    if ev.NewBlock? {
      DrainKeepsBooks(cfg, c, ev.at);
      DrainKeepsBooks(cfg, c.(settleTx := Some(Tx(ev.at, 0, NoResult))), ev.at);
    }
    if ev.ChainClosed? {
      var outputs := Outputs(cfg, c, ev);
      if outputs != [] {
        assert outputs == [SendUpdate(c.partner.proof)] && SendUpdate(c.partner.proof) in outputs;
      }
    }
  }

  lemma {:induction false} UpdateTracked(cfg: Config, run: seq<Channel>, events: seq<Event>, n: nat)
    requires IsRun(cfg, run, events) && n <= |events|
    ensures run[n].updateTx.Some? <==> UpdateRecorded(cfg, run, events, n)
  {
    if n > 0 {
      UpdateTracked(cfg, run, events, n - 1);
      StepRecordsUpdate(cfg, run[n - 1], events[n - 1]);
    }
  }

  ghost function Newest(proofs: seq<BalanceProof>): Option<BalanceProof> {
    if proofs == [] then None else Some(proofs[|proofs| - 1])
  }

  /**
   A close of this channel by another address, reported while it is open or closing, is
   answered by exactly one update with the newest accepted proof, when there is one and
   no update was recorded before; every other report is answered by nothing.
   */
  lemma CloseAnsweredIff(cfg: Config, run: seq<Channel>, events: seq<Event>, k: nat)
    requires IsRun(cfg, run, events) && k < |events| && events[k].ChainClosed?
    ensures var (c, ev, proofs) := (run[k], events[k], AcceptedProofs(cfg, run, events, k));
            Outputs(cfg, c, ev) ==
              if CloseHeeded(c, ev) && ev.from != c.our.address && proofs != []
                 && !UpdateRecorded(cfg, run, events, k)
              then [SendUpdate(Newest(proofs))] else []
  {
    NoncesWithoutGaps(cfg, run, events, k);
    UpdateTracked(cfg, run, events, k);
  }

  /** A heeded report closes the channel at its height; any other report changes nothing. */
  lemma ReportCloses(cfg: Config, c: Channel, ev: Event)
    requires ev.ChainClosed?
    ensures var d := Step(cfg, c, ev);
            if CloseHeeded(c, ev) then
              && GetStatus(d) == Closed && d.closeTx.Some? && d.closeTx.value.finished == ev.at
              && d.closeTx.value.started == (if c.closeTx.Some? then c.closeTx.value.started else 0)
              && d == c.(closeTx := d.closeTx, updateTx := d.updateTx)
            else d == c
  {
  }

  /** A close that is asked for on an open or closing channel is sent once, with the newest accepted proof. */
  lemma CloseSentIff(cfg: Config, run: seq<Channel>, events: seq<Event>, k: nat)
    requires IsRun(cfg, run, events) && k < |events| && events[k].DoClose?
    ensures Outputs(cfg, run[k], events[k]) ==
              if MayClose(run[k]) then [SendClose(Newest(AcceptedProofs(cfg, run, events, k)))] else []
    ensures run[k + 1] ==
              if MayClose(run[k]) then run[k].(closeTx := Some(Tx(events[k].at, 0, NoResult))) else run[k]
    ensures MayClose(run[k]) ==> GetStatus(run[k + 1]) == Closing
  {
    NoncesWithoutGaps(cfg, run, events, k);
  }
}
