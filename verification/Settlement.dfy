/** When a closed channel is settled on the chain (transfer/channel.go), over whole runs. */
module Settlement {
  import opened Prelude
  import opened Channel
  import opened Lifecycle
  import opened Node
  import opened Closing
  import opened CoopSettlement

  /** After the close at step i a settlement was sent and no refused reply has cleared it since. */
  ghost predicate SettleSent(cfg: Config, run: seq<Channel>, events: seq<Event>, i: nat, n: nat)
    requires |run| == |events| + 1 && n <= |events|
  {
    if n <= i + 1 then false
    else
      var (c, ev) := (run[n - 1], events[n - 1]);
      if ev.GetCoopReply? then SettleSent(cfg, run, events, i, n - 1) && ValidCoopReply(c, ev.coop)
      else SettleSent(cfg, run, events, i, n - 1) || SendSettle in Outputs(cfg, c, ev)
  }

  lemma StepAfterClose(cfg: Config, c: Channel, ev: Event)
    requires c.closeTx.Some? && c.closeTx.value.result == Success
    requires c.settleTx.Some? ==> SettlementBegun(c)
    ensures var d := Step(cfg, c, ev);
            && d.closeTx == c.closeTx && d.settleTimeout == c.settleTimeout
            && (d.settleTx.Some? ==> SettlementBegun(d))
            && (d.settleTx.Some? <==>
                  if ev.GetCoopReply? then c.settleTx.Some? && ValidCoopReply(c, ev.coop)
                  else c.settleTx.Some? || SendSettle in Outputs(cfg, c, ev))
  {
    if ev.NewBlock? {
      DrainKeepsBooks(cfg, c, ev.at);
      DrainKeepsBooks(cfg, c.(settleTx := Some(Tx(ev.at, 0, NoResult))), ev.at);
    }
  }

  /** Once a close was heeded its height stays, and a settle transaction is recorded exactly while one is under way. */
  lemma {:induction false} ClosedTracked(cfg: Config, run: seq<Channel>, events: seq<Event>, i: nat, n: nat)
    requires IsRun(cfg, run, events) && i < n <= |events| && CloseHeeded(run[i], events[i])
    ensures run[n].closeTx == run[i + 1].closeTx && run[n].settleTimeout == run[i + 1].settleTimeout
    ensures run[n].settleTx.Some? ==> SettlementBegun(run[n])
    ensures run[n].settleTx.Some? <==> SettleSent(cfg, run, events, i, n)
    decreases n
  {
    ReportCloses(cfg, run[i], events[i]);
    if n > i + 1 {
      ClosedTracked(cfg, run, events, i, n - 1);
      StepAfterClose(cfg, run[n - 1], events[n - 1]);
    }
  }

  /**
   A block after a heeded close sends exactly one settlement when it lies beyond the
   settlement window counted from the height of that close and none is under way.
   */
  lemma SettledAfterWindow(cfg: Config, run: seq<Channel>, events: seq<Event>, i: nat, k: nat)
    requires IsRun(cfg, run, events) && i < k < |events|
    requires CloseHeeded(run[i], events[i]) && events[k].NewBlock?
    ensures Outputs(cfg, run[k], events[k]) ==
              if events[k].at > Wrap32(events[i].at + run[i].settleTimeout) && !SettleSent(cfg, run, events, i, k)
              then [SendSettle] else []
  {
    ReportCloses(cfg, run[i], events[i]);
    ClosedTracked(cfg, run, events, i, k);
  }

  lemma {:induction false} OpenUntilHeeded(cfg: Config, run: seq<Channel>, events: seq<Event>, n: nat)
    requires IsRun(cfg, run, events) && n < |run|
    requires forall i :: 0 <= i < n ==> !CloseHeeded(run[i], events[i])
    ensures run[n].closeTx.Some? ==> run[n].closeTx.value.result != Success && run[n].closeTx.value.finished == 0
  {
    if n > 0 {
      OpenUntilHeeded(cfg, run, events, n - 1);
      var (c, ev) := (run[n - 1], events[n - 1]);
      if ev.NewBlock? {
        DrainKeepsBooks(cfg, c, ev.at);
        DrainKeepsBooks(cfg, c.(settleTx := Some(Tx(ev.at, 0, NoResult))), ev.at);
      } else if ev.ChainClosed? {
        ReportCloses(cfg, c, ev);
      }
    }
  }

  /** Without a heeded close no block sends a settlement. */
  lemma NoSettleBeforeClose(cfg: Config, run: seq<Channel>, events: seq<Event>, k: nat)
    requires IsRun(cfg, run, events) && k < |events| && events[k].NewBlock?
    requires forall i :: 0 <= i < k ==> !CloseHeeded(run[i], events[i])
    ensures Outputs(cfg, run[k], events[k]) == []
  {
    OpenUntilHeeded(cfg, run, events, k);
  }
}
