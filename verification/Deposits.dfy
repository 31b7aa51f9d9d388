/** The deposit queue refines a simple maximum over confirmed deposits. */
module Deposits {
  import opened Prelude
  import opened Channel
  import opened Lifecycle
  import opened Node

  ghost predicate ByHeight(q: seq<Deposit>) {
    forall i, j :: 0 <= i < j < |q| ==> q[i].height <= q[j].height
  }

  ghost predicate NoWrap(cfg: Config, d: Deposit) {
    d.height + cfg.confirmBlockCount <= MAX32
  }

  /** More than the confirmation depth of blocks has passed. */
  ghost predicate Ripe(cfg: Config, d: Deposit, height: uint32) {
    d.height + cfg.confirmBlockCount < height
  }

  /** `b` is the maximum of the initial balance and the ripe deposits of `who` that left the queue. */
  ghost predicate IsTop(cfg: Config, b: int, initial: int, history: multiset<Deposit>, who: Address, height: uint32,
                        q: seq<Deposit>)
  {
    && b >= initial
    && (forall d :: d in history && d.participant == who && Ripe(cfg, d, height) && d !in q ==> b >= d.balance)
    && (b == initial || exists d :: d in history && d.participant == who && Ripe(cfg, d, height) && b == d.balance)
  }

  ghost predicate BothTop(cfg: Config, first: Channel, c: Channel, history: multiset<Deposit>, height: uint32) {
    && IsTop(cfg, c.our.contractBalance, first.our.contractBalance, history, c.our.address, height, c.deposits)
    && IsTop(cfg, c.partner.contractBalance, first.partner.contractBalance, history, c.partner.address, height, c.deposits)
  }

  /** The queue holds every unripe deposit as often as it was announced, and only announced ones. */
  ghost predicate HoldsUnripe(cfg: Config, q: seq<Deposit>, history: multiset<Deposit>, height: uint32) {
    && ByHeight(q)
    && multiset(q) <= history
    && forall d :: d in history && !Ripe(cfg, d, height) ==> multiset(q)[d] == history[d]
  }

  ghost predicate QueueInv(cfg: Config, first: Channel, c: Channel, history: multiset<Deposit>, height: uint32) {
    && c.our.address == first.our.address && c.partner.address == first.partner.address
    && HoldsUnripe(cfg, c.deposits, history, height)
    && (forall i :: 0 <= i < |c.deposits| ==> !Ripe(cfg, c.deposits[i], height))
    && BothTop(cfg, first, c, history, height)
    && forall d :: d in history ==> NoWrap(cfg, d)
  }

  lemma {:induction false} PushSorts(q: seq<Deposit>, d: Deposit)
    requires ByHeight(q)
    ensures ByHeight(Push(q, d))
  {
    if q == [] || q[|q| - 1].height <= d.height {
      forall i | 0 <= i < |q| ensures q[i].height <= d.height {
        assert i < |q| - 1 ==> q[i].height <= q[|q| - 1].height;
      }
    } else {
      var init, last := q[..|q| - 1], q[|q| - 1];
      PushSorts(init, d);
      PushElements(init, d);
      var r := Push(init, d);
      forall i | 0 <= i < |r| ensures r[i].height <= last.height {
        assert r[i] in r;
      }
    }
  }

  lemma PopHolds(cfg: Config, q: seq<Deposit>, history: multiset<Deposit>, height: uint32)
    requires HoldsUnripe(cfg, q, history, height) && q != [] && Ripe(cfg, q[0], height)
    ensures HoldsUnripe(cfg, q[1..], history, height)
    ensures q[0] in history
    ensures forall d :: d in q ==> d == q[0] || d in q[1..]
  {
    assert q == [q[0]] + q[1..];
    assert multiset(q) == multiset{q[0]} + multiset(q[1..]);
    assert q[0] in multiset(q);
  }

  lemma PopTop(cfg: Config, e: End, initial: int, history: multiset<Deposit>, height: uint32, q: seq<Deposit>)
    requires q != [] && q[0] in history && Ripe(cfg, q[0], height)
    requires forall d :: d in q ==> d == q[0] || d in q[1..]
    requires IsTop(cfg, e.contractBalance, initial, history, e.address, height, q)
    ensures q[0].participant == e.address ==>
            IsTop(cfg, RaiseBalance(e, q[0].balance).contractBalance, initial, history, e.address, height, q[1..])
    ensures q[0].participant != e.address ==>
            IsTop(cfg, e.contractBalance, initial, history, e.address, height, q[1..])
  {
  }

  lemma HeadUnripe(cfg: Config, q: seq<Deposit>, history: multiset<Deposit>, height: uint32)
    requires HoldsUnripe(cfg, q, history, height) && (q != [] ==> !Ripe(cfg, q[0], height))
    requires forall d :: d in history ==> NoWrap(cfg, d)
    ensures forall i :: 0 <= i < |q| ==> !Ripe(cfg, q[i], height)
  {
    forall i | 0 <= i < |q| ensures !Ripe(cfg, q[i], height) {
      assert q[0] in multiset(q) && q[i] in multiset(q);
      assert NoWrap(cfg, q[0]) && NoWrap(cfg, q[i]);
      assert i > 0 ==> q[0].height <= q[i].height;
    }
  }

  lemma HeadConfirmed(cfg: Config, q: seq<Deposit>, history: multiset<Deposit>, height: uint32)
    requires q != [] && HoldsUnripe(cfg, q, history, height) && forall d :: d in history ==> NoWrap(cfg, d)
    ensures Confirmed(cfg, q[0].height, height) <==> Ripe(cfg, q[0], height)
  {
    assert q[0] in multiset(q);
  }

  lemma AfterHead(cfg: Config, first: Channel, c: Channel, history: multiset<Deposit>, height: uint32)
    requires first.our.address != first.partner.address && c.deposits != []
    requires c.our.address == first.our.address && c.partner.address == first.partner.address
    requires HoldsUnripe(cfg, c.deposits, history, height) && BothTop(cfg, first, c, history, height)
    requires Ripe(cfg, c.deposits[0], height)
    ensures var d := ApplyDeposit(c.(deposits := c.deposits[1..]), c.deposits[0]);
            && d.deposits == c.deposits[1..]
            && d.our.address == first.our.address && d.partner.address == first.partner.address
            && HoldsUnripe(cfg, d.deposits, history, height) && BothTop(cfg, first, d, history, height)
  {
    var q := c.deposits;
    PopHolds(cfg, q, history, height);
    PopTop(cfg, c.our, first.our.contractBalance, history, height, q);
    PopTop(cfg, c.partner, first.partner.contractBalance, history, height, q);
  }

  /** The drain loop terminates with no ripe deposit left, having applied each of them. */
  lemma {:induction false} DrainSettles(cfg: Config, first: Channel, c: Channel, history: multiset<Deposit>, height: uint32)
    requires first.our.address != first.partner.address
    requires c.our.address == first.our.address && c.partner.address == first.partner.address
    requires HoldsUnripe(cfg, c.deposits, history, height) && BothTop(cfg, first, c, history, height)
    requires forall d :: d in history ==> NoWrap(cfg, d)
    ensures QueueInv(cfg, first, Drain(cfg, c, height), history, height)
    decreases |c.deposits|
  {
    var q := c.deposits;
    if q != [] {
      HeadConfirmed(cfg, q, history, height);
    }
    if q != [] && Ripe(cfg, q[0], height) {
      AfterHead(cfg, first, c, history, height);
      DrainSettles(cfg, first, ApplyDeposit(c.(deposits := q[1..]), q[0]), history, height);
    } else {
      HeadUnripe(cfg, q, history, height);
    }
  }

  lemma LaterHolds(cfg: Config, first: Channel, c: Channel, history: multiset<Deposit>, h: uint32, h': uint32)
    requires QueueInv(cfg, first, c, history, h) && h <= h'
    ensures HoldsUnripe(cfg, c.deposits, history, h') && BothTop(cfg, first, c, history, h')
  {
    forall d | d in history && !Ripe(cfg, d, h') ensures !Ripe(cfg, d, h) {}
    forall d | d in history && Ripe(cfg, d, h') && d !in c.deposits ensures Ripe(cfg, d, h) {
      assert !Ripe(cfg, d, h) ==> multiset(c.deposits)[d] == history[d];
    }
    forall d | d in history && Ripe(cfg, d, h) ensures Ripe(cfg, d, h') {}
  }

  ghost function AfterEvent(history: multiset<Deposit>, ev: Event): multiset<Deposit> {
    if ev.NewDeposit? then history + multiset{ev.deposit} else history
  }

  /** The node's block height: `start`, then the height of the last block handled. */
  function HeightAt(start: uint32, events: seq<Event>, n: nat): uint32
    requires n <= |events|
  {
    if n == 0 then start
    else if events[n - 1].NewBlock? then events[n - 1].at
    else HeightAt(start, events, n - 1)
  }

  ghost function Announced(events: seq<Event>, n: nat): multiset<Deposit>
    requires n <= |events|
  {
    if n == 0 then multiset{}
    else AfterEvent(Announced(events, n - 1), events[n - 1])
  }

  /** A run whose heights never fall, with deposits whose confirmation height fits a word. */
  ghost predicate TimedRun(cfg: Config, start: uint32, run: seq<Channel>, events: seq<Event>) {
    && IsRun(cfg, run, events)
    && run[0].our.address != run[0].partner.address
    && (forall i :: 0 <= i < |events| && events[i].NewBlock? ==> events[i].at >= HeightAt(start, events, i))
    && (forall i :: 0 <= i < |events| && events[i].NewDeposit? ==>
          events[i].at == HeightAt(start, events, i) && NoWrap(cfg, events[i].deposit))
  }

  lemma QueuedStep(cfg: Config, q: seq<Deposit>, history: multiset<Deposit>, d: Deposit, height: uint32)
    requires HoldsUnripe(cfg, q, history, height)
    ensures HoldsUnripe(cfg, Push(q, d), history + multiset{d}, height)
    ensures forall x :: x in Push(q, d) ==> x == d || x in q
    ensures forall x :: x in q ==> x in Push(q, d)
    ensures d in Push(q, d)
  {
    PushSorts(q, d);
    PushAdds(q, d);
    PushElements(q, d);
  }

  lemma TopWithMore(cfg: Config, b: int, b': int, initial: int, history: multiset<Deposit>, d: Deposit, who: Address,
                    height: uint32, q: seq<Deposit>, q': seq<Deposit>)
    requires IsTop(cfg, b, initial, history, who, height, q)
    requires forall x :: x in q ==> x in q'
    requires d.participant == who && Ripe(cfg, d, height) ==> b' == (if d.balance > b then d.balance else b)
    requires d.participant != who || !Ripe(cfg, d, height) ==> b' == b
    requires !Ripe(cfg, d, height) ==> d in q'
    requires Ripe(cfg, d, height) ==> q' == q
    requires forall x :: x in q' ==> x in q || x == d
    ensures IsTop(cfg, b', initial, history + multiset{d}, who, height, q')
  {
    var more := history + multiset{d};
    assert forall x :: x in more <==> x in history || x == d;
    assert d in more;
  }

  lemma HoldsWithRipe(cfg: Config, q: seq<Deposit>, history: multiset<Deposit>, d: Deposit, height: uint32)
    requires HoldsUnripe(cfg, q, history, height) && Ripe(cfg, d, height)
    ensures HoldsUnripe(cfg, q, history + multiset{d}, height)
  {
  }

  lemma BothTopWithMore(cfg: Config, first: Channel, c: Channel, history: multiset<Deposit>, d: Deposit, at: uint32)
    requires c.our.address != c.partner.address && BothTop(cfg, first, c, history, at) && NoWrap(cfg, d)
    ensures BothTop(cfg, first, NewBalance(cfg, c, d, at), history + multiset{d}, at)
  {
    var c' := NewBalance(cfg, c, d, at);
    assert c'.our.address == c.our.address && c'.partner.address == c.partner.address;
    PushElements(c.deposits, d);
    TopWithMore(cfg, c.our.contractBalance, c'.our.contractBalance, first.our.contractBalance,
                history, d, c.our.address, at, c.deposits, c'.deposits);
    TopWithMore(cfg, c.partner.contractBalance, c'.partner.contractBalance, first.partner.contractBalance,
                history, d, c.partner.address, at, c.deposits, c'.deposits);
  }

  lemma DepositStep(cfg: Config, first: Channel, c: Channel, history: multiset<Deposit>, d: Deposit, at: uint32)
    requires first.our.address != first.partner.address
    requires QueueInv(cfg, first, c, history, at) && NoWrap(cfg, d)
    ensures QueueInv(cfg, first, NewBalance(cfg, c, d, at), history + multiset{d}, at)
  {
    BothTopWithMore(cfg, first, c, history, d, at);
    MoreNoWrap(cfg, history, d);
    QueueAfterDeposit(cfg, c, history, d, at);
  }

  lemma QueueAfterDeposit(cfg: Config, c: Channel, history: multiset<Deposit>, d: Deposit, at: uint32)
    requires HoldsUnripe(cfg, c.deposits, history, at) && NoWrap(cfg, d)
    requires forall i :: 0 <= i < |c.deposits| ==> !Ripe(cfg, c.deposits[i], at)
    ensures var c' := NewBalance(cfg, c, d, at);
            && c'.our.address == c.our.address && c'.partner.address == c.partner.address
            && HoldsUnripe(cfg, c'.deposits, history + multiset{d}, at)
            && forall i :: 0 <= i < |c'.deposits| ==> !Ripe(cfg, c'.deposits[i], at)
  {
    if Ripe(cfg, d, at) {
      HoldsWithRipe(cfg, c.deposits, history, d, at);
    } else {
      QueuedStep(cfg, c.deposits, history, d, at);
      PushUnripe(cfg, c.deposits, d, at);
    }
  }

  lemma MoreNoWrap(cfg: Config, history: multiset<Deposit>, d: Deposit)
    requires NoWrap(cfg, d) && forall x :: x in history ==> NoWrap(cfg, x)
    ensures forall x :: x in history + multiset{d} ==> NoWrap(cfg, x)
  {
  }

  lemma PushUnripe(cfg: Config, q: seq<Deposit>, d: Deposit, at: uint32)
    requires !Ripe(cfg, d, at) && forall i :: 0 <= i < |q| ==> !Ripe(cfg, q[i], at)
    ensures forall i :: 0 <= i < |Push(q, d)| ==> !Ripe(cfg, Push(q, d)[i], at)
  {
    PushElements(q, d);
    forall i | 0 <= i < |Push(q, d)| ensures !Ripe(cfg, Push(q, d)[i], at) {
      assert Push(q, d)[i] in Push(q, d);
    }
  }

  lemma BlockStep(cfg: Config, first: Channel, c: Channel, history: multiset<Deposit>, h: uint32, at: uint32)
    requires first.our.address != first.partner.address
    requires QueueInv(cfg, first, c, history, h) && h <= at
    ensures QueueInv(cfg, first, HandleBlock(cfg, c, at).channel, history, at)
  {
    LaterHolds(cfg, first, c, history, h, at);
    DrainSettles(cfg, first, c, history, at);
    DrainSettles(cfg, first, c.(settleTx := Some(Tx(at, 0, NoResult))), history, at);
  }

  lemma SameQueue(cfg: Config, first: Channel, c: Channel, d: Channel, history: multiset<Deposit>, h: uint32)
    requires QueueInv(cfg, first, c, history, h)
    requires d.deposits == c.deposits && d.our.address == c.our.address && d.partner.address == c.partner.address
    requires d.our.contractBalance == c.our.contractBalance && d.partner.contractBalance == c.partner.contractBalance
    ensures QueueInv(cfg, first, d, history, h)
  {
  }

  /** What one event does to the balances and the queue. */
  ghost predicate QueueStep(cfg: Config, c: Channel, ev: Event, d: Channel) {
    if ev.NewBlock? then d == HandleBlock(cfg, c, ev.at).channel
    else if ev.NewDeposit? then d == NewBalance(cfg, c, ev.deposit, ev.at)
    else
      && d.deposits == c.deposits && d.our.address == c.our.address && d.partner.address == c.partner.address
      && d.our.contractBalance == c.our.contractBalance && d.partner.contractBalance == c.partner.contractBalance
  }

  lemma StepIsQueueStep(cfg: Config, c: Channel, ev: Event)
    ensures QueueStep(cfg, c, ev, Step(cfg, c, ev))
  {
  }

  lemma StepKeepsQueue(cfg: Config, first: Channel, c: Channel, history: multiset<Deposit>, h: uint32, ev: Event, d: Channel)
    requires first.our.address != first.partner.address
    requires QueueInv(cfg, first, c, history, h) && QueueStep(cfg, c, ev, d)
    requires ev.NewBlock? ==> h <= ev.at
    requires ev.NewDeposit? ==> h == ev.at && NoWrap(cfg, ev.deposit)
    ensures QueueInv(cfg, first, d, AfterEvent(history, ev), if ev.NewBlock? then ev.at else h)
  {
    if ev.NewBlock? {
      BlockStep(cfg, first, c, history, h, ev.at);
    } else if ev.NewDeposit? {
      DepositStep(cfg, first, c, history, ev.deposit, ev.at);
    } else {
      SameQueue(cfg, first, c, d, history, h);
    }
  }

  lemma EmptyQueue(cfg: Config, c: Channel, h: uint32)
    requires c.deposits == []
    ensures QueueInv(cfg, c, c, multiset{}, h)
  {
  }

  /** All that the queue theorem needs to know about a run. */
  ghost predicate QueueRun(cfg: Config, start: uint32, run: seq<Channel>, events: seq<Event>) {
    && |run| == |events| + 1
    && run[0].our.address != run[0].partner.address && run[0].deposits == []
    && forall i :: 0 <= i < |events| ==> QueueStepAt(cfg, start, run, events, i)
  }

  ghost predicate QueueStepAt(cfg: Config, start: uint32, run: seq<Channel>, events: seq<Event>, i: nat)
    requires |run| == |events| + 1 && i < |events|
  {
    && QueueStep(cfg, run[i], events[i], run[i + 1])
    && (events[i].NewBlock? ==> events[i].at >= HeightAt(start, events, i))
    && (events[i].NewDeposit? ==> events[i].at == HeightAt(start, events, i) && NoWrap(cfg, events[i].deposit))
  }

  lemma TimedIsQueueRun(cfg: Config, start: uint32, run: seq<Channel>, events: seq<Event>)
    requires TimedRun(cfg, start, run, events)
    ensures QueueRun(cfg, start, run, events)
  {
    forall i | 0 <= i < |events| ensures QueueStepAt(cfg, start, run, events, i) {
      StepIsQueueStep(cfg, run[i], events[i]);
    }
  }

  lemma {:induction false} QueueRunKeepsInv(cfg: Config, start: uint32, run: seq<Channel>, events: seq<Event>, n: nat)
    requires QueueRun(cfg, start, run, events) && n <= |events|
    ensures QueueInv(cfg, run[0], run[n], Announced(events, n), HeightAt(start, events, n))
  {
    if n == 0 {
      EmptyQueue(cfg, run[0], start);
    } else {
      QueueRunKeepsInv(cfg, start, run, events, n - 1);
      QueueRunStep(cfg, start, run, events, n);
    }
  }

  lemma QueueRunStep(cfg: Config, start: uint32, run: seq<Channel>, events: seq<Event>, n: nat)
    requires QueueRun(cfg, start, run, events) && 0 < n <= |events|
    requires QueueInv(cfg, run[0], run[n - 1], Announced(events, n - 1), HeightAt(start, events, n - 1))
    ensures QueueInv(cfg, run[0], run[n], Announced(events, n), HeightAt(start, events, n))
  {
    var ev, history, h := events[n - 1], Announced(events, n - 1), HeightAt(start, events, n - 1);
    assert QueueStepAt(cfg, start, run, events, n - 1);
    NextHeight(start, events, n - 1);
    StepKeepsQueue(cfg, run[0], run[n - 1], history, h, ev, run[n]);
  }

  lemma NextHeight(start: uint32, events: seq<Event>, n: nat)
    requires n < |events|
    ensures Announced(events, n + 1) == AfterEvent(Announced(events, n), events[n])
    ensures HeightAt(start, events, n + 1) == if events[n].NewBlock? then events[n].at else HeightAt(start, events, n)
  {
  }

  /**
   After any run each end's balance is the maximum of its first balance and its
   confirmed deposits, in whatever order they arrived, and the queue, sorted by
   height, holds exactly the unconfirmed ones.
   */
  lemma QueueRefinesMaximum(cfg: Config, start: uint32, run: seq<Channel>, events: seq<Event>, n: nat)
    requires TimedRun(cfg, start, run, events) && n <= |events|
    ensures QueueInv(cfg, run[0], run[n], Announced(events, n), HeightAt(start, events, n))
  {
    TimedIsQueueRun(cfg, start, run, events);
    QueueRunKeepsInv(cfg, start, run, events, n);
  }
}
