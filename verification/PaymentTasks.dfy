/**
 The node's payment tasks as the source holds them (transfer/node.go): a map the
 dispatcher inserts into and deletes from, over channels that the handlers change in
 place.
 */
module PaymentTasks {
  import opened Prelude
  import opened Merkle
  import opened Channel
  import opened Node
  import opened NettingChannelState
  import opened Initiator

  class PaymentMapping {
    var tasks: map<Hash, Task>
    var log: seq<Output>
    const channels: map<nat, NettingChannel>

    constructor (channels: map<nat, NettingChannel>)
      ensures this.channels == channels && tasks == map[] && log == []
    {
      this.channels := channels;
      tasks, log := map[], [];
    }

    ghost function Ends(): set<object> {
      (set id | id in channels :: channels[id].our) + (set id | id in channels :: channels[id].partner)
    }

    ghost function Parts(): set<object> {
      {this} + Ends() + (set id | id in channels :: channels[id])
    }

    ghost function ChannelValues(): map<nat, Channel>
      reads Parts() - {this}
    {
      map id | id in channels :: channels[id].Value()
    }

    ghost function Value(): Payments
      reads Parts()
    {
      Payments(tasks, ChannelValues(), log)
    }

    /** No two channels share an end, and no channel its two ends. */
    ghost predicate Apart() {
      && (forall id :: id in channels ==> channels[id].our != channels[id].partner)
      && (forall i, j :: i in channels && j in channels && i != j ==>
            && channels[i].our != channels[j].our && channels[i].our != channels[j].partner
            && channels[i].partner != channels[j].partner)
    }

    ghost predicate Ready(h: Hash)
      reads Parts()
    {
      h in tasks && tasks[h].channelId in channels ==> channels[tasks[h].channelId].Valid()
    }

    lemma InvReady(h: Hash)
      requires Apart() && PaymentsInv(Value())
      ensures Ready(h)
    {
      if h in tasks && tasks[h].channelId in channels {
        assert EndsValid(ChannelValues()[tasks[h].channelId]);
      }
    }

    /** One turn of `InitNextChannelFromRoutes`; its last check compares a wrapped sum and always passes. */
    method CheckRoute(id: nat, amount: uint64, ghost n: Payments) returns (ok: bool)
      requires n == Value()
      ensures ok == UsableRoute(n, id, amount)
    {
      if id !in channels || GetStatus(channels[id].Value()) != Opened {
        return false;
      }
      assert n.channels[id] == channels[id].Value();
      var distributable := Distributable(channels[id].our, channels[id].partner);
      ok := BelowPendingLimit(channels[id].our.Value()) && amount <= distributable;
    }

    /** `InitNextChannelFromRoutes`. */
    method InitNextChannelFromRoutes(routes: seq<nat>, amount: uint64) returns (id: Option<nat>)
      ensures id == NextChannel(Value(), routes, amount)
    {
      ghost var n := Value();
      var i := 0;
      assert routes[0..] == routes;
      while i < |routes|
        invariant 0 <= i <= |routes|
        invariant Value() == n && NextChannel(n, routes, amount) == NextChannel(n, routes[i..], amount)
      {
        assert routes[i..][0] == routes[i] && routes[i..][1..] == routes[i + 1..];
        var ok := CheckRoute(routes[i], amount, n);
        NextIs(n, routes[i..], amount);
        assert Value() == n;
        if ok {
          assert NextChannel(n, routes, amount) == Some(routes[i]);
          return Some(routes[i]);
        }
        i := i + 1;
      }
      assert routes[i..] == [];
      return None;
    }

    /** Sends the locked transfer over the chosen channel and registers it as a payment task. */
    method StartOn(h: Hash, id: nat, amount: uint64, height: uint32)
      requires Apart() && id in channels && channels[id].Valid()
      modifies this, Ends()
      ensures Value() == Start(old(Value()), h, id, amount, height)
    {
      var expiration := Wrap32(height + 2 * channels[id].revealTimeout);
      ghost var n := Value();
      ghost var s := SendLocked(channels[id].Value(), amount, expiration, h);
      assert n.channels[id] == channels[id].Value();
      StartIs(n, s, h, id, amount, height);
      var message := SendOn(id, amount, expiration, h, s);
      if message.Some? {
        SetTask(h, Some(Task(id, Lock(amount, expiration, h))), [LockSent(h)]);
      }
    }

    method SendOn(id: nat, amount: uint64, expiration: uint32, h: Hash, ghost s: Sent) returns (message: Option<Message>)
      requires Apart() && id in channels && channels[id].Valid()
      requires s == SendLocked(channels[id].Value(), amount, expiration, h)
      modifies channels[id].our
      ensures ChannelValues() == old(ChannelValues())[id := if s.Sent? then s.channel else old(ChannelValues())[id]]
      ensures message.Some? <==> s.Sent?
    {
      message := channels[id].SendLockedTransfer(amount, expiration, h);
      forall k | k in channels && k != id ensures channels[k].Value() == old(channels[k].Value()) {
        assert channels[k].our != channels[id].our && channels[k].partner != channels[id].our;
      }
      OneChanged(id);
    }

    twostate lemma OneChanged(id: nat)
      requires id in channels
      requires forall k :: k in channels && k != id ==> channels[k].Value() == old(channels[k].Value())
      ensures ChannelValues() == old(ChannelValues())[id := channels[id].Value()]
    {
    }

    /** `InitEventsForUnlockLock`. */
    method EventsForUnlockLock(c: NettingChannel, secret: Secret, h: Hash) returns (outputs: seq<Output>)
      requires c.Valid()
      modifies c.our
      ensures Iteration(None, c.Value(), outputs) == UnlockLock(old(c.Value()), secret, h)
    {
      var message := c.SendUnlockFor(secret, h);
      outputs := if message.Some? then [UnlockSent(h), PaymentSucceeded(h)] else [PaymentSucceeded(h)];
    }

    /** `InitHandleBlock`. */
    method InitHandleBlock(cfg: Config, task: Task, c: NettingChannel, height: uint32)
      returns (next: Option<Task>, outputs: seq<Output>)
      requires c.Valid()
      modifies c.our
      ensures Iteration(next, c.Value(), outputs) == HandleBlockFor(cfg, task, old(c.Value()), height)
    {
      var h := task.lock.secretHash;
      if h !in c.our.locked {
        return if h in c.partner.locked then Some(task) else None, [];
      }
      var lock := c.our.locked[h];
      if !IsLockExpired(c.our.Value(), lock, height, SenderThreshold(cfg, lock)) {
        return Some(task), [];
      }
      var message := c.EventsForExpiredLock(lock);
      outputs := (if message.Some? then [ExpirySent(h)] else []) + [PaymentFailed(h)];
      next := if LockExists(c.Value(), h) then Some(task) else None;
    }

    /** `ImStateTransition` for the state changes of a payment without refunds, requests and cancels. */
    method TaskTransition(cfg: Config, task: Task, c: NettingChannel, hap: Happening)
      returns (next: Option<Task>, outputs: seq<Output>)
      requires c.Valid()
      modifies c.our
      ensures Iteration(next, c.Value(), outputs) == HandleTask(cfg, task, old(c.Value()), hap)
    {
      var h := task.lock.secretHash;
      match hap
      case BlockAt(height) =>
        next, outputs := InitHandleBlock(cfg, task, c, height);
      case SecretReveal(secret, sender) =>
        if SecretDigest(secret) == h && GetStatus(c.Value()) == Opened && sender == c.partner.address {
          outputs := EventsForUnlockLock(c, secret, h);
          next := None;
        } else {
          next, outputs := Some(task), [];
        }
      case SecretOnChain(secret, eventHeight) =>
        if SecretDigest(secret) == h && GetStatus(c.Value()) == Opened && eventHeight <= task.lock.expiration {
          outputs := EventsForUnlockLock(c, secret, h);
          next := None;
        } else {
          next, outputs := Some(task), [];
        }
    }

    /** The transition on one of the channels leaves the others as they are. */
    method Transit(cfg: Config, task: Task, id: nat, hap: Happening) returns (next: Option<Task>, outputs: seq<Output>)
      requires Apart() && id in channels && channels[id].Valid()
      modifies channels[id].our
      ensures Iteration(next, channels[id].Value(), outputs) == HandleTask(cfg, task, old(channels[id].Value()), hap)
      ensures ChannelValues() == old(ChannelValues())[id := channels[id].Value()]
    {
      next, outputs := TaskTransition(cfg, task, channels[id], hap);
      forall k | k in channels && k != id ensures channels[k].Value() == old(channels[k].Value()) {
        assert channels[k].our != channels[id].our && channels[k].partner != channels[id].our;
      }
    }

    /** `subDispatchToPaymentTask`. */
    method SubDispatchToPaymentTask(cfg: Config, h: Hash, hap: Happening)
      requires Apart() && Ready(h)
      modifies this, Ends()
      ensures Value() == Dispatch(cfg, old(Value()), h, hap)
    {
      if h !in tasks || tasks[h].channelId !in channels {
        return;
      }
      Proceed(cfg, h, tasks[h].channelId, hap);
    }

    method Proceed(cfg: Config, h: Hash, id: nat, hap: Happening)
      requires Apart() && h in tasks && id in channels && channels[id].Valid()
      modifies this, Ends()
      ensures Value() == Record(old(Value()), h, id, HandleTask(cfg, old(tasks)[h], old(channels[id].Value()), hap))
    {
      ghost var n := Value();
      var next, outputs := Transit(cfg, tasks[h], id, hap);
      ghost var it := Iteration(next, channels[id].Value(), outputs);
      assert ChannelValues() == n.channels[id := it.channel] && tasks == n.tasks && log == n.log;
      SetTask(h, next, outputs);
      assert Value() == Record(n, h, id, it);
    }

    /** A task without a next state is deleted. */
    method SetTask(h: Hash, next: Option<Task>, outputs: seq<Output>)
      modifies this
      ensures tasks == if next.Some? then old(tasks)[h := next.value] else old(tasks) - {h}
      ensures log == old(log) + outputs && ChannelValues() == old(ChannelValues())
    {
      if next.Some? {
        tasks := tasks[h := next.value];
      } else {
        tasks := tasks - {h};
      }
      log := log + outputs;
    }

    /** `subDispatchToAllLockedTransfers`: every task sees the block, in any order. */
    method SubDispatchToAllLockedTransfers(cfg: Config, height: uint32) returns (ghost order: seq<Hash>)
      requires Apart() && PaymentsInv(Value())
      modifies this, Ends()
      ensures PaymentsInv(Value()) && Value() == DispatchAll(cfg, old(Value()), order, BlockAt(height))
      ensures forall h :: h in tasks <==> h in old(tasks) && height < SenderThreshold(cfg, old(tasks)[h].lock)
    {
      ghost var was := Value();
      var rest := tasks.Keys;
      order := [];
      while rest != {}
        invariant Value() == DispatchAll(cfg, was, order, BlockAt(height))
        invariant Visits(was.tasks.Keys, order, rest)
        decreases rest
      {
        var h :| h in rest;
        VisitsOn(was.tasks.Keys, order, rest, h);
        DispatchNext(cfg, h, height, was, order);
        order := order + [h];
        rest := rest - {h};
      }
      BlockEndsTasks(cfg, was, order, height);
      AllVisited(cfg, was.tasks, tasks, order, height);
    }

    method DispatchNext(cfg: Config, h: Hash, height: uint32, ghost was: Payments, ghost order: seq<Hash>)
      requires Apart() && PaymentsInv(was) && Value() == DispatchAll(cfg, was, order, BlockAt(height))
      modifies this, Ends()
      ensures Value() == DispatchAll(cfg, was, order + [h], BlockAt(height))
    {
      BlockEndsTasks(cfg, was, order, height);
      InvReady(h);
      DispatchAllSnoc(cfg, was, order, h, BlockAt(height));
      SubDispatchToPaymentTask(cfg, h, BlockAt(height));
    }
  }

  lemma StartIs(n: Payments, s: Sent, h: Hash, id: nat, amount: uint64, height: uint32)
    requires id in n.channels
    requires s == SendLocked(n.channels[id], amount, Wrap32(height + 2 * n.channels[id].revealTimeout), h)
    ensures Start(n, h, id, amount, height) ==
            if s.Refused? then Payments(n.tasks, n.channels[id := n.channels[id]], n.log)
            else Payments(n.tasks[h := Task(id, Lock(amount, Wrap32(height + 2 * n.channels[id].revealTimeout), h))],
                          n.channels[id := s.channel], n.log + [LockSent(h)])
  {
    assert n.channels[id := n.channels[id]] == n.channels;
  }

  lemma NextIs(n: Payments, routes: seq<nat>, amount: uint64)
    requires routes != []
    ensures NextChannel(n, routes, amount) ==
            if UsableRoute(n, routes[0], amount) then Some(routes[0]) else NextChannel(n, routes[1..], amount)
  {
  }

  ghost function DispatchAll(cfg: Config, n: Payments, order: seq<Hash>, hap: Happening): Payments {
    if order == [] then n
    else Dispatch(cfg, DispatchAll(cfg, n, order[..|order| - 1], hap), order[|order| - 1], hap)
  }

  lemma DispatchAllSnoc(cfg: Config, n: Payments, order: seq<Hash>, h: Hash, hap: Happening)
    ensures DispatchAll(cfg, n, order + [h], hap) == Dispatch(cfg, DispatchAll(cfg, n, order, hap), h, hap)
  {
    assert (order + [h])[..|order|] == order;
  }

  /** The tasks that a block at the given height leaves of those it has reached. */
  ghost predicate EndedBy(cfg: Config, before: map<Hash, Task>, after: map<Hash, Task>, order: seq<Hash>, height: uint32) {
    && (forall h :: h in after <==> h in before && !(h in order && height >= SenderThreshold(cfg, before[h].lock)))
    && (forall h :: h in after ==> after[h] == before[h])
  }

  /** The visited hashes and those still to visit are all of them. */
  ghost predicate Visits(all: set<Hash>, order: seq<Hash>, rest: set<Hash>) {
    forall h :: h in all <==> h in order || h in rest
  }

  lemma VisitsOn(all: set<Hash>, order: seq<Hash>, rest: set<Hash>, h: Hash)
    requires Visits(all, order, rest) && h in rest
    ensures Visits(all, order + [h], rest - {h})
  {
  }

  lemma AllVisited(cfg: Config, before: map<Hash, Task>, after: map<Hash, Task>, order: seq<Hash>, height: uint32)
    requires EndedBy(cfg, before, after, order, height) && Visits(before.Keys, order, {})
    ensures forall h :: h in after <==> h in before && height < SenderThreshold(cfg, before[h].lock)
  {
  }

  lemma EndedNext(cfg: Config, before: map<Hash, Task>, now: map<Hash, Task>, after: map<Hash, Task>, order: seq<Hash>,
                  height: uint32)
    requires order != [] && EndedBy(cfg, before, now, order[..|order| - 1], height)
    requires var h := order[|order| - 1];
             after == if h in now && height >= SenderThreshold(cfg, now[h].lock) then now - {h} else now
    ensures EndedBy(cfg, before, after, order, height)
  {
    assert order == order[..|order| - 1] + [order[|order| - 1]];
  }

  lemma DispatchEnds(cfg: Config, n: Payments, h: Hash, height: uint32)
    requires PaymentsInv(n)
    ensures var m := Dispatch(cfg, n, h, BlockAt(height));
            && PaymentsInv(m)
            && m.tasks == if h in n.tasks && height >= SenderThreshold(cfg, n.tasks[h].lock) then n.tasks - {h} else n.tasks
  {
    if h in n.tasks {
      PendingDispatchEnds(cfg, n, h, height);
    }
    DispatchKeepsInv(cfg, n, h, BlockAt(height));
  }

  lemma PendingDispatchEnds(cfg: Config, n: Payments, h: Hash, height: uint32)
    requires PaymentsInv(n) && h in n.tasks
    ensures Dispatch(cfg, n, h, BlockAt(height)).tasks ==
            if height >= SenderThreshold(cfg, n.tasks[h].lock) then n.tasks - {h} else n.tasks
  {
    assert Pends(n, h);
    BlockResolves(cfg, n.tasks[h], n.channels[n.tasks[h].channelId], height);
    DispatchShape(cfg, n, h, BlockAt(height));
  }

  /** A block ends exactly the payments whose lock's threshold it has reached. */
  lemma {:induction false} BlockEndsTasks(cfg: Config, n: Payments, order: seq<Hash>, height: uint32)
    requires PaymentsInv(n)
    ensures PaymentsInv(DispatchAll(cfg, n, order, BlockAt(height)))
    ensures EndedBy(cfg, n.tasks, DispatchAll(cfg, n, order, BlockAt(height)).tasks, order, height)
  {
    if order != [] {
      var init, h := order[..|order| - 1], order[|order| - 1];
      var m := DispatchAll(cfg, n, init, BlockAt(height));
      BlockEndsTasks(cfg, n, init, height);
      DispatchEnds(cfg, m, h, height);
      EndedNext(cfg, n.tasks, m.tasks, Dispatch(cfg, m, h, BlockAt(height)).tasks, order, height);
    }
  }
}
