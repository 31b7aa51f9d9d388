/**
 Initiator payments (transfer/mediated_initiator.go and its manager) and their
 dispatch by secret hash (transfer/node.go): a payment resolves at most once.
 */
module Initiator {
  import opened Prelude
  import opened Merkle
  import opened Channel
  import opened Agreement
  import opened Ledger
  import opened Node
  import opened MediatorRuns

  datatype Task = Task(channelId: nat, lock: Lock)

  /** What the node sends or reports about one payment. */
  datatype Output =
    | LockSent(h: Hash)
    | UnlockSent(h: Hash)
    | ExpirySent(h: Hash)
    | PaymentSucceeded(h: Hash)
    | PaymentFailed(h: Hash)

  /** The payments by secret hash, the channels they use and everything sent or reported so far. */
  datatype Payments = Payments(tasks: map<Hash, Task>, channels: map<nat, Channel>, log: seq<Output>)

  datatype Happening =
    | BlockAt(height: uint32)
    | SecretReveal(secret: Secret, sender: Address)
    | SecretOnChain(secret: Secret, eventHeight: uint32)

  /** The payment task that remains, the channel and the outputs of one handler. */
  datatype Iteration = Iteration(task: Option<Task>, channel: Channel, outputs: seq<Output>)

  // ----- the handlers -----

  /** `InitEventsForUnlockLock`: reports success even if there was no lock to unlock. */
  ghost function UnlockLock(c: Channel, secret: Secret, h: Hash): Iteration {
    var s := SendUnlock(c, secret, h);
    if s.Sent? then Iteration(None, s.channel, [UnlockSent(h), PaymentSucceeded(h)])
    else Iteration(None, c, [PaymentSucceeded(h)])
  }

  /** The report of a success comes with an unlock exactly when the lock is still pending. */
  lemma UnlockReportedIff(c: Channel, secret: Secret)
    requires EndsValid(c)
    ensures var h := SecretDigest(secret);
            var outputs := UnlockLock(c, secret, h).outputs;
            outputs == if h in Pending(c.our) then [UnlockSent(h), PaymentSucceeded(h)] else [PaymentSucceeded(h)]
  {
    SendUnlockFits(c, secret);
  }

  predicate LockExists(c: Channel, h: Hash) {
    GetLock(c.our, h).Some? || GetLock(c.partner, h).Some?
  }

  /** `InitHandleBlock`. */
  ghost function HandleBlockFor(cfg: Config, task: Task, c: Channel, height: uint32): Iteration {
    var h := task.lock.secretHash;
    if h !in c.our.locked then Iteration(if h in c.partner.locked then Some(task) else None, c, [])
    else
      var lock := c.our.locked[h];
      if !IsLockExpired(c.our, lock, height, SenderThreshold(cfg, lock)) then Iteration(Some(task), c, [])
      else
        var s := ExpireLock(c, lock);
        var d := if s.Sent? then s.channel else c;
        Iteration(if LockExists(d, h) then Some(task) else None, d,
                  (if s.Sent? then [ExpirySent(h)] else []) + [PaymentFailed(h)])
  }

  ghost function HandleTask(cfg: Config, task: Task, c: Channel, hap: Happening): Iteration {
    var h := task.lock.secretHash;
    match hap
    case BlockAt(height) => HandleBlockFor(cfg, task, c, height)
    case SecretReveal(secret, sender) =>
      if SecretDigest(secret) == h && GetStatus(c) == Opened && sender == c.partner.address
      then UnlockLock(c, secret, h) else Iteration(Some(task), c, [])
    case SecretOnChain(secret, eventHeight) =>
      if SecretDigest(secret) == h && GetStatus(c) == Opened && eventHeight <= task.lock.expiration
      then UnlockLock(c, secret, h) else Iteration(Some(task), c, [])
  }

  /** `subDispatchToPaymentTask`: a task without a next state is deleted. */
  ghost function Dispatch(cfg: Config, n: Payments, h: Hash, hap: Happening): Payments {
    if h !in n.tasks || n.tasks[h].channelId !in n.channels then n
    else
      var id := n.tasks[h].channelId;
      Record(n, h, id, HandleTask(cfg, n.tasks[h], n.channels[id], hap))
  }

  function Record(n: Payments, h: Hash, id: nat, it: Iteration): Payments {
    Payments(if it.task.Some? then n.tasks[h := it.task.value] else n.tasks - {h},
             n.channels[id := it.channel], n.log + it.outputs)
  }

  /** `InitNextChannelFromRoutes`. */
  ghost predicate UsableRoute(n: Payments, id: nat, amount: uint64) {
    && id in n.channels && GetStatus(n.channels[id]) == Opened
    && BelowPendingLimit(n.channels[id].our)
    && amount <= GetDistributable(n.channels[id].our, n.channels[id].partner)
  }

  ghost function NextChannel(n: Payments, routes: seq<nat>, amount: uint64): (r: Option<nat>)
    ensures r.Some? ==> UsableRoute(n, r.value, amount)
    ensures r.None? <==> forall i :: 0 <= i < |routes| ==> !UsableRoute(n, routes[i], amount)
  {
    if routes == [] then None
    else if UsableRoute(n, routes[0], amount) then Some(routes[0])
    else NextChannel(n, routes[1..], amount)
  }

  /** The channel chosen is that of the first usable route. */
  lemma {:induction false} FirstUsable(n: Payments, routes: seq<nat>, amount: uint64) returns (i: nat)
    requires NextChannel(n, routes, amount).Some?
    ensures i < |routes| && NextChannel(n, routes, amount) == Some(routes[i]) && UsableRoute(n, routes[i], amount)
    ensures forall j :: 0 <= j < i ==> !UsableRoute(n, routes[j], amount)
  {
    if UsableRoute(n, routes[0], amount) {
      i := 0;
    } else {
      i := FirstUsable(n, routes[1..], amount);
      i := i + 1;
      assert forall j :: 0 < j < i ==> routes[j] == routes[1..][j - 1];
    }
  }

  /** `ImHandleInit`, `InitTryNewRoute` and `subDispatchInitiatorTask` for a secret hash without a task. */
  ghost function Begin(n: Payments, h: Hash, routes: seq<nat>, amount: uint64, height: uint32): Payments {
    var next := NextChannel(n, routes, amount);
    if next.None? then n.(log := n.log + [PaymentFailed(h)]) else Start(n, h, next.value, amount, height)
  }

  /** `InitSendLockedTransfer`: the lock lasts two reveal timeouts. */
  ghost function Start(n: Payments, h: Hash, id: nat, amount: uint64, height: uint32): Payments
    requires id in n.channels
  {
    var c := n.channels[id];
    var lock := Lock(amount, Wrap32(height + 2 * c.revealTimeout), h);
    var s := SendLocked(c, amount, lock.expiration, h);
    if s.Refused? then n
    else Payments(n.tasks[h := Task(id, lock)], n.channels[id := s.channel], n.log + [LockSent(h)])
  }

  // ----- histories -----

  /** What the log says about one payment. */
  function About(log: seq<Output>, h: Hash): seq<Output> {
    if log == [] then []
    else About(log[..|log| - 1], h) + (if log[|log| - 1].h == h then [log[|log| - 1]] else [])
  }

  lemma {:induction false} AboutConcat(log: seq<Output>, outputs: seq<Output>, h: Hash)
    ensures About(log + outputs, h) == About(log, h) + About(outputs, h)
  {
    if outputs == [] {
      assert log + outputs == log;
    } else {
      var init := outputs[..|outputs| - 1];
      AboutConcat(log, init, h);
      assert (log + outputs)[..|log + outputs| - 1] == log + init;
    }
  }

  lemma {:induction false} AboutOne(outputs: seq<Output>, g: Hash, h: Hash)
    requires forall i :: 0 <= i < |outputs| ==> outputs[i].h == g
    ensures About(outputs, h) == if g == h then outputs else []
  {
    if outputs != [] {
      var init, last := outputs[..|outputs| - 1], outputs[|outputs| - 1];
      AboutOne(init, g, h);
      AboutSnoc(outputs, h);
      assert outputs == init + [last];
    }
  }

  lemma AboutSnoc(log: seq<Output>, h: Hash)
    requires log != []
    ensures log[|log| - 1].h == h ==> About(log, h) == About(log[..|log| - 1], h) + [log[|log| - 1]]
    ensures log[|log| - 1].h != h ==> About(log, h) == About(log[..|log| - 1], h)
  {
  }

  /** The only ways a payment can have ended: never accepted, no route, paid once or expired once. */
  predicate Ended(history: seq<Output>, h: Hash) {
    || history == []
    || history == [PaymentFailed(h)]
    || history == [LockSent(h), UnlockSent(h), PaymentSucceeded(h)]
    || history == [LockSent(h), ExpirySent(h), PaymentFailed(h)]
  }

  // ----- the invariant -----

  /** A pending payment holds its lock, as locked, on our end of its channel only. */
  ghost predicate Pends(n: Payments, h: Hash)
    requires h in n.tasks
  {
    var t := n.tasks[h];
    && t.lock.secretHash == h && t.channelId in n.channels
    && var c := n.channels[t.channelId];
       && h in c.our.locked && c.our.locked[h] == t.lock
       && h !in Pending(c.partner)
       && About(n.log, h) == [LockSent(h)]
  }

  ghost predicate PaymentsInv(n: Payments) {
    ChannelsValid(n.channels) && AllPend(n) && AllEnded(n)
  }

  ghost predicate ChannelsValid(channels: map<nat, Channel>) {
    forall id :: id in channels ==> EndsValid(channels[id])
  }

  ghost predicate AllPend(n: Payments) {
    forall h :: h in n.tasks ==> Pends(n, h)
  }

  ghost predicate AllEnded(n: Payments) {
    forall h :: h !in n.tasks ==> Ended(About(n.log, h), h)
  }

  // ----- what may happen -----

  datatype PaymentStep =
    | DispatchStep(h: Hash, happening: Happening)
    | BeginStep(h: Hash, routes: seq<nat>, amount: uint64, height: uint32)
    | ChannelStep(channels: map<nat, Channel>)

  /** A new payment's secret hash is nonzero, new to the log and pending on no end. */
  ghost predicate FreshPayment(n: Payments, h: Hash) {
    && h != 0 && h !in n.tasks && About(n.log, h) == []
    && forall id :: id in n.channels ==> h !in Pending(n.channels[id].our) && h !in Pending(n.channels[id].partner)
  }

  /** Other operations keep the channels, their validity and the locks of pending payments. */
  ghost predicate LeavesAlone(n: Payments, channels: map<nat, Channel>) {
    && n.channels.Keys <= channels.Keys && ChannelsValid(channels)
    && forall h :: h in n.tasks && n.tasks[h].channelId in n.channels ==>
         && SameAt(n.channels[n.tasks[h].channelId].our, channels[n.tasks[h].channelId].our, h)
         && SameAt(n.channels[n.tasks[h].channelId].partner, channels[n.tasks[h].channelId].partner, h)
  }

  ghost predicate MayStep(n: Payments, st: PaymentStep) {
    match st
    case DispatchStep(_, _) => true
    case BeginStep(h, _, _, _) => FreshPayment(n, h)
    case ChannelStep(channels) => LeavesAlone(n, channels)
  }

  ghost function Stepped(cfg: Config, n: Payments, st: PaymentStep): Payments {
    match st
    case DispatchStep(h, hap) => Dispatch(cfg, n, h, hap)
    case BeginStep(h, routes, amount, height) => Begin(n, h, routes, amount, height)
    case ChannelStep(channels) => n.(channels := channels)
  }

  // ----- one handler -----

  /** What a handler leaves for the payments it is not about. */
  ghost predicate OthersKept(c: Channel, d: Channel, h: Hash) {
    && EndsValid(d) && d.partner == c.partner
    && forall g :: g != h ==> (g in d.our.locked <==> g in c.our.locked) && (g in c.our.locked ==> d.our.locked[g] == c.our.locked[g])
  }

  /** A real unlock moves the lock's amount into transferred and removes the lock. */
  lemma UnlockPays(c: Channel, secret: Secret, lock: Lock)
    requires EndsValid(c) && SecretDigest(secret) == lock.secretHash
    requires lock.secretHash in c.our.locked && c.our.locked[lock.secretHash] == lock
    ensures var h, it := lock.secretHash, UnlockLock(c, secret, lock.secretHash);
            && it.task.None? && it.outputs == [UnlockSent(h), PaymentSucceeded(h)]
            && OthersKept(c, it.channel, h)
            && Transferred(it.channel.our) == Transferred(c.our) + lock.amount
            && Pending(it.channel.our) == Pending(c.our) - {h}
  {
    UnlockRemoves(c, secret);
    GetLockPending(c.our, lock.secretHash);
  }

  /** An expiry drops the lock and pays nothing. */
  lemma ExpiryDrops(c: Channel, lock: Lock)
    requires EndsValid(c) && lock.secretHash in c.our.locked && c.our.locked[lock.secretHash] == lock
    ensures var s := ExpireLock(c, lock);
            && s.Sent? && OthersKept(c, s.channel, lock.secretHash)
            && Transferred(s.channel.our) == Transferred(c.our)
            && Pending(s.channel.our) == Pending(c.our) - {lock.secretHash}
  {
    GetLockPending(c.our, lock.secretHash);
    ExpireLockRemoves(c, lock);
  }

  /**
   A handler either leaves everything as it is or resolves the payment: with a real
   unlock worth the lock and one success, or with a lock-expired that drops the lock
   and one failure.
   */
  ghost predicate Resolves(task: Task, c: Channel, it: Iteration) {
    var h := task.lock.secretHash;
    if it.task.Some? then it == Iteration(Some(task), c, [])
    else
      && OthersKept(c, it.channel, h) && Pending(it.channel.our) == Pending(c.our) - {h}
      && if it.outputs == [UnlockSent(h), PaymentSucceeded(h)] then
           Transferred(it.channel.our) == Transferred(c.our) + task.lock.amount
         else
           it.outputs == [ExpirySent(h), PaymentFailed(h)] && Transferred(it.channel.our) == Transferred(c.our)
  }

  lemma BlockResolves(cfg: Config, task: Task, c: Channel, height: uint32)
    requires EndsValid(c) && task.lock.secretHash in c.our.locked && c.our.locked[task.lock.secretHash] == task.lock
    requires task.lock.secretHash !in Pending(c.partner)
    ensures Resolves(task, c, HandleBlockFor(cfg, task, c, height))
    ensures HandleBlockFor(cfg, task, c, height).task.None? <==> height >= SenderThreshold(cfg, task.lock)
  {
    var h := task.lock.secretHash;
    if IsLockExpired(c.our, task.lock, height, SenderThreshold(cfg, task.lock)) {
      ExpiryDrops(c, task.lock);
      var d := ExpireLock(c, task.lock).channel;
      GetLockPending(d.our, h);
      GetLockPending(d.partner, h);
      assert [ExpirySent(h)] + [PaymentFailed(h)] == [ExpirySent(h), PaymentFailed(h)];
    }
  }

  /** When a handler ends the payment, and that ending it means resolving it. */
  lemma HandlerResolves(cfg: Config, task: Task, c: Channel, hap: Happening)
    requires EndsValid(c) && task.lock.secretHash in c.our.locked && c.our.locked[task.lock.secretHash] == task.lock
    requires task.lock.secretHash !in Pending(c.partner)
    ensures Resolves(task, c, HandleTask(cfg, task, c, hap))
    ensures HandleTask(cfg, task, c, hap).task.None? <==>
            match hap
            case BlockAt(height) => height >= SenderThreshold(cfg, task.lock)
            case SecretReveal(secret, sender) =>
              SecretDigest(secret) == task.lock.secretHash && GetStatus(c) == Opened && sender == c.partner.address
            case SecretOnChain(secret, eventHeight) =>
              SecretDigest(secret) == task.lock.secretHash && GetStatus(c) == Opened && eventHeight <= task.lock.expiration
  {
    match hap
    case BlockAt(height) => BlockResolves(cfg, task, c, height);
    case SecretReveal(secret, _) =>
      if SecretDigest(secret) == task.lock.secretHash { UnlockPays(c, secret, task.lock); }
    case SecretOnChain(secret, _) =>
      if SecretDigest(secret) == task.lock.secretHash { UnlockPays(c, secret, task.lock); }
  }

  // ----- every step keeps the invariant -----

  /** A step about payment `h` on channel `id`: other payments and channels keep what they have. */
  ghost predicate StepAbout(n: Payments, m: Payments, h: Hash, id: nat) {
    && id in n.channels && m.channels.Keys == n.channels.Keys && OthersKept(n.channels[id], m.channels[id], h)
    && (forall k :: k in n.channels && k != id ==> m.channels[k] == n.channels[k])
    && (forall g :: g != h ==> (g in m.tasks <==> g in n.tasks) && (g in n.tasks ==> m.tasks[g] == n.tasks[g]))
    && (forall g :: g != h ==> About(m.log, g) == About(n.log, g))
  }

  lemma PendsStill(n: Payments, m: Payments, h: Hash, g: Hash, id: nat)
    requires g in n.tasks && Pends(n, g) && g != h && StepAbout(n, m, h, id)
    ensures Pends(m, g)
  {
    assert About(m.log, g) == About(n.log, g);
  }

  lemma StepAboutKeepsInv(n: Payments, m: Payments, h: Hash, id: nat)
    requires PaymentsInv(n) && StepAbout(n, m, h, id)
    requires if h in m.tasks then Pends(m, h) else Ended(About(m.log, h), h)
    ensures PaymentsInv(m)
  {
    forall g | g in m.tasks ensures Pends(m, g) {
      if g != h {
        PendsStill(n, m, h, g, id);
      }
    }
    forall g | g !in m.tasks ensures Ended(About(m.log, g), g) {
      if g != h {
        assert About(m.log, g) == About(n.log, g);
      }
    }
  }

  lemma Logged(log: seq<Output>, outputs: seq<Output>, h: Hash)
    requires forall i :: 0 <= i < |outputs| ==> outputs[i].h == h
    ensures About(log + outputs, h) == About(log, h) + outputs
    ensures forall g :: g != h ==> About(log + outputs, g) == About(log, g)
  {
    AboutConcat(log, outputs, h);
    AboutOne(outputs, h, h);
    forall g | g != h ensures About(log + outputs, g) == About(log, g) {
      AboutConcat(log, outputs, g);
      AboutOne(outputs, h, g);
    }
  }

  ghost function Resolved(n: Payments, h: Hash, id: nat, it: Iteration): Payments {
    Payments(n.tasks - {h}, n.channels[id := it.channel], n.log + it.outputs)
  }

  predicate Resolving(outputs: seq<Output>, h: Hash) {
    outputs == [UnlockSent(h), PaymentSucceeded(h)] || outputs == [ExpirySent(h), PaymentFailed(h)]
  }

  lemma ResolvingAbout(outputs: seq<Output>, h: Hash)
    requires Resolving(outputs, h)
    ensures |outputs| == 2 && forall i :: 0 <= i < |outputs| ==> outputs[i].h == h
  {
  }

  lemma ResolvedIsAbout(n: Payments, h: Hash, id: nat, it: Iteration)
    requires id in n.channels && OthersKept(n.channels[id], it.channel, h) && Resolving(it.outputs, h)
    ensures StepAbout(n, Resolved(n, h, id, it), h, id)
  {
    ResolvingAbout(it.outputs, h);
    Logged(n.log, it.outputs, h);
  }

  lemma ResolvedEnds(log: seq<Output>, h: Hash, outputs: seq<Output>)
    requires About(log, h) == [LockSent(h)] && Resolving(outputs, h)
    ensures Ended(About(log + outputs, h), h)
  {
    ResolvingAbout(outputs, h);
    Logged(log, outputs, h);
    assert [LockSent(h)] + outputs == [LockSent(h), outputs[0], outputs[1]];
  }

  lemma ResolvedKeepsInv(n: Payments, h: Hash, id: nat, it: Iteration)
    requires PaymentsInv(n) && id in n.channels && About(n.log, h) == [LockSent(h)]
    requires OthersKept(n.channels[id], it.channel, h) && Resolving(it.outputs, h)
    ensures PaymentsInv(Resolved(n, h, id, it))
  {
    ResolvedIsAbout(n, h, id, it);
    ResolvedEnds(n.log, h, it.outputs);
    StepAboutKeepsInv(n, Resolved(n, h, id, it), h, id);
  }

  lemma DispatchShape(cfg: Config, n: Payments, h: Hash, hap: Happening)
    requires h in n.tasks && Pends(n, h) && EndsValid(n.channels[n.tasks[h].channelId])
    ensures var id := n.tasks[h].channelId;
            var it := HandleTask(cfg, n.tasks[h], n.channels[id], hap);
            if it.task.Some? then Dispatch(cfg, n, h, hap) == n
            else
              && Dispatch(cfg, n, h, hap) == Resolved(n, h, id, it)
              && OthersKept(n.channels[id], it.channel, h) && Resolving(it.outputs, h)
  {
    var id := n.tasks[h].channelId;
    HandlerResolves(cfg, n.tasks[h], n.channels[id], hap);
    if HandleTask(cfg, n.tasks[h], n.channels[id], hap).task.Some? {
      SameAgain(n, h, id);
    }
  }

  lemma SameAgain(n: Payments, h: Hash, id: nat)
    requires h in n.tasks && id in n.channels
    ensures Payments(n.tasks[h := n.tasks[h]], n.channels[id := n.channels[id]], n.log + []) == n
  {
    assert n.tasks[h := n.tasks[h]] == n.tasks && n.channels[id := n.channels[id]] == n.channels && n.log + [] == n.log;
  }

  lemma DispatchKeepsInv(cfg: Config, n: Payments, h: Hash, hap: Happening)
    requires PaymentsInv(n)
    ensures PaymentsInv(Dispatch(cfg, n, h, hap))
  {
    if h in n.tasks {
      assert Pends(n, h);
      DispatchShape(cfg, n, h, hap);
      var id := n.tasks[h].channelId;
      var it := HandleTask(cfg, n.tasks[h], n.channels[id], hap);
      if it.task.None? {
        ResolvedKeepsInv(n, h, id, it);
      }
    }
  }

  lemma BeginKeepsChannels(c: Channel, amount: uint64, expiration: uint32, h: Hash)
    requires EndsValid(c) && h != 0 && h !in Pending(c.our)
    ensures var s := SendLocked(c, amount, expiration, h);
            s.Sent? ==>
              && OthersKept(c, s.channel, h)
              && h in s.channel.our.locked && s.channel.our.locked[h] == Lock(amount, expiration, h)
  {
    SendLockedFits(c, amount, expiration, h);
    SentKeepsEnd(c, SendLocked(c, amount, expiration, h));
  }

  lemma NoRouteKeepsInv(n: Payments, h: Hash)
    requires PaymentsInv(n) && FreshPayment(n, h)
    ensures PaymentsInv(n.(log := n.log + [PaymentFailed(h)]))
  {
    var m := n.(log := n.log + [PaymentFailed(h)]);
    FirstLogged(n.log, PaymentFailed(h), h);
    forall g | g in m.tasks ensures Pends(m, g) {
      assert Pends(n, g) && About(m.log, g) == About(n.log, g);
    }
    forall g | g !in m.tasks ensures Ended(About(m.log, g), g) {
      assert g != h ==> About(m.log, g) == About(n.log, g);
    }
  }

  lemma BegunIsAbout(n: Payments, m: Payments, h: Hash, id: nat, amount: uint64, expiration: uint32)
    requires Begun(n, m, h, id, amount, expiration) && FreshPayment(n, h) && EndsValid(n.channels[id])
    ensures StepAbout(n, m, h, id) && h in m.tasks && Pends(m, h)
  {
    BeginKeepsChannels(n.channels[id], amount, expiration, h);
    FirstLogged(n.log, LockSent(h), h);
  }

  lemma FirstLogged(log: seq<Output>, output: Output, h: Hash)
    requires About(log, h) == [] && output.h == h
    ensures About(log + [output], h) == [output]
    ensures forall g :: g != h ==> About(log + [output], g) == About(log, g)
  {
    Logged(log, [output], h);
    assert [] + [output] == [output];
  }

  lemma BeginShape(n: Payments, h: Hash, routes: seq<nat>, amount: uint64, height: uint32)
    ensures var m := Begin(n, h, routes, amount, height);
            || m == n
            || m == n.(log := n.log + [PaymentFailed(h)])
            || exists id, expiration :: Begun(n, m, h, id, amount, expiration)
  {
    var next := NextChannel(n, routes, amount);
    BeginIs(n, h, routes, amount, height);
    if next.Some? {
      StartedOrNot(n, h, next.value, amount, height);
    }
  }

  lemma StartedOrNot(n: Payments, h: Hash, id: nat, amount: uint64, height: uint32)
    requires id in n.channels
    ensures var m, lock := Start(n, h, id, amount, height), NewLock(n.channels[id], amount, height, h);
            m == n || Begun(n, m, h, id, amount, lock.expiration)
  {
    StartShape(n, h, id, amount, height);
  }

  /** What starting a payment does, given whether its lock is sent. */
  lemma StartShape(n: Payments, h: Hash, id: nat, amount: uint64, height: uint32)
    requires id in n.channels
    ensures var c := n.channels[id];
            var lock := Lock(amount, Wrap32(height + 2 * c.revealTimeout), h);
            var s := SendLocked(c, lock.amount, lock.expiration, lock.secretHash);
            Start(n, h, id, amount, height) ==
              if s.Refused? then n
              else Payments(n.tasks[h := Task(id, lock)], n.channels[id := s.channel], n.log + [LockSent(h)])
  {
  }

  /** The lock of a new payment on a channel lasts two reveal timeouts. */
  function NewLock(c: Channel, amount: uint64, height: uint32, h: Hash): Lock {
    Lock(amount, Wrap32(height + 2 * c.revealTimeout), h)
  }

  lemma LockedSends(c: Channel, lock: Lock)
    requires EndValid(c.our) && GetStatus(c) == Opened && BelowPendingLimit(c.our)
    requires lock.amount <= GetDistributable(c.our, c.partner)
    ensures SendLocked(c, lock.amount, lock.expiration, lock.secretHash).Sent? <==>
            LockHash(lock) !in HashesOf(Pending(c.our))
  {
    SendLockedGuard(c, lock.amount, lock.expiration, lock.secretHash);
  }

  lemma StartRecords(n: Payments, h: Hash, id: nat, amount: uint64, height: uint32)
    requires id in n.channels
    ensures var m, lock := Start(n, h, id, amount, height), NewLock(n.channels[id], amount, height, h);
            if SendLocked(n.channels[id], lock.amount, lock.expiration, lock.secretHash).Refused? then m == n
            else m.tasks == n.tasks[h := Task(id, lock)] && m.log == n.log + [LockSent(h)]
  {
    StartShape(n, h, id, amount, height);
  }

  /** On a usable channel a payment is started, with such a lock, exactly when the lock is new there. */
  lemma StartedIff(n: Payments, h: Hash, id: nat, amount: uint64, height: uint32)
    requires UsableRoute(n, id, amount) && EndValid(n.channels[id].our) && h !in n.tasks
    ensures var m, lock := Start(n, h, id, amount, height), NewLock(n.channels[id], amount, height, h);
            if LockHash(lock) in HashesOf(Pending(n.channels[id].our)) then m == n
            else m.tasks == n.tasks[h := Task(id, lock)] && m.log == n.log + [LockSent(h)]
  {
    LockedSends(n.channels[id], NewLock(n.channels[id], amount, height, h));
    StartRecords(n, h, id, amount, height);
  }

  lemma BeginIs(n: Payments, h: Hash, routes: seq<nat>, amount: uint64, height: uint32)
    ensures var next := NextChannel(n, routes, amount);
            Begin(n, h, routes, amount, height) ==
              if next.None? then n.(log := n.log + [PaymentFailed(h)]) else Start(n, h, next.value, amount, height)
  {
  }

  /**
   A new payment gets a task exactly when some route is usable and its lock is new to
   the first such channel; without a usable route it is reported as failed.
   */
  lemma BegunIff(n: Payments, h: Hash, routes: seq<nat>, amount: uint64, height: uint32)
    requires ChannelsValid(n.channels) && h !in n.tasks
    ensures var (m, next) := (Begin(n, h, routes, amount, height), NextChannel(n, routes, amount));
            if next.None? then m == n.(log := n.log + [PaymentFailed(h)])
            else
              var lock := NewLock(n.channels[next.value], amount, height, h);
              if LockHash(lock) in HashesOf(Pending(n.channels[next.value].our)) then m == n
              else m.tasks == n.tasks[h := Task(next.value, lock)] && m.log == n.log + [LockSent(h)]
  {
    var next := NextChannel(n, routes, amount);
    BeginIs(n, h, routes, amount, height);
    if next.Some? {
      assert EndsValid(n.channels[next.value]);
      StartedIff(n, h, next.value, amount, height);
    }
  }

  ghost predicate Begun(n: Payments, m: Payments, h: Hash, id: nat, amount: uint64, expiration: uint32) {
    && id in n.channels
    && var s := SendLocked(n.channels[id], amount, expiration, h);
       && s.Sent?
       && m == Payments(n.tasks[h := Task(id, Lock(amount, expiration, h))], n.channels[id := s.channel],
                        n.log + [LockSent(h)])
  }

  lemma BeginKeepsInv(n: Payments, h: Hash, routes: seq<nat>, amount: uint64, height: uint32)
    requires PaymentsInv(n) && FreshPayment(n, h)
    ensures PaymentsInv(Begin(n, h, routes, amount, height))
  {
    var m := Begin(n, h, routes, amount, height);
    BeginShape(n, h, routes, amount, height);
    NoRouteKeepsInv(n, h);
    if id, expiration :| Begun(n, m, h, id, amount, expiration) {
      BegunIsAbout(n, m, h, id, amount, expiration);
      StepAboutKeepsInv(n, m, h, id);
    }
  }

  lemma ChannelStepKeepsInv(n: Payments, channels: map<nat, Channel>)
    requires PaymentsInv(n) && LeavesAlone(n, channels)
    ensures PaymentsInv(n.(channels := channels))
  {
    var m := n.(channels := channels);
    forall h | h in m.tasks ensures Pends(m, h) {
      assert Pends(n, h);
      SameAtPending(n.channels[n.tasks[h].channelId].partner, channels[n.tasks[h].channelId].partner, h);
    }
  }

  lemma SteppedKeepsInv(cfg: Config, n: Payments, st: PaymentStep)
    requires PaymentsInv(n) && MayStep(n, st)
    ensures PaymentsInv(Stepped(cfg, n, st))
  {
    match st
    case DispatchStep(h, hap) => DispatchKeepsInv(cfg, n, h, hap);
    case BeginStep(h, routes, amount, height) => BeginKeepsInv(n, h, routes, amount, height);
    case ChannelStep(channels) => ChannelStepKeepsInv(n, channels);
  }

  // ----- runs -----

  ghost predicate IsPaymentRun(cfg: Config, run: seq<Payments>, steps: seq<PaymentStep>) {
    && |run| == |steps| + 1
    && run[0].tasks == map[] && run[0].log == []
    && ChannelsValid(run[0].channels)
    && forall i :: 0 <= i < |steps| ==> MayStep(run[i], steps[i]) && run[i + 1] == Stepped(cfg, run[i], steps[i])
  }

  lemma {:induction false} RunKeepsPayments(cfg: Config, run: seq<Payments>, steps: seq<PaymentStep>, k: nat)
    requires IsPaymentRun(cfg, run, steps) && k < |run|
    ensures PaymentsInv(run[k])
  {
    if k > 0 {
      RunKeepsPayments(cfg, run, steps, k - 1);
      SteppedKeepsInv(cfg, run[k - 1], steps[k - 1]);
    }
  }

  /** How often the log reports that a payment succeeded or failed. */
  function Resolutions(log: seq<Output>, h: Hash): nat {
    if log == [] then 0
    else
      Resolutions(log[..|log| - 1], h)
      + (if log[|log| - 1] == PaymentSucceeded(h) || log[|log| - 1] == PaymentFailed(h) then 1 else 0)
  }

  lemma {:induction false} ResolutionsAbout(log: seq<Output>, h: Hash)
    ensures Resolutions(log, h) == Resolutions(About(log, h), h)
  {
    if log != [] {
      var init, last := log[..|log| - 1], log[|log| - 1];
      ResolutionsAbout(init, h);
      if last.h == h {
        assert About(log, h) == About(init, h) + [last];
        assert About(log, h)[..|About(log, h)| - 1] == About(init, h);
      } else {
        assert About(log, h) == About(init, h) + [] == About(init, h);
      }
    }
  }

  /**
   In every run each payment is reported as succeeded or failed at most once, with the
   history that belongs to it; while its task exists it is not reported at all; and once
   a payment with a lock is resolved nothing dispatched to it changes anything.
   */
  lemma PaymentsResolveOnce(cfg: Config, run: seq<Payments>, steps: seq<PaymentStep>, k: nat, h: Hash)
    requires IsPaymentRun(cfg, run, steps) && k < |run|
    ensures Resolutions(run[k].log, h) <= 1
    ensures if h in run[k].tasks then About(run[k].log, h) == [LockSent(h)] else Ended(About(run[k].log, h), h)
    ensures h !in run[k].tasks ==> forall hap :: Dispatch(cfg, run[k], h, hap) == run[k]
  {
    RunKeepsPayments(cfg, run, steps, k);
    ResolutionsAbout(run[k].log, h);
    if h in run[k].tasks {
      assert Pends(run[k], h);
      OneEach(h);
    } else {
      EndedOnce(About(run[k].log, h), h);
    }
  }

  lemma OneEach(h: Hash)
    ensures Resolutions([LockSent(h)], h) == 0
  {
    assert [LockSent(h)][..0] == [];
  }

  lemma EndedOnce(history: seq<Output>, h: Hash)
    requires Ended(history, h)
    ensures Resolutions(history, h) <= 1
  {
    if |history| == 3 {
      assert history[..2] == [history[0], history[1]];
      assert history[..2][..1] == [history[0]];
      OneEach(h);
    }
  }
}
