/** What the payments of a run move: each the amount of its lock once, or nothing. */
module PaymentMoney {
  import opened Prelude
  import opened Merkle
  import opened Channel
  import opened Initiator

  predicate Paid(history: seq<Output>, h: Hash) {
    history == [LockSent(h), UnlockSent(h), PaymentSucceeded(h)]
  }

  predicate Expired(history: seq<Output>, h: Hash) {
    history == [LockSent(h), ExpirySent(h), PaymentFailed(h)]
  }

  /** The tokens a step dispatched to payment `h` adds to what our end has transferred on its channel. */
  function MovedBy(n: Payments, st: PaymentStep, m: Payments, h: Hash): int {
    if st.DispatchStep? && st.h == h && h in n.tasks && n.tasks[h].channelId in n.channels
       && n.tasks[h].channelId in m.channels
    then Transferred(m.channels[n.tasks[h].channelId].our) - Transferred(n.channels[n.tasks[h].channelId].our)
    else 0
  }

  function Moved(run: seq<Payments>, steps: seq<PaymentStep>, h: Hash, k: nat): int
    requires |run| == |steps| + 1 && k < |run|
  {
    if k == 0 then 0 else Moved(run, steps, h, k - 1) + MovedBy(run[k - 1], steps[k - 1], run[k], h)
  }

  // ----- one step -----

  /** What a step does to payment `h`: it stays, ends with its lock paid or dropped, begins, or is over. */
  ghost predicate StepMoney(n: Payments, st: PaymentStep, m: Payments, h: Hash) {
    if h in n.tasks then
      if h in m.tasks then m.tasks[h] == n.tasks[h] && MovedBy(n, st, m, h) == 0
      else
        || (Paid(About(m.log, h), h) && MovedBy(n, st, m, h) == n.tasks[h].lock.amount)
        || (Expired(About(m.log, h), h) && MovedBy(n, st, m, h) == 0)
    else
      && MovedBy(n, st, m, h) == 0
      && (About(n.log, h) != [] ==> h !in m.tasks && About(m.log, h) == About(n.log, h))
      && !(h !in m.tasks && About(n.log, h) == [] && Paid(About(m.log, h), h))
  }

  lemma OtherMoney(n: Payments, st: PaymentStep, m: Payments, h: Hash)
    requires (h in m.tasks <==> h in n.tasks) && (h in n.tasks ==> m.tasks[h] == n.tasks[h])
    requires About(m.log, h) == About(n.log, h) && MovedBy(n, st, m, h) == 0
    ensures StepMoney(n, st, m, h)
  {
  }

  lemma ResolvedMoney(n: Payments, st: PaymentStep, h: Hash, it: Iteration)
    requires h in n.tasks && Pends(n, h) && st.DispatchStep? && st.h == h
    requires it.task.None? && Resolves(n.tasks[h], n.channels[n.tasks[h].channelId], it)
    ensures StepMoney(n, st, Resolved(n, h, n.tasks[h].channelId, it), h)
  {
    ResolvingAbout(it.outputs, h);
    Logged(n.log, it.outputs, h);
    ThreeOutputs(it.outputs, h);
  }

  lemma ThreeOutputs(outputs: seq<Output>, h: Hash)
    requires Resolving(outputs, h)
    ensures Paid([LockSent(h)] + outputs, h) <==> outputs == [UnlockSent(h), PaymentSucceeded(h)]
    ensures Expired([LockSent(h)] + outputs, h) <==> outputs == [ExpirySent(h), PaymentFailed(h)]
  {
    assert [LockSent(h)] + outputs == [LockSent(h), outputs[0], outputs[1]];
  }

  lemma DispatchMoney(cfg: Config, n: Payments, g: Hash, hap: Happening, h: Hash)
    requires PaymentsInv(n)
    ensures StepMoney(n, DispatchStep(g, hap), Dispatch(cfg, n, g, hap), h)
  {
    if g in n.tasks {
      assert Pends(n, g);
      var id := n.tasks[g].channelId;
      var it := HandleTask(cfg, n.tasks[g], n.channels[id], hap);
      DispatchShape(cfg, n, g, hap);
      HandlerResolves(cfg, n.tasks[g], n.channels[id], hap);
      if it.task.None? {
        if g == h {
          ResolvedMoney(n, DispatchStep(g, hap), h, it);
        } else {
          ResolvedIsAbout(n, g, id, it);
          OtherMoney(n, DispatchStep(g, hap), Resolved(n, g, id, it), h);
        }
      }
    }
  }

  lemma BeginMoney(n: Payments, st: PaymentStep, h: Hash)
    requires PaymentsInv(n) && st.BeginStep? && FreshPayment(n, st.h)
    ensures StepMoney(n, st, Begin(n, st.h, st.routes, st.amount, st.height), h)
  {
    var g, m := st.h, Begin(n, st.h, st.routes, st.amount, st.height);
    BeginShape(n, g, st.routes, st.amount, st.height);
    if m.tasks == n.tasks {
      NoRouteMoney(n, st, m, h);
    } else if id, expiration :| Begun(n, m, g, id, st.amount, expiration) {
      BegunMoney(n, st, m, h, id, expiration);
    }
  }

  lemma NoRouteMoney(n: Payments, st: PaymentStep, m: Payments, h: Hash)
    requires st.BeginStep? && FreshPayment(n, st.h) && (m == n || m == n.(log := n.log + [PaymentFailed(st.h)]))
    ensures StepMoney(n, st, m, h)
  {
    FirstLogged(n.log, PaymentFailed(st.h), st.h);
  }

  lemma BegunMoney(n: Payments, st: PaymentStep, m: Payments, h: Hash, id: nat, expiration: uint32)
    requires PaymentsInv(n) && st.BeginStep? && FreshPayment(n, st.h) && Begun(n, m, st.h, id, st.amount, expiration)
    ensures StepMoney(n, st, m, h)
  {
    BegunIsAbout(n, m, st.h, id, st.amount, expiration);
    if h != st.h {
      OtherMoney(n, st, m, h);
    }
  }

  lemma SteppedMoney(cfg: Config, n: Payments, st: PaymentStep, h: Hash)
    requires PaymentsInv(n) && MayStep(n, st)
    ensures StepMoney(n, st, Stepped(cfg, n, st), h)
  {
    match st
    case DispatchStep(g, hap) => DispatchMoney(cfg, n, g, hap, h);
    case BeginStep(_, _, _, _) => BeginMoney(n, st, h);
    case ChannelStep(_) =>
  }

  // ----- runs -----

  lemma StepOfRun(cfg: Config, run: seq<Payments>, steps: seq<PaymentStep>, k: nat, h: Hash)
    requires IsPaymentRun(cfg, run, steps) && 0 < k < |run|
    ensures StepMoney(run[k - 1], steps[k - 1], run[k], h)
    ensures h in run[k].tasks ==> About(run[k].log, h) == [LockSent(h)]
  {
    RunKeepsPayments(cfg, run, steps, k - 1);
    RunKeepsPayments(cfg, run, steps, k);
    SteppedMoney(cfg, run[k - 1], steps[k - 1], h);
    assert h in run[k].tasks ==> Pends(run[k], h);
  }

  /** Only a payment reported as a success has moved anything. */
  lemma {:induction false} UnpaidMovesNothing(cfg: Config, run: seq<Payments>, steps: seq<PaymentStep>, k: nat, h: Hash)
    requires IsPaymentRun(cfg, run, steps) && k < |run|
    ensures h in run[k].tasks || !Paid(About(run[k].log, h), h) ==> Moved(run, steps, h, k) == 0
  {
    if k > 0 {
      UnpaidMovesNothing(cfg, run, steps, k - 1, h);
      StepOfRun(cfg, run, steps, k, h);
      RunKeepsPayments(cfg, run, steps, k - 1);
      assert h in run[k - 1].tasks ==> Pends(run[k - 1], h);
    }
  }

  /** The payment of this task is pending with nothing moved, or over with its lock paid or dropped. */
  ghost predicate Settles(task: Task, n: Payments, h: Hash, moved: int) {
    if h in n.tasks then n.tasks[h] == task && moved == 0
    else
      || (Paid(About(n.log, h), h) && moved == task.lock.amount)
      || (Expired(About(n.log, h), h) && moved == 0)
  }

  lemma SettlesOn(task: Task, n: Payments, st: PaymentStep, m: Payments, h: Hash, moved: int)
    requires Settles(task, n, h, moved) && StepMoney(n, st, m, h)
    ensures Settles(task, m, h, moved + MovedBy(n, st, m, h))
  {
  }

  /**
   In every run, from the moment a payment has its task: while the task exists nothing
   has moved for it; afterwards exactly the lock's amount has when the payment is
   reported as a success, and nothing when it is reported as a failure.
   */
  lemma {:induction false} PaymentMovesItsLock(cfg: Config, run: seq<Payments>, steps: seq<PaymentStep>, j: nat, k: nat, h: Hash)
    requires IsPaymentRun(cfg, run, steps) && j <= k < |run| && h in run[j].tasks
    ensures Settles(run[j].tasks[h], run[k], h, Moved(run, steps, h, k))
    decreases k
  {
    if j == k {
      UnpaidMovesNothing(cfg, run, steps, k, h);
    } else {
      PaymentMovesItsLock(cfg, run, steps, j, k - 1, h);
      StepOfRun(cfg, run, steps, k, h);
      SettlesOn(run[j].tasks[h], run[k - 1], steps[k - 1], run[k], h, Moved(run, steps, h, k - 1));
    }
  }
}
