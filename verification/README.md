# Pylons: off-chain payments, routing and JSON text

Pylons is a Go port of the Raiden off-chain payment protocol. This project models its four cores and
proves what they promise, over every input and every run.

**The bilateral channel.** `Merkle`, `Channel` and `Lifecycle` hold one node's channel: two ends with deposits,
proofs, three lock tables and a Merkle tree, the send steps, the validators and the lifecycle. `Ledger` is a
simple form of an end (one proof, one map of pending locks, one tree) and `Agreement` shows that the handlers
refine it. `MerkleBinding` says what a root stands for. `Node` and `Solvency` are about all runs of one node,
`Closing`, `Settlement` and `CoopSettlement` about how its channel ends, `Deposits` about its deposit queue,
`Lockstep` about two nodes joined by queues, `Limits` about what happens without the assumptions, on any new
channel. `NettingChannelState` is the channel as objects whose fields the handlers change in place.

**Mediated payments.** `Mediator` specifies the handlers of one forward pair, `MediatorRuns` and
`MediatorReveal` are about all its runs, `MediatorSteps` says exactly when single handlers act, `MediatorLimits`
builds the runs that go wrong, and `MediatorTask` is the pair as an object. `Initiator` and `PaymentTasks` do the same for initiator payments and their dispatch by
secret hash, and `PaymentMoney` adds up what their runs move.

**Routing.** `Walks` defines weighted walks and routes, `Dijkstra` and `DepthFirst` are the two searches,
`RouteSelection` compares them and models the retry loop, `RouteWeights` says what its weights mean for a whole
route, `RouteLimits` shows a route it misses, `TokenNetwork` has the graph and partner indexes.

**JSON text.** `JsonGrammar` states the grammar of RFC 7159, sections 2 to 7, on bytes. `Scanner` specifies the
pushdown scanner, `ScannerComplete` and `ScannerSound` prove that it accepts exactly that grammar,
`ScannerCodes` is about the codes it returns, `ScannerMachine` is the scanner object, `JsonNumber` and
`JsonString` (on `Utf8`) are the number check and the string codec. `JsonMeaning` states what a string literal
stands for and `JsonEscaping` what the printer escapes.

## Conventions

- Unsigned words are integers with a range; every Go sum, difference and product that can leave the range is
  wrapped explicitly (`Wrap64`, `Wrap32`, `Signed64`).
- A 32-byte hash is a natural number in the byte order the source compares. SHA-256 of a pair, of a packed lock
  and of a secret are uninterpreted constants, so nothing rests on their values. `MerkleBinding` alone assumes that
  the digests it names have no collisions, are not zero and are no leaves. A signature check is a boolean in the
  message.
- `sync.Map` tables are finite maps; loops over Go maps visit their keys in an arbitrary order.
- Configuration values (`ConfirmBlockCount`, `MaxBlockDelay`) are parameters.
- Run theorems assume: a new lock's secret hash is nonzero and not pending on that end; both deposits together fit
  a word; block heights do not fall; an on-chain withdrawal finds its tokens still free when it arrives. The first
  and the last are exact (`Limits.LockKeepsLedgerIff`, `Limits.ReceivedLockKeepsLedgerIff`,
  `Solvency.WithdrawnSolventIff`), and `Limits` shows inputs without them. Ledger agreement and the overflow bound
  need the first only.
- Lockstep assumes equal deposits and withdrawals, an open channel, and that a lock-expired message finds its lock
  still in the locked table and reaches a node that lags by at most `ConfirmBlockCount + MaxBlockDelay` blocks. A
  withdrawal lands on both nodes together, with no lock-expired message of the withdrawing party under way: the
  other node still counts a lock as owed until it has that message.
- The Dijkstra theorems assume non-negative weights and that no route without a repeated node reaches
  2^63 - 1; nothing else is needed for the sums to stay in range.

## Where the code does not do what one would expect

- `IsBalanceProofSafeForOnchainOperations` and `IsValidAmount` compare a sum that has already wrapped, so they never
  reject. The bound on transferred + locked comes from the overflow limit in `GetDistributable` alone
  (`Agreement.DistributableBelowLimit`, `Node.RunKeepsLedgers`).
- A lock is stored without looking whether its secret hash is pending, on sending and on receiving
  (`Limits.LockKeepsLedgerIff`, `ReceivedLockKeepsLedgerIff`); `Limits.SecondLockOverwrites` is such an input.
- A withdraw request reserves nothing until the chain's event, which is stored as it comes. Solvency survives it
  exactly when the tokens are still free (`Solvency.WithdrawnSolventIff`); `Limits.WithdrawRaceBreaksSolvency` is a
  run in which they are not.
- A lock-expired message for a lock outside the locked table is refused at once, so the later branch for an unclaimed
  lock in the same validator cannot be reached; the model has the code as it runs.
- A mediator handles an on-chain reveal with the height of the event, so a late event can pay the payee after the
  payer's lock was dropped: `MediatorReveal.OnChainPaymentBackedIff` says when, `MediatorLimits.LateRevealRun` builds
  such a run from any start on an open payer channel and `LateRevealHappens` one on two new channels.
- A refused lock-expired message marks the payer expired and disarms the danger-zone reveal
  (`MediatorReveal.InvalidExpiryDisarms`), and a danger block during settlement marks the reveal as waiting without
  emitting it (`SettlingSilencesReveal`); `MediatorLimits.InvalidExpiryRun` and `SettlingRun` build both from the
  start of a pair. `MediatorReveal.DangerBlockRevealsIff` gives the exact condition.
- `eventsForOnChainSecretRevealIfClosed` dereferences the payer's lock without looking whether there is one.
  `MediatorRuns.RevealStopsIff` says exactly when it finds none and `MediatorLimits.RevealStopsRun` builds a run to that
  point from a start of a pair. The node stops there, so a run does not go on over such a reveal.
- Sending a lock whose hash is already a leaf dereferences a missing tree; the model refuses it. `Limits.LeafTakenIff`
  says when, and `SameLockAgain` is such an input.
- `InitEventsForUnlockLock` reports a success even when there was no lock to unlock (`Initiator.UnlockReportedIff`); in
  the modelled runs that never happens (`Initiator.HandlerResolves`).
- The enumerator of route/dfs.go returns nothing on a network without nodes or edges, also when source and target
  are the same; the Dijkstra search then returns the one-node path (`RouteSelection.CompareSearches`).
- A second enumeration on the same topology keeps the paths of the first one and leaves out every route that goes on
  from one of them (`DepthFirst.Topology.GetPairPathSorted`).
- The route loop blacklists a refused hop as an intermediate node too, so it can miss a route that begins at a usable
  hop (`RouteLimits.MissesRoute`); what it guarantees when it finds none is stated in `RouteSelection.BestRoute`.
- The string parser takes an escaped apostrophe, which is no escape of RFC 7159 (`JsonMeaning.ApostropheTaken`);
  `JsonMeaning.LiteralsUnquoted` says exactly what else it takes: the string literals and nothing more.
- The string printer writes U+FFFD for an invalid byte, so the round trip restores exactly the valid UTF-8 strings.

## Model

| member | source | states |
|---|---|---|
| `Lockstep.RunKeepsLockstep` | transfer/channel.go:275-583 | In every reachable state of two nodes joined by FIFO queues, applying the messages under way to the receiver's partner end yields the sender's own end, in both directions |
| `Lockstep.RunAcceptsEveryMessage` | transfer/channel.go:855-1189 | In every reachable state the oldest message under way in either direction is accepted by its receiver (a lock-expired one when it is due) |
| `Lockstep.HeadAccepted` | transfer/channel.go:1881-2028 | The validators and handlers accept whatever message the peer's send steps put at the head of the queue |
| `Lockstep.MoveKeepsInv` | transfer/channel.go:2218-2279 | Every move of one node (send, deliver, learn a secret, deposit, withdraw, block) keeps both directions linked |
| `Lockstep.QuietNodesMirror` | transfer/channel.go:585-670 | With nothing under way both nodes hold the same books about both parties and compute the same distributable amounts |
| `Lockstep.CoopSettleAgrees` | transfer/channel.go:1611-1828 | Between two mirrored nodes a cooperative-settle request is accepted and its reply is accepted back |
| `CoopSettlement.RequestAcceptedIff` | transfer/channel.go:1730-1758 | On valid, solvent ends a request is accepted if and only if the channel is neither closed nor being settled and the signer, the partner itself, gives each side its deposit less withdrawals plus what the other has transferred and locked for it, less what it has transferred and locked itself; the two balances then add up to what is left on the chain |
| `CoopSettlement.ReplyAcceptedIff` | transfer/channel.go:1793-1828 | A reply is accepted if and only if a settlement was begun and it carries the same fair split of our own proposal, signed by both parties in their own names |
| `CoopSettlement.ProposalIsFair` | transfer/channel.go:1611-1649 | What a node proposes is that split, and the only reply it then accepts is its own proposal with the partner's signature |
| `CoopSettlement.RunSignsFairSplits` | transfer/channel.go:1683-1728 | In every reachable state a received request begins a settlement exactly when it is fair, and changes nothing otherwise |
| `CoopSettlement.RunSettlesFairSplits` | transfer/channel.go:1760-1791 | In every reachable state a reply that is not the fair split in both names ends the settlement; a fair one changes nothing |
| `Solvency.RunIsSolvent` | transfer/channel.go:585-670 | In every reachable state transferred + locked + withdrawn is covered by the deposit plus what the other end transferred, so the unsigned subtractions give the true values |
| `Solvency.RunSettlesExactly` | transfer/channel.go:1651-1681 | In every reachable state the two cooperative balances are true, non-negative and add up to both deposits minus both withdrawals (the sum the code leaves unchecked) |
| `Solvency.StepKeepsInv` | transfer/channel.go:2218-2279 | Every handler of an open, closing or closed channel keeps both ends solvent and both ledgers in agreement |
| `Solvency.WithdrawnSolventIff` | transfer/channel.go:1592-1609 | A landed withdrawal keeps both ends solvent if and only if what it takes beyond the known total is no more than the withdrawing end's wrapped balance minus its locked amount |
| `Solvency.WithdrawCovered` | transfer/channel.go:1409-1438 | A withdraw total that passes the request's bound is free in this sense at the moment of the request |
| `Solvency.WithdrawValidIff` | transfer/channel.go:1409-1438 | A withdraw total passes if and only if it takes something and, with everything transferred and locked, stays within the deposit plus the other end's transfers and within a word; that both totals stay within both deposits follows |
| `Solvency.CoopBalancesTrue` | transfer/channel.go:1675-1681 | The wrapped cooperative balance of a solvent end is the true one |
| `Node.RunKeepsLedgers` | transfer/channel.go:141-228 | In every reachable state, with no assumption about the chain: disjoint tables, proof total and root equal to those of the pending locks, leaves exactly the pending lock hashes, no proof means no locks, and transferred + locked fits a word |
| `Node.StepKeepsEnds` | transfer/channel.go:2218-2279 | Each handler keeps that agreement on both ends |
| `Node.RunKeepsSecrets` | transfer/channel.go:163-207 | In every reachable state each secret an end keeps opens the lock it is kept with |
| `Agreement.AcceptsExactly` | transfer/channel.go:275-583 | The four validators accept exactly the signed messages that fit the sender's simple ledger, are paid for by its credit, find the channel open and, for an expiry, are due |
| `Agreement.AcceptedFits` | transfer/channel.go:358-427 | Whatever a validator accepts extends the ledger correctly even when the channel is not solvent |
| `Agreement.FittingAccepted` | transfer/channel.go:358-583 | Every fitting, affordable message is accepted |
| `Agreement.InstallApplies` | transfer/channel.go:1881-2028 | Installing an accepted message in the three tables, tree and proof is one step of the simple ledger |
| `Agreement.SendDirectFits` | transfer/channel.go:945-1021 | A direct transfer that is sent fits the sender's own ledger and advances it by one step |
| `Agreement.SendLockedFits` | transfer/channel.go:855-943 | A locked transfer with a fresh secret hash fits the ledger and adds exactly its lock |
| `Agreement.SendUnlockFits` | transfer/channel.go:1023-1092 | An unlock is sent exactly when the lock is pending; it fits the ledger, removing the lock and moving its amount |
| `Agreement.ExpireLockFits` | transfer/channel.go:1210-1288 | A lock-expired message fits the ledger, removing the lock and moving nothing |
| `Agreement.SendExpiredFits` | transfer/mediator.go:953-998 | The guarded expiry only drops an unclaimed pending lock whose threshold is reached |
| `Agreement.SentAffordable` | transfer/channel.go:1290-1364 | What a send step newly commits is within the sender's credit |
| `Agreement.DirectSentIff` | transfer/channel.go:1290-1364 | On solvent ends a direct transfer is sent if and only if the channel is open, the amount positive, within the sender's credit and below the overflow limit |
| `Agreement.LockedSentIff` | transfer/channel.go:1094-1126 | On solvent ends a lock is sent if and only if the channel is open, the amount within credit and word, fewer than the pending limit are pending and its hash is not that of a pending lock |
| `Agreement.DistributableTrue` | transfer/channel.go:612-670 | For solvent ends the wrapped balance and distributable amount are the true ones |
| `Agreement.DistributableBelowLimit` | transfer/channel.go:651-670 | The overflow limit alone keeps transferred + locked + amount within a word |
| `Agreement.RegisterSecretKeepsView` | transfer/channel.go:163-173 | Learning a secret off-chain changes no total, no leaf and no proof |
| `Agreement.RegisterOnChainKeepsView` | transfer/channel.go:175-207 | Learning a secret from the chain, in time or too late, changes none of them either |
| `Agreement.RegisteredIff` | transfer/channel.go:163-207 | An off-chain secret makes exactly a locked lock unlocked, an on-chain one claims exactly a pending lock not past its expiration; both keep the secret |
| `Agreement.LockedTrue` | transfer/channel.go:585-649 | The three wrapped table totals add up to the sum of the pending locks, also when no proof exists |
| `Ledger.AmountLockedIsSum` | transfer/channel.go:585-610 | The sum over three disjoint tables is the sum over their union |
| `Ledger.FitsKeepsValid` | transfer/channel.go:795-853 | One step of the simple ledger keeps tree, root, total and bound in agreement |
| `Ledger.HashesRemove` | transfer/channel.go:823-853 | Removing a pending lock removes exactly its leaf |
| `Limits.LockKeepsLedgerIff` | transfer/channel.go:1094-1126 | Sending a lock keeps the ledger in agreement if and only if its secret hash is not pending already |
| `Limits.ReceivedLockKeepsLedgerIff` | transfer/channel.go:1914-1948 | Accepting a lock keeps the partner's ledger in agreement if and only if its secret hash is not pending there already |
| `Limits.SecondLockOverwrites` | transfer/channel.go:1094-1126 | On every new channel a second lock under the same secret hash is sent, takes the first one's place, and leaves a proof that reports both amounts over a table that holds one |
| `Limits.LeafTakenIff` | transfer/channel.go:795-821 | There is no tree with a new lock if and only if its hash is that of a pending lock |
| `Limits.SameLockAgain` | transfer/channel.go:1094-1126 | On every new channel the same lock sent a second time, which the channel could pay, finds its hash taken |
| `Limits.WithdrawRaceBreaksSolvency` | transfer/channel.go:1366-1438 | On every new channel a valid withdraw request followed by a valid payment of the same tokens leaves the end insolvent once the withdrawal lands |
| `Closing.NoncesWithoutGaps` | transfer/channel.go:358-387 | Accepted partner proofs carry the nonces 1, 2, 3, ... and the newest one is installed |
| `Closing.CloseFreezes` | transfer/channel.go:733-775 | Once a close transaction is recorded the channel is never opened again, the partner proof never changes and nothing more is accepted |
| `Closing.HighestProofWins` | transfer/channel.go:1191-1208 | The proof in a close or update transaction is the newest ever accepted in the whole run, with the largest nonce |
| `Closing.CloseAnsweredIff` | transfer/channel.go:2076-2118 | In every run a report that another address closed this channel is answered by exactly one update with the newest accepted proof if and only if the channel was open or closing, some proof was accepted and no update was recorded before; every other report, one of our own close among them, is answered by nothing |
| `Closing.ReportCloses` | transfer/channel.go:763-775 | Such a report closes the channel at its height; any other changes nothing |
| `Closing.CloseSentIff` | transfer/channel.go:1191-1208 | A close asked for on an open or closing channel sends exactly one close with the newest accepted proof and records it; otherwise it does nothing |
| `Settlement.SettledAfterWindow` | transfer/channel.go:2035-2052 | In every run a block after a heeded close sends exactly one settlement if and only if it lies beyond the settlement window counted from the height of that close and none is under way |
| `Settlement.NoSettleBeforeClose` | transfer/channel.go:2035-2052 | Without a heeded close no block sends a settlement |
| `Deposits.QueueRefinesMaximum` | transfer/channel.go:2179-2216 | After any run each end's balance is the maximum of its first balance and its confirmed deposits in any arrival order, and the sorted queue holds exactly the unconfirmed ones |
| `Deposits.DrainSettles` | transfer/channel.go:2055-2059 | The drain loop ends with every confirmed deposit applied and none left |
| `Deposits.PushSorts` | transfer/state.go:33-57 | Pushing keeps the queue sorted by height |
| `Merkle.LayerWidths` | transfer/merkle_tree.go:56-81 | Each layer has half the nodes of the one below, rounded up, and exactly the last one has a single root |
| `Merkle.LayersOrderFree` | transfer/merkle_tree.go:56-81 | The layers depend on the set of leaves, not on their order |
| `Merkle.TreeDeterminedByLeaves` | transfer/merkle_tree.go:134-147 | Two trees with the same leaves are the same layer for layer, so they have the same root |
| `Merkle.WithThenWithout` | transfer/channel.go:795-853 | Adding and removing a lock hash restores every layer, through the empty tree too |
| `Merkle.WithoutThenWith` | transfer/channel.go:795-853 | Removing and adding a lock hash restores every layer |
| `Merkle.TreeWithAdds` | transfer/channel.go:795-821 | A new lock hash yields a well-formed tree with exactly one more leaf |
| `Merkle.TreeWithoutRemoves` | transfer/channel.go:823-853 | Removing a lock hash yields a well-formed tree with exactly that leaf gone |
| `MerkleBinding.RootIsHashTree` | transfer/merkle_tree.go:32-81 | The root is the hash tree of section 2.1 of RFC 6962 over the leaves, split top-down at the largest power of two, with the smaller part first under each digest; an empty tree has the empty hash |
| `MerkleBinding.RootBindsLeaves` | transfer/merkle_tree.go:134-147 | Without digest collisions two trees of any widths have one root if and only if they have the same leaves |
| `MerkleBinding.SignedRootBindsLocks` | transfer/channel.go:795-853 | Two ends report the same locks root in their proofs if and only if they hold the same pending locks |
| `MerkleBinding.SmallRoots` | transfer/merkle_tree.go:32-54 | One leaf is its own root, and two are hashed in ascending order |
| `Merkle.SortStrict` | transfer/merkle_tree.go:56-81 | The sort yields the same elements in strictly ascending order |
| `Merkle.SortInPlace` | transfer/merkle_tree.go:56-81 | The in-place sort leaves the sorted sequence of the old contents |
| `Merkle.PairLayer` | transfer/merkle_tree.go:56-81 | The pairing loop hashes neighbours and carries an odd last node |
| `Merkle.ComputeLayers` | transfer/merkle_tree.go:56-81 | Sorts its argument in place and returns exactly the layers over it |
| `Merkle.ComputeTreeWith` | transfer/channel.go:795-821 | Returns the tree with the leaf, or none when it is there already, without touching the old tree |
| `Merkle.ComputeTreeWithout` | transfer/channel.go:823-853 | Returns the tree without the leaf, or an empty one when it was missing, without touching the old tree |
| `NettingChannelState.EndState.GetAmountLocked` | transfer/channel.go:585-610 | Returns the wrapped sum of the three tables |
| `NettingChannelState.EndState.Del` | transfer/channel.go:151-161 | Removes the lock from all three tables and changes nothing else |
| `NettingChannelState.EndState.Register` | transfer/channel.go:163-173 | Moves a locked lock to the unlocked table with its secret |
| `NettingChannelState.EndState.RegisterFromChain` | transfer/channel.go:175-207 | Moves an unexpired lock to the on-chain table with its secret |
| `NettingChannelState.Distributable` | transfer/channel.go:651-670 | Returns the specified distributable amount of two live end states |
| `NettingChannelState.NettingChannel.HandleSendDirectTransfer` | transfer/channel.go:1290-1364 | Either sends the specified proof and installs it, or refuses and changes nothing |
| `NettingChannelState.NettingChannel.SendLockedTransfer` | transfer/channel.go:1094-1126 | Either sends and stores the lock, proof and tree, or refuses and changes nothing |
| `NettingChannelState.NettingChannel.SendUnlockFor` | transfer/channel.go:1166-1189 | Sends the unlock and drops the lock, or changes nothing when it is not pending |
| `NettingChannelState.NettingChannel.EventsForExpiredLock` | transfer/channel.go:1263-1288 | Sends the lock-expired message and drops the unclaimed lock, or changes nothing without a proof |
| `NettingChannelState.NettingChannel.HandleReceiveDirectTransfer` | transfer/channel.go:1950-1998 | Installs the proof exactly when the validator accepts it |
| `NettingChannelState.NettingChannel.CheckLockedTransfer` | transfer/channel.go:524-583 | Decides the locked-transfer validator and returns the new tree |
| `NettingChannelState.NettingChannel.HandleReceiveLockedTransfer` | transfer/channel.go:1914-1948 | Installs proof, tree and lock exactly when accepted |
| `NettingChannelState.NettingChannel.CheckUnlock` | transfer/channel.go:275-326 | Decides the unlock validator and returns the new tree |
| `NettingChannelState.NettingChannel.HandleUnlock` | transfer/channel.go:2000-2028 | Installs proof and tree and drops the lock exactly when accepted |
| `NettingChannelState.NettingChannel.CheckLockExpired` | transfer/channel.go:435-522 | Decides the lock-expired validator as the code runs, with its early return |
| `NettingChannelState.NettingChannel.HandleReceiveLockExpired` | transfer/channel.go:1881-1912 | Installs proof and tree and drops the unclaimed lock exactly when accepted |
| `NettingChannelState.NettingChannel.HandleNewBlock` | transfer/channel.go:2030-2074 | Starts settlement after the window and drains the deposit queue; the loop terminates |
| `NettingChannelState.NettingChannel.EventsForClose` | transfer/channel.go:1191-1208 | Records the close and sends the newest partner proof while open or closing |
| `NettingChannelState.NettingChannel.HandleChannelClosed` | transfer/channel.go:2076-2118 | Marks the channel closed and sends one update with the newest partner proof |
| `NettingChannelState.NettingChannel.PushDeposit` | transfer/state.go:47-50 | Puts the deposit behind those of no greater height |
| `NettingChannelState.NettingChannel.HandleChannelNewBalance` | transfer/channel.go:2179-2196 | Applies a confirmed deposit at once and queues any other |
| `NettingChannelState.NettingChannel.HandleChannelWithdraw` | transfer/channel.go:1592-1609 | Takes the chain's withdrawn total as it comes |
| `NettingChannelState.NettingChannel.RegisterOffChain` | transfer/channel.go:209-216 | Registers the secret on both ends |
| `NettingChannelState.NettingChannel.RegisterOnChain` | transfer/channel.go:218-228 | Registers the on-chain secret on both ends |
| `NettingChannelState.NettingChannel.HandleSendCoopRequest` | transfer/channel.go:1611-1649 | Sends both balances and marks the settlement as going on, while open |
| `NettingChannelState.NettingChannel.HandleCoopRequest` | transfer/channel.go:1683-1758 | Replies and marks the settlement exactly when the request is valid |
| `NettingChannelState.NettingChannel.HandleCoopReply` | transfer/channel.go:1760-1828 | An invalid reply clears the pending settlement |
| `Mediator.FeeWithinLimit` | transfer/mediator.go:243-259 | Whatever the schedule, even one that wraps, the fee is between nothing and a fifth of the amount |
| `Mediator.FeeCharged` | transfer/mediator.go:243-259 | Where nothing wraps the fee taken is the flat fee plus the whole tokens of the proportional one, as long as five times that is within the amount, and otherwise a fifth of the amount, rounded down |
| `Mediator.ForwardCharges` | transfer/mediator.go:445-474 | A forwarded lock has the payer's expiration and secret hash and its amount less exactly that fee, and is what the payee's channel then holds |
| `MediatorSteps.ForwardedIff` | transfer/mediator.go:84-126 | A transfer is forwarded if and only if the payee's channel is open, can pay the whole amount, has room for the new lock, and the lock lasts longer than the reveal timeout and no longer than the settlement window |
| `MediatorSteps.RevealHeededIff` | transfer/mediator.go:1232-1282 | A secret sent to the mediator is taken in if and only if it is the first one, not empty, the payment's own, and the payer's lock has not run out; otherwise nothing changes |
| `MediatorSteps.ClosedRevealsIff` | transfer/mediator.go:905-946 | A heeded secret goes on-chain at once if and only if the payer's channel is closed, the pair is not finished, and it is neither on-chain nor waited for already |
| `MediatorSteps.OnChainPaysIff` | transfer/mediator.go:770-836 | In every state that satisfies the pair invariant, a secret seen on the chain pays the payee if and only if it is the payment's own, the payee has sent it and is unpaid, its open channel holds the lock, and the payer's lock was safely ahead at the event's height; it then gets exactly the lock's amount |
| `MediatorSteps.RevealPaysIff` | transfer/mediator.go:1000-1030 | A secret sent to the mediator pays the payee if and only if it is taken in, comes from the payee itself, and paying is safe at the node's height; the payee then gets exactly the lock's amount |
| `MediatorSteps.PayerPaysLock` | transfer/mediator.go:1317-1347 | An accepted unlock moves exactly the payer's lock to this node and marks the payer paid; any other message changes nothing |
| `MediatorSteps.PayerExpiresIff` | transfer/mediator.go:632-686 | A block marks a payer that has neither paid nor expired as expired if and only if the lock's threshold is reached and its secret is not on-chain in our own end |
| `MediatorSteps.PaidOnlyWhenAsked` | transfer/mediator.go:537-630 | In every run the payee is paid only after it has sent the secret itself |
| `MediatorRuns.MediatorPaysSafely` | transfer/mediator.go:770-836 | In every run of a forward pair the payee is unlocked at most once, and an unlock under timely events is backed: the payer's lock has more than the reveal timeout left, is paid or has its secret registered, and is worth no less |
| `MediatorRuns.PairStepKeepsInv` | transfer/mediator.go:1388-1448 | Every handler keeps the pair accounted: once the payee knows the secret the payer's lock is paid, dropped or registered |
| `MediatorRuns.StepPaysBacked` | transfer/mediator.go:770-836 | Every single step that pays the payee pays it backed by a payer lock that was not dropped |
| `MediatorRuns.StartInv` | transfer/mediator.go:415-480 | A pair created by forwarding starts with the payee's lock worth no more than the payer's |
| `MediatorRuns.SafeNotDropped` | transfer/mediator.go:61-82 | A height with more than the reveal timeout left is too early for the payer's lock to have been dropped |
| `MediatorRuns.RevealReachesPayer` | transfer/mediator.go:688-768 | A secret revealed by the payee in time never stays from the payer |
| `MediatorRuns.RevealStopsIff` | transfer/mediator.go:905-951 | A payee's reveal makes the handler look up a payer lock that is gone if and only if the reveal is heeded, the payer's channel is closed and lacks the lock, the pair is pending and the payer does not wait for a registration |
| `MediatorRuns.BlockDropsPayeeLockIff` | transfer/mediator.go:953-998 | A block takes the payee's lock back exactly when it is unclaimed, not on-chain and past the sender's threshold |
| `MediatorReveal.PaidMediatorReveals` | transfer/mediator.go:855-903 | In every attended run, once the payee is paid, each block inside the reveal window and before expiry with the payer lock unclaimed and its channel open, closing or closed leaves a reveal emitted or the secret on-chain |
| `MediatorReveal.DangerBlockRevealsIff` | transfer/mediator.go:855-903 | Such a block emits the reveal exactly when the secret is not on-chain and the payer's state is one of the first two |
| `MediatorReveal.PaidStep` | transfer/mediator.go:1000-1030 | After the payee is paid no accepted lock-expired message can drop the payer's lock |
| `MediatorReveal.InvalidExpiryDisarms` | transfer/mediator.go:1349-1386 | Whenever the reveal is needed, any refused lock-expired message marks the payer expired, after which a danger block emits nothing |
| `MediatorReveal.SettlingSilencesReveal` | transfer/mediator.go:855-903 | A danger block during settlement marks the reveal as waiting without emitting it, and no later block emits it |
| `MediatorReveal.OnChainPaymentBackedIff` | transfer/mediator.go:1284-1315 | A payment made on an on-chain reveal is backed if and only if the payer has paid or its lock is still pending in the payer's end |
| `MediatorReveal.LateRevealPaysUnbacked` | transfer/mediator.go:1284-1315 | Once the payer's lock was dropped, the payee's reveal followed by an older on-chain reveal pays the payee unbacked |
| `MediatorLimits.LateRevealRun` | transfer/mediator.go:1284-1315 | Every pair forwarded on an open payer channel, with the heights around the two expiry thresholds, has a run from its creation in which the payer's own lock-expired message is accepted and a late on-chain reveal then pays the payee unbacked |
| `MediatorLimits.LateRevealHappens` | transfer/mediator.go:1284-1315 | Under the default settings that run exists on two new channels of three nodes, for every secret with a nonzero digest |
| `MediatorLimits.RevealStopsRun` | transfer/mediator.go:905-951 | Every pair forwarded on an open payer channel before the receiver's threshold has a run in which the payer's lock is dropped, its channel closed, and the payee's reveal makes the handler look up the lock that is gone |
| `MediatorLimits.InvalidExpiryRun` | transfer/mediator.go:1349-1386 | Every pair forwarded in time on an open payer channel has a run in which the payee is paid, an unsigned lock-expired message is refused, and the danger block reveals nothing |
| `MediatorLimits.SettlingRun` | transfer/mediator.go:855-903 | Every pair forwarded in time on an open payer channel has a run in which the payee is paid, the payer's channel begins to settle, and no danger block reveals anything |
| `MediatorLimits.PaidAtOnce` | transfer/mediator.go:1232-1282 | With the reveal window still ahead, the payee's secret pays it in the same step |
| `MediatorTask.TransferPair.EventsForBalanceProof` | transfer/mediator.go:770-836 | Pays the payee only while the payer's lock is safe, and at most once |
| `MediatorTask.TransferPair.LearnAndPay` | transfer/mediator.go:1000-1030 | Runs the four steps in the source's order with the specified joint effect |
| `MediatorTask.TransferPair.HandleBlock` | transfer/mediator.go:1139-1181 | Runs expiry, danger-zone reveal and marking in this order |
| `Initiator.PaymentsResolveOnce` | transfer/mediated_initiator.go:13-87 | In every run each payment is reported at most once: one success with its unlock, one failure with its lock-expired, or a failure without a lock; while its task exists nothing is reported, and afterwards no dispatch changes anything |
| `PaymentMoney.PaymentMovesItsLock` | transfer/mediated_initiator.go:13-87 | In every run exactly the amount of its lock has moved for a payment reported as a success, and nothing for one still pending or reported as a failure |
| `PaymentMoney.SteppedMoney` | transfer/node.go:58-166 | What each step moves for each payment: its lock's amount when it ends it with a success, otherwise nothing |
| `Initiator.HandlerResolves` | transfer/mediated_initiator.go:42-87 | Exactly when each of the three state changes ends a payment, and that ending it resolves it with the matching change of the channel |
| `Initiator.UnlockReportedIff` | transfer/mediated_initiator.go:13-40 | A reported success comes with an unlock if and only if the lock is still pending |
| `Initiator.UnlockPays` | transfer/mediated_initiator.go:13-40 | A success comes with an unlock that moves the lock's amount into transferred |
| `Initiator.ExpiryDrops` | transfer/mediated_initiator.go:42-87 | A failure comes with a lock-expired message that drops the lock and pays nothing |
| `Initiator.SteppedKeepsInv` | transfer/node.go:58-166 | Starting, dispatching and other channel traffic keep every pending payment's lock in place |
| `Initiator.DispatchKeepsInv` | transfer/node.go:58-126 | Dispatching one payment leaves every other payment as it is |
| `Initiator.BeginKeepsInv` | transfer/mediated_initiator.go:126-172 | A started payment holds its lock on exactly one channel |
| `Initiator.BegunIff` | transfer/mediated_initiator.go:126-186 | A new payment gets a task if and only if some route is usable and its lock, which lasts two reveal timeouts, is new to the first such channel; without a usable route it is reported as failed |
| `Initiator.NextChannel` | transfer/mediated_initiator.go:93-124 | A usable route, and none exactly when no route is usable |
| `Initiator.FirstUsable` | transfer/mediated_initiator.go:93-124 | The chosen channel is that of the first usable route in the given order |
| `PaymentTasks.PaymentMapping.InitNextChannelFromRoutes` | transfer/mediated_initiator.go:93-124 | Returns the first route whose channel is open, below the lock limit and able to pay |
| `PaymentTasks.PaymentMapping.StartOn` | transfer/mediated_initiator.go:174-186 | Sends the lock and registers the payment task, or does neither |
| `PaymentTasks.PaymentMapping.EventsForUnlockLock` | transfer/mediated_initiator.go:13-40 | Unlocks in place and reports the success |
| `PaymentTasks.PaymentMapping.InitHandleBlock` | transfer/mediated_initiator.go:42-87 | Expires the lock in place at the threshold and reports the failure |
| `PaymentTasks.PaymentMapping.TaskTransition` | transfer/mediated_initiator_manager.go:269-312 | Dispatches the three state changes of a payment |
| `PaymentTasks.PaymentMapping.SubDispatchToPaymentTask` | transfer/node.go:58-126 | Steps the payment task and deletes it from the map when it has no next state; other channels keep their values |
| `PaymentTasks.PaymentMapping.SubDispatchToAllLockedTransfers` | transfer/node.go:49-56 | In whatever order the tasks are visited, exactly those past their threshold are gone afterwards |
| `PaymentTasks.BlockEndsTasks` | transfer/node.go:49-56 | The set of tasks a block ends does not depend on the order of dispatch |
| `TokenNetwork.EndPointsAreNodes` | transfer/state.go:257-331 | Every end point of an edge is a node |
| `TokenNetwork.AddingCounts` | transfer/state.go:257-292 | Adding an edge keeps each node's count equal to the edges that leave it, plus one for the local node |
| `TokenNetwork.RemovingCounts` | transfer/state.go:294-331 | Removing an edge keeps the counts and deletes exactly the nodes without edges |
| `TokenNetwork.IndexUnique` | transfer/state.go:338-347 | Two partner indexes of the same channels differ in empty groups at most |
| `TokenNetwork.BothOrders` | transfer/tokennetwork.go:307-317 | A channel is one between two participants exactly when they are its two addresses, in either order |
| `TokenNetwork.TokenNetworkState.constructor` | transfer/state.go:204-215 | Starts with the local node counted once and both indexes in agreement |
| `TokenNetwork.TokenNetworkState.AddRoute` | transfer/state.go:257-292 | Adds both directions, keeps edges symmetric and counts right |
| `TokenNetwork.TokenNetworkState.DelRoute` | transfer/state.go:294-331 | Removes both directions of a known channel, keeps edges symmetric and counts right |
| `TokenNetwork.TokenNetworkState.HandleChannelNew` | transfer/tokennetwork.go:245-266 | Enters a new channel in both maps and its route in the graph |
| `TokenNetwork.TokenNetworkState.SubDispatchToChannelById` | transfer/tokennetwork.go:205-235 | Deletes a settled channel from both maps and otherwise keeps both |
| `TokenNetwork.TokenNetworkState.HandleBatchUnlock` | transfer/tokennetwork.go:293-336 | Deletes exactly the settled channels between the two participants, in any order |
| `TokenNetwork.TokenNetworkState.AdjustTokenNetworkState` | transfer/state.go:338-347 | The rebuilt partner index equals the kept one up to empty groups |
| `Dijkstra.ShortestPath` | route/dijkstra.go:14-21 | Terminates with a minimum-weight route from target to source that avoids the blacklist, empty exactly when none exists |
| `Dijkstra.GetPairShortestPath` | route/dijkstra.go:60-71 | Returns such a route for the graph it is given, reversed in place |
| `Dijkstra.NewDirectGraph` | route/dijkstra.go:30-58 | Holds exactly the listed nodes outside the blacklist and each edge between two of them at both ends |
| `Dijkstra.Search.SearchPath` | route/dijkstra.go:73-122 | Terminates with a minimum-weight path to the target in the shared maps, exactly when one exists |
| `Dijkstra.Search.Relax` | route/dijkstra.go:79-96 | Whatever the order of the arcs, every arc of a settled node is relaxed afterwards |
| `Dijkstra.Search.FindNearest` | route/dijkstra.go:97-112 | Finds an unsettled node of least distance, the target first among equals |
| `Dijkstra.RelaxArcTracks` | route/dijkstra.go:80-96 | Relaxing keeps every recorded path a real one of the recorded weight |
| `Dijkstra.Candidate` | route/dijkstra.go:80-96 | The relaxed distance never overflows a signed word |
| `Dijkstra.SettleNearest` | route/dijkstra.go:97-120 | No walk to the nearest node is shorter than its distance |
| `Dijkstra.NoWalkOut` | route/dijkstra.go:113-116 | When no unsettled node has a distance the target cannot be reached |
| `Dijkstra.ReversedAnswer` | route/dijkstra.go:64-70 | A shortest walk against the edges, reversed, is a lightest route |
| `Dijkstra.ReverseInPlace` | route/dijkstra.go:67-69 | The swapping loop leaves the reversed slice |
| `Walks.RouteAvoidsBlacklist` | route/dijkstra.go:30-58 | A route of more than one node visits listed nodes outside the blacklist only |
| `DepthFirst.Topology.SearchTarget` | route/dfs.go:124-150 | Appends exactly the completions of the current path to simple routes that no path of an earlier call cuts off, each once |
| `DepthFirst.Topology.GetPairPathSorted` | route/dfs.go:109-122 | Adds exactly the simple routes from target to source that do not go on from a path of an earlier call, each once, and sorts everything by length; adds nothing when there are no nodes or no edges |
| `DepthFirst.FirstCallListsAll` | route/dfs.go:109-122 | On a new topology the answer is exactly the simple routes from target to source, each once |
| `DepthFirst.Topology.constructor` | route/dfs.go:38-64 | Keeps exactly the nodes and edges the blacklist does not name |
| `DepthFirst.SortPaths` | route/dfs.go:118-122 | Sorts by length and keeps exactly the same paths |
| `DepthFirst.GoesOn` | route/dfs.go:137-149 | A route that has not arrived goes on to a node it has not passed |
| `RouteSelection.FirstIsLightest` | route/dfs.go:109-150 | With unit weights the first enumerated path is as long as the lightest one, and one answer is empty exactly when the other is |
| `RouteSelection.CompareSearches` | route/dfs.go:118-122 | The two searches on one network agree; they differ only where the network has no live edge and source equals target |
| `RouteSelection.BestRoute` | service/route.go:115-195 | The retry loop terminates; a returned hop is usable, outside the given blacklist and on a route to the target; none is returned exactly when no DNS node is known or every route meets a hop that was refused; none with a DNS node known means that every simple route meets, before its last node, an unusable node that begins a route itself; and the answer is one the sequence of rounds can give |
| `RouteLimits.MissesRoute` | service/route.go:149-195 | On 1 - 2 - 3 and 1 - 4 - 2, with 2 refused and 4 usable, every strategy ends without an answer although 1 - 4 - 2 - 3 is a route by a usable hop |
| `RouteLimits.FirstRound` | service/route.go:138-170 | There the first round's only lightest route goes by the refused hop |
| `RouteLimits.SecondRound` | service/route.go:138-163 | With that hop blacklisted the search finds no route |
| `RouteSelection.CheckRouteAvailable` | service/route.go:286-299 | Accepts exactly the open channels with enough distributable balance |
| `RouteSelection.AvailableIff` | service/route.go:286-299 | On solvent ends a channel is available if and only if it is open and its owner can still pay the amount |
| `RouteSelection.UsableIff` | service/route.go:130-193 | With a solvent channel to it, a first hop is usable if and only if it is the target or a DNS node (the chain's list counting only when no other is known), is reachable, and its channel is open and can still pay the amount |
| `RouteSelection.NoRouteLeft` | service/route.go:149-163 | When a round finds no route, every simple route of the network meets a node blacklisted since the start |
| `RouteSelection.HopIsNew` | service/route.go:164-170 | Each failed round blacklists a listed node that was still in the graph and is not the source |
| `RouteSelection.ReweighNonNegative` | service/route.go:197-256 | Neither weighing produces a negative edge |
| `RouteWeights.ShortWeight` | service/route.go:231-256 | Weighed by fee, a route weighs its hops plus the fees of its nodes from the second on |
| `RouteWeights.ShortRouteCheapest` | service/route.go:131-139 | The search then answers with a route of the fewest hops and fees together |
| `RouteWeights.DiverseWeight` | service/route.go:197-229 | Weighed by penalty, an edge weighs one, its penalized fee and the penalized rounds so far, rounded up once |
| `RouteWeights.DefaultFee` | service/route.go:208-215 | A node without a schedule keeps one token and a thousandth of the amount, up to a fifth |
| `ScannerSound.AcceptsExactlyJson` | utils/jsonext/scanner.go:25-37 | The scanner accepts a byte string if and only if it is a JSON text of RFC 7159 sections 2 to 7 |
| `ScannerSound.RunDescribes` | utils/jsonext/scanner.go:178-194 | After every prefix the stack mirrors the open containers and the state describes the token begun |
| `ScannerSound.StepDescribes` | utils/jsonext/scanner.go:201-587 | Each byte keeps that description |
| `ScannerSound.EndValueDescribes` | utils/jsonext/scanner.go:278-322 | Closing a value completes an array element, a key or a member of exactly the innermost container |
| `ScannerSound.NumberComplete` | utils/jsonext/scanner.go:405-491 | The four final number states stand for complete numbers |
| `ScannerComplete.TextAccepted` | utils/jsonext/scanner.go:25-37 | Every JSON text is accepted |
| `ScannerComplete.RunValue` | utils/jsonext/scanner.go:212-249 | Read from where a value may begin, every value ends the scan where it began in the stack |
| `ScannerComplete.RunString` | utils/jsonext/scanner.go:336-402 | Every string literal is read to its end |
| `ScannerComplete.RunNumber` | utils/jsonext/scanner.go:405-491 | Every number ends in a final number state |
| `ScannerMachine.Machine.CheckValid` | utils/jsonext/scanner.go:25-37 | Returns true exactly on JSON texts |
| `ScannerMachine.Machine.NextValue` | utils/jsonext/scanner.go:42-66 | Splits off the shortest prefix that is a JSON text and that the byte behind it cannot carry on, and fails exactly when there is none |
| `ScannerMachine.EndSeen` | utils/jsonext/scanner.go:325-333 | In a scan that has not ended, the end of a text is reported at the first byte that cannot carry it on |
| `ScannerMachine.Machine.StepByte` | utils/jsonext/scanner.go:201-587 | One call of the stored step function |
| `ScannerMachine.Machine.StateEndValue` | utils/jsonext/scanner.go:278-322 | Pops, re-labels or fails in place as the innermost container asks |
| `ScannerMachine.Machine.StateBeginValue` | utils/jsonext/scanner.go:212-249 | Begins a literal or pushes a container in place |
| `ScannerMachine.Machine.StateBeginStringOrEmpty` | utils/jsonext/scanner.go:252-262 | Closes an empty object or begins a key |
| `ScannerMachine.Machine.PopParseState` | utils/jsonext/scanner.go:184-194 | Pops and ends the text exactly when the stack runs empty |
| `ScannerMachine.Machine.Eof` | utils/jsonext/scanner.go:160-175 | Reports the end exactly when what was read is a JSON text |
| `ScannerMachine.FailedPrefix` | utils/jsonext/scanner.go:590-594 | A prefix at which the scanner failed begins no JSON text |
| `ScannerMachine.EndCode` | utils/jsonext/scanner.go:327-333 | The end is reported one byte late: what was read before that byte is a text |
| `ScannerCodes.CodesRebuildStack` | utils/jsonext/scanner.go:76-82 | A caller that follows the returned codes alone knows the open containers after every prefix that did not fail |
| `ScannerCodes.CodesTell` | utils/jsonext/scanner.go:201-333 | Every code fits its byte and the kind of step, and one that closes or re-labels a container fits the innermost one |
| `JsonNumber.IsValidNumber` | utils/jsonext/decode.go:250-307 | Accepts exactly the numbers of RFC 7159 section 6 |
| `JsonNumber.ScansAsNumber` | utils/jsonext/scanner.go:405-491 | The scanner ends in a final number state exactly on those numbers |
| `JsonNumber.ConsumesComplete` | utils/jsonext/decode.go:250-307 | Greedy consumption finds the parts of every number |
| `JsonString.QuoteRoundTrip` | utils/jsonext/encode.go:897-971 | Unquoting a quoted string gives it back if and only if it is valid UTF-8; otherwise each bad byte comes back as U+FFFD |
| `JsonString.AsciiRoundTrip` | utils/jsonext/encode.go:897-971 | Every ASCII string survives the round trip |
| `JsonString.QuotedIsString` | utils/jsonext/encode.go:897-971 | A quoted string is one string literal for the grammar and the scanner |
| `JsonString.ChunkBack` | utils/jsonext/decode.go:1296-1374 | Whatever is printed for one rune is read back as that rune with the same bytes consumed |
| `JsonMeaning.UnquoteDenotes` | utils/jsonext/decode.go:1265-1377 | Unquoting returns exactly the bytes a quoted string stands for: UTF-8 as it is, two-byte escapes, \u escapes in either case, surrogate pairs as one rune, and U+FFFD for a bad byte or a lone surrogate |
| `JsonMeaning.LiteralHasMeaning` | utils/jsonext/decode.go:1265-1377 | Every string literal of section 7 of RFC 7159 is unquoted, to the only bytes it stands for |
| `JsonMeaning.LiteralsUnquoted` | utils/jsonext/decode.go:1306-1358 | What is unquoted is exactly the string literals and those with an escaped apostrophe |
| `JsonMeaning.ApostropheTaken` | utils/jsonext/decode.go:1314-1317 | An escaped apostrophe is no literal of the RFC and is read as an apostrophe |
| `JsonMeaning.FirstRead` | utils/jsonext/decode.go:1306-1374 | One turn of the loop reads exactly the first character, with its length and its rune |
| `JsonMeaning.PairOnly` | utils/jsonext/decode.go:1344-1352 | Two escapes that are the halves of a rune beyond the first plane are read as that rune, with twelve bytes |
| `JsonMeaning.LoneOnly` | utils/jsonext/decode.go:1344-1356 | A surrogate without its other half is read as U+FFFD, with six bytes |
| `JsonMeaning.UnitRead` | utils/jsonext/decode.go:1246-1256 | `getu4` returns the worth of four hexadecimal digits in either case, and -1 exactly when they are not there |
| `JsonEscaping.EscapesExactly` | utils/jsonext/encode.go:897-971 | A string is printed as it is if and only if it is valid UTF-8 without control characters, quotes, backslashes, line separators and, for HTML, markup; any other one gets longer |
| `JsonEscaping.QuotedHarmless` | utils/jsonext/encode.go:897-971 | What is printed never holds U+2028 or U+2029, and no <, > or & when HTML is to be escaped |
| `JsonString.RepairsExactly` | utils/jsonext/encode.go:937-945 | Repairing changes exactly the strings that are not valid UTF-8, and lengthens them |
| `JsonString.WriteString` | utils/jsonext/encode.go:897-971 | The loop that copies runs and escapes runes writes the specified literal |
| `JsonString.UnquoteBytes` | utils/jsonext/decode.go:1265-1377 | The two loops over the growing buffer compute the specified string and never write past the buffer |
| `JsonString.SkipUsual` | utils/jsonext/decode.go:1274-1292 | The first loop stops at a place from which the rest decides the answer |
| `JsonString.PutGrowing` | utils/jsonext/decode.go:1297-1304 | Growing keeps what was written and makes room for the longest rune |
| `Utf8.EncodeDecoded` | utils/jsonext/decode.go:1370-1374 | Encoding the rune of a well-formed prefix gives the prefix back |
| `JsonMeaning.EncodeSpells` | utils/jsonext/decode.go:1370-1374 | The encoder spells every scalar value |

## Left out

- Mediator.AmountWithoutFees: floating-point products are taken as exact rationals and rounded down once; rounding of large amounts is not modelled.
- Mediator.FeeWithinLimit: is about this exact fee, not about the source's floating-point one.
- Mediator.FeeCharged: is about this exact fee too, and about schedules whose fee fits a word.
- Mediator.ForwardCharges: in the same way.
- RouteSelection.Reweigh: penalty weights are exact reals; a weight too large for the integer conversion is excluded by the premise on route weights.
- RouteSelection.ReweighNonNegative: is about these exact weights, not about the source's floating-point ones.
- RouteWeights.DiverseWeight: in the same way.
- RouteSelection.BestRoute: on the network alone there is a condition that none implies (every route meets an unusable first hop) and one that implies none (no first hop is usable); between the two the answer depends on the lightest routes the searches pick and is stated by the hops they refused.
- NettingChannelState.NettingChannel.SendLockedTransfer: refuses a lock whose hash is already a leaf, where the source stops; `Limits.LeafTakenIff` has the condition.
- MediatorTask.TransferPair.EventsForOnChainSecretRevealIfClosed: does not look up the lock, where the source stops without one; `MediatorRuns.RevealStopsIff` has the condition.
- MediatorRuns.MediatorPaysSafely: backing is stated for timely events; `MediatorReveal.OnChainPaymentBackedIff` has the exact condition for the others.
- MediatorReveal.PaidMediatorReveals: assumes valid lock-expired messages and no settlement under way in danger; `MediatorReveal.DangerBlockRevealsIff` has the exact condition.
- TokenNetwork.TokenNetworkState.SubDispatchToChannelById: what the channel itself makes of the state change is a parameter; the channel's own handlers are modelled in `NettingChannelState`.
- TokenNetwork.TokenNetworkState.HandleBatchUnlock: the channels' own outcomes are a parameter in the same way.
- Deposits.QueueRefinesMaximum: the heap's sort after each push is an insertion into the sorted queue; the sort inside `Pop` finds the queue sorted and changes nothing.
- Refunds and multi-pair mediation: the guard at transfer/mediator.go:1213 keeps refund chains from forming, so one forward pair is modelled.
- Deletion of finished mediator tasks by `clearIfFinalized`: it only ends runs, and the run theorems cover every longer one.
- Secret requests, cancels and refunds of an initiator, and the target's handlers.
- Expired-lock outcome events, waiting-transfer expiry, and the settled, batch-unlock and withdraw-timeout handlers of a channel.
- At most one settle transaction: an invalid cooperative-settle reply clears the pending one.
- Merkle membership proofs, which have no callers.
- A channel object in the mediator's pair is fixed; that it can leave the channel map is modelled in `MediatorRuns` only.
- The error offset and the one-byte undo of the scanner; the reflective parts of the JSON codec, streaming and indenting.
- WAL snapshots and replay, transport, actors, chain proxies, event handlers, DNS lookups and getters.
