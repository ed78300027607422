# Verified model of the chainlink framework's protocols

This project models the parts of the repository whose guarantees live in whole runs and interleavings, and proves them
for every run: the transaction manager, the lifecycle of a node, the pool of RPC clients, the transaction sender, the
head tracker, the node selectors and fee bumping. `dafny verify dfyconfig.toml` checks all of it.

## How the model is built

**Transaction manager** (`TxStore`, `TxProtocol`, `TxManager`, `Broadcasting`, `Confirming`, `Rebroadcast`, `TxQueue`,
`ReturnCodes`). `TxProtocol` is a machine for one address: a step is one store update, or one read that decides what
follows, and control points carry what the code holds in memory, which may be stale. Every interleaving of
Broadcaster, Confirmer, new requests, pruning, failures and restarts is a sequence of steps. `Broadcasting` and
`Confirming` are the code itself, as classes that change a shared `Manager`; whatever they do is recorded as steps, so
each of their methods is a run of the machine, and the theorems about runs hold of it. Between any two of their own
updates the other goroutines may take any steps. The answers of nodes, attempt builder, checker and store come from a
script, and a script that is used up is a cancelled context.

**Nodes and pool** (`NodeLifecycle`, `AlivePolling`, `OutOfSyncWaiting`, `RpcPool`, `NodeSelection`, `RpcClient`,
`MultiNode`, `Selectors`, `PriorityLevels`, `ChainInfos`). `NodeLifecycle` is a machine of goroutines with program
counters, one Close, and nondeterministic RPC answers. The two health loops are methods over a list of events, stated
against the whole history. `RpcPool` puts calls, Close calls and selections of any number of clients into one machine
whose steps are the regions under a lock and the channel operations; `NodeSelection` is selectNode as code that acts
on that machine, with any steps of other goroutines in between, and `RpcClient` has one client's fields against the
history of events.

**Transaction sender** (`SendResults`, `TxSender`), **head tracker** (`HeadTracking`) and **fees** (`Fees`) follow the
same pattern: a machine or a class for what changes, a plain specification for what it should compute.

## What the model relies on

- The store: an update that returns an error changes nothing; attempts come ordered by fee, highest first;
  GetInProgressTxAttempts returns only attempts of broadcast transactions and all those of unconfirmed ones;
  SaveConfirmedAttempt confirms the transaction; the saver never forgets the highest head.
- The sequence tracker: LoadNextSequences loads one above the highest broadcast sequence, GenerateNextSequence stores
  the next one, and no other wallet uses the key. What goes wrong if a reload counts the in_progress transaction is
  proved in `TxProtocol.ReloadAboveInProgressLeavesGap`.
- The chain client returns a non-nil error with every code that is not a success; an attempt builder's bumped or purge
  attempt is priced above the attempts before it; the stuck detector names transactions that have no attempt in
  progress (`TxProtocol.StuckSaveKeepsOneIff` shows that this is exactly what is needed).
- HeadByHash returns the block its hash names. Block numbers that fall along parent hashes are assumed only where a
  contract says so (`Descending`).
- Orders of nodes under priority levels are at least 0 and below MaxInt32, as they index the counters.

## Where the code and its documentation differ

The model follows the code. `multinode/README.md` draws a transition from Syncing to OutOfSync, which the code
forbids. `AddPercentage` says it increases its input, which fails above 65435 percent. A node that is closed may come
back alive, and exactly when is stated by `NodeLifecycle.StaysClosedIff`. A sender may take the zero value of a closed
channel for an answer exactly if its caller gave up or it was stopped (`TxSender.MayTakeZeroIffCancelled`), and then
answer with an empty result and no error (`TxSender.CancelledMayTakeZero`). A node of order MaxInt32 is never
selected. A queue of size 0 holds up to 2^32 transactions (`TxQueue.ReachableIff`). A number returned while SelectRPC
is reading the pool may be missed (`RpcPool.LateAnswersMayBeMissed`). The head tracker knows a finalized height only
through the latest head: when a head arrives before its parent, heads below a finalized block are saved again
(`HeadTracking.Tracker.CutChainForgets`, `HeadTracking.OldHeadIsSaved`).

## Model

| member | source | states |
|---|---|---|
| TxProtocol.RunsAreSafe | chains/txmgr/broadcaster.go:378-662 | after every interleaving of Broadcaster, Confirmer, requests, failures and restarts from an unused address: broadcast sequences are pairwise distinct and are exactly the interval up to the tracker's next one; at most one transaction is in_progress, it holds that next one and has a saved attempt; no transaction has two attempts in progress |
| TxProtocol.NothingIsLost | chains/txmgr/types/tx_store.go:43-99 | after every run the store holds exactly the transactions created and not pruned since: no failure, re-org or restart loses one |
| TxProtocol.StepKeepsInv | chains/txmgr/types/tx_store.go:43-99 | every step of either goroutine, with control points that may be stale, keeps the full inductive invariant |
| TxProtocol.SentIsForever | chains/txmgr/broadcaster.go:78-81 | through every later run a broadcast transaction stays broadcast with its sequence, and the next sequence never goes back |
| TxProtocol.LaterIsHigher | chains/txmgr/broadcaster.go:78-79 | in every run a transaction broadcast later holds a higher sequence than every transaction broadcast before |
| TxProtocol.FatalFreesSequence | chains/txmgr/broadcaster.go:793-828 | after a fatal error before broadcast nothing holds the tracker's next sequence, and the next transaction picked gets the same one |
| TxProtocol.ReloadAboveInProgressLeavesGap | chains/txmgr/types/sequence_tracker.go:17-26 | a reload that counts the in_progress transaction, followed by its fatal error, leads to a run whose broadcast sequences are gap-free for no upper end |
| TxProtocol.StuckSaveKeepsOneIff | chains/txmgr/confirmer.go:379-432 | saving a purge attempt keeps one attempt in progress per transaction if and only if the transaction named by the detector has none |
| TxProtocol.StuckCaseArises | chains/txmgr/confirmer.go:295-342 | from every unused address a broadcast, a confirmation and a re-org lead to an idle Confirmer and an unconfirmed transaction with an attempt in progress, for which any purge attempt saved would be a second one |
| TxProtocol.InFlightIsLimited | chains/txmgr/broadcaster.go:378-427 | with MaxInFlight on and no re-org, no run ever has more than MaxInFlight transactions unconfirmed or in_progress |
| TxProtocol.LoadedIsTop | chains/txmgr/types/sequence_tracker.go:17-18 | the sequence loaded after a restart is the one after the last broadcast |
| TxManager.Manager.Do | chains/txmgr/types/tx_store.go:43-99 | one store or tracker update is one step of the machine, and the state stays one that a run of the protocol reaches |
| TxManager.Manager.Yield | chains/txmgr/broadcaster.go:307-368 | whatever steps others take, broadcast transactions stay broadcast, and while the Confirmer waits they can only become finalized |
| Broadcasting.Broadcaster.ProcessUnstartedTxs | chains/txmgr/broadcaster.go:378-427 | a pass without error leaves nothing unstarted and nothing in_progress; no more transactions end as fatal than answers used may end one, and an error has a cause: answers that ran out, or a last one that is not smooth; every pass is a run of the protocol |
| Broadcasting.Broadcaster.HandleNext | chains/txmgr/broadcaster.go:387-427 | one turn: throttled exactly at MaxInFlight, or one transaction is picked for the next sequence and ends as HandleUnstartedTx says, or the loop ends, without error only on a drained queue |
| Broadcasting.Broadcaster.HandleAnyInProgressTx | chains/txmgr/broadcaster.go:429-440 | nothing is done exactly if nothing was in_progress; else that transaction is resumed with its sequence and its send ends as HandleInProgressTx says; no error means nothing is in_progress |
| Broadcasting.Broadcaster.HandleUnstartedTx | chains/txmgr/broadcaster.go:442-493 | too low a fee limit or a failed check ends the picked transaction unsent, exactly if the store takes that; a check that passes or times out means it is put in progress and its send ends as HandleInProgressTx says, unless it was removed meanwhile or the builder or the store fails; any other answer is an error that changes nothing |
| Broadcasting.Broadcaster.LeaveUnsent | chains/txmgr/broadcaster.go:447-490 | every way a picked transaction is not sent: ended unsent, removed meanwhile, or left as it was with an error |
| Broadcasting.Broadcaster.HandleInProgressTx | chains/txmgr/broadcaster.go:497-662 | through any number of re-sends, each called for by its answer and counted by the retry count: no error if and only if the store took what the last answer called for, which is that it accepted the transaction, refused it, or was one unknown error too many; then the transaction holds its sequence, or is fatal and its sequence is free; an error leaves it in_progress with its sequence and has a cause |
| Broadcasting.Broadcaster.EndIsCaused | chains/txmgr/broadcaster.go:514-519 | a send that ends as fatal has used up an answer that may end one: a refusal, an unknown error or, on Hedera, a success that did not count |
| Broadcasting.Broadcaster.HandleAnswer | chains/txmgr/broadcaster.go:521-661 | the same for every answer that leads to no other send, with what is remembered of unknown errors afterwards |
| Broadcasting.Broadcaster.HandleUnknown | chains/txmgr/broadcaster.go:605-661 | an unrecognised answer counts as accepted exactly if the node's pending count is past the sequence; otherwise it ends the transaction exactly if unknown errors of this very transaction were recorded before, have lasted for the configured time, and the store takes the update |
| Broadcasting.Broadcaster.LeaveInProgress | chains/txmgr/broadcaster.go:580-604 | after insufficient funds, a retryable or an unsupported answer the transaction is still in_progress with its sequence; its attempt is exchanged after insufficient funds only, if the builder and the store allow it |
| Broadcasting.Broadcaster.ReplaceAndResend | chains/txmgr/broadcaster.go:573-602 | a bumped or newly estimated attempt takes the place of the rejected one, and the send goes on under the same promises |
| Broadcasting.Broadcaster.ReplaceAttempt | chains/txmgr/broadcaster.go:750-791 | the stored attempt is exchanged for a new one of the same transaction if and only if one is built and the store takes it; otherwise nothing changes |
| Broadcasting.Broadcaster.Broadcast | chains/txmgr/broadcaster.go:524-572 | the store takes the broadcast and then the tracker moves to the next sequence, with others moving in between |
| Broadcasting.Broadcaster.SaveFatallyErroredTransaction | chains/txmgr/broadcaster.go:793-828 | the transaction is fatal, without attempts and without sequence, and the tracker stays |
| Broadcasting.Broadcaster.RecordUnknownErr | chains/txmgr/broadcaster.go:663-682 | gives up exactly if unknown errors of this very transaction have lasted for the configured time |
| Broadcasting.ValidateOnChainSequence | chains/txmgr/broadcaster.go:689-727 | a success stands exactly if it was counted on chain or the count could not be read, the latter with an error; a retry is asked for exactly at the exact sequence with retries left; otherwise it turns fatal |
| Broadcasting.HederaGivesUp | chains/txmgr/broadcaster.go:689-727 | in every send on Hedera a success that did not consume its sequence is re-sent at most three times in a row: of the three re-sends before it one was for a new estimate |
| Rebroadcast.FindTxsRequiringRebroadcast | chains/txmgr/confirmer.go:538-595 | the duplicate-free union of the two answers in ascending sequence, cut to the MaxInFlight lowest: nothing invented, nothing below the cut lost |
| Rebroadcast.SortBySequence | chains/txmgr/confirmer.go:585-587 | ascending, with the same rows and no repeats |
| Confirming.Confirmer.CheckForConfirmation | chains/txmgr/confirmer.go:263-292 | without error, every broadcast transaction at or above the mined count is unconfirmed, and every one below it is as it was, at most finalized meanwhile, except that if nothing was re-org'd the unconfirmed ones among them are fatal if purged and confirmed otherwise; it fails exactly if the count or the store does, or a re-org'd transaction has no attempt |
| Confirming.Confirmer.ProcessReorgTxs | chains/txmgr/confirmer.go:295-342 | exactly the re-org'd transactions go back to unconfirmed, the others are at most finalized meanwhile; it fails exactly if one has no attempt or the store does |
| Confirming.Confirmer.ProcessIncludedTxs | chains/txmgr/confirmer.go:345-375 | included transactions become fatal if purged and confirmed otherwise, the others are at most finalized meanwhile; it fails exactly if one of the two updates does |
| Confirming.Confirmer.RebroadcastWhereNecessary | chains/txmgr/confirmer.go:480-512 | a pass without error whose context lives up to the bumps puts an attempt in progress exactly once for each transaction that is due, in ascending sequence, and for no other, and leaves none of an unconfirmed transaction so; a pass whose context is cancelled before the bumps does so for none, one with an error for the first few; an error has a cause: answers that ran out or were not favourable, or rows that do not answer the queries |
| Confirming.Confirmer.RebroadcastFound | chains/txmgr/confirmer.go:487-512 | the same for the answers of the two queries, whose rows are due if FindTxsRequiringRebroadcast keeps them |
| Confirming.Confirmer.AskForTxs | chains/txmgr/confirmer.go:538-559 | the two queries: nothing is found under a context that is done after the second |
| Confirming.Confirmer.RebroadcastAll | chains/txmgr/confirmer.go:492-512 | an attempt is put in progress once for each row up to the first error, in order; without error for all of them, and none of an unconfirmed transaction is left so; an error has a cause |
| Confirming.Confirmer.RebroadcastOne | chains/txmgr/confirmer.go:492-510 | one of them: put in progress and settled, or an error with its cause |
| Confirming.Confirmer.HandleAnyInProgressAttempts | chains/txmgr/confirmer.go:518-534 | without error and with a live context no unconfirmed transaction has an attempt in progress; no attempt is added; an error has a cause |
| Confirming.Confirmer.HandleLeftovers | chains/txmgr/confirmer.go:525-533 | the loop over the leftovers, which a context that is done ends without error |
| Confirming.Confirmer.HandleInProgressAttempt | chains/txmgr/confirmer.go:662-775 | through any number of replacements, no error means that the last answer settled the attempt last sent: broadcast, broadcast with its transaction confirmed, marked as lacking funds, or removed, by its code, with the transaction otherwise as it was; no attempt of the transaction is in progress; a settling answer that is stored is never an error |
| Confirming.Confirmer.Settle | chains/txmgr/confirmer.go:707-764 | what each code leaves of the attempt and its transaction; every other transaction and attempt is as it was, and none of this one is in progress |
| Confirming.Confirmer.Replace | chains/txmgr/confirmer.go:672-750 | an underpriced or stuck attempt is replaced if and only if the builder gives a new attempt above it and the store takes it: the check that it is the highest priced one never fails; the new attempt is a purge exactly after TerminallyStuck |
| Confirming.Confirmer.SaveAttemptForRebroadcast | chains/txmgr/confirmer.go:597-624 | the attempt put in progress is the highest priced one again, or a new one above all others |
| Confirming.Confirmer.TopOf | chains/txmgr/confirmer.go:597-624 | the highest priced attempt, if there is any |
| Confirming.SettlingLeavesNone | chains/txmgr/confirmer.go:662-775 | in every reachable state, settling the attempt being handled leaves its transaction without one in progress |
| Confirming.InProgressIsTop | chains/txmgr/confirmer.go:686-690 | in every reachable state the attempt in progress is the highest priced one, and no other is |
| TxQueue.ReachableIff | chains/txmgr/txmgr.go:937-972 | over every interleaving of creations and pick-ups the numbers of unstarted transactions a subject may have are exactly those up to its queue size, or up to 2^32 for size 0 |
| TxQueue.BoundedIffSizePositive | chains/txmgr/strategies.go:57-64 | so they stay within the queue size if and only if that is at least one |
| TxQueue.PruneDropsOldest | chains/txmgr/strategies.go:57-64 | after a prune the subject has its newest transactions and no others, for any keep count |
| TxQueue.PruneSparesOthers | chains/txmgr/strategies.go:57-64 | a prune does not touch another subject's transactions |
| TxQueue.PruneKeepsRest | chains/txmgr/strategies.go:57-64 | whatever is not of the subject is left by a prune, in its order |
| TxQueue.PruneDropsEarliest | chains/txmgr/strategies.go:57-64 | in every run a prune drops only transactions of its subject, each created before all of the subject it keeps; all others stay, those without a subject too, in the order of creation |
| TxQueue.RunIsAccounted | chains/txmgr/txmgr.go:937-972 | in every run one creation is under way at a time, exactly while the mutex is held; each transaction got the next id, and what was picked up is no longer unstarted |
| NodeLifecycle.LifecycleIsSafe | multinode/node_fsm.go:171-385 | in every interleaving with one Close, raw setState calls included: at most one goroutine holds control, exactly one before Close; each loop's entry check finds its state or Closed; no transition, verification or declaration panics; start panics only if Close came before |
| NodeLifecycle.StepKeepsInv | multinode/node_lifecycle.go:40-837 | every move of every loop, and Close at any moment, keeps the invariant |
| NodeLifecycle.TransitionsLead | multinode/node_fsm.go:171-385 | the state each completed transition leaves and the loop it starts, transition by transition |
| NodeLifecycle.TransitionIsMadeIff | multinode/node_fsm.go:171-385 | state by state, a transition is made if and only if the state accepts it, one to Syncing only where that is enabled; it is dropped on a closed node and panics on any other |
| NodeLifecycle.DeclarationsLead | multinode/node_fsm.go:282-300 | what declareState makes of each state, and that it panics on all others |
| NodeLifecycle.StateChangesAreKnown | multinode/node_fsm.go:171-385 | in every run each change of the state is in the table of known ones; none leads from Syncing to OutOfSync |
| NodeLifecycle.VerifiedIsDeclared | multinode/node_fsm.go:282-300 | in every run, once a verification has found a state, its goroutine leaves the node in exactly that state with a loop started for it, unless the node is closed by then or the loop goes back to waiting |
| NodeLifecycle.StartPanicsIffClosedFirst | multinode/node.go:261-276 | in every run of at least two steps start has panicked if and only if Close was the first |
| NodeLifecycle.StaysClosedIff | multinode/node_lifecycle.go:611-666 | in every reachable closed state: the node stays closed in all continuations if and only if no goroutine is dialing at the start or redialing an unreachable node |
| NodeLifecycle.ClosedMayBecomeAlive | multinode/node.go:274-278 | for every configuration there is a run in which a closed node is declared alive |
| AlivePolling.CounterReachesIffWindow | multinode/node_lifecycle.go:126-144 | the saturating, decaying poll counter reaches a threshold if and only if some recent window has that net number of failures without a later loss the counter cannot hold: exact for every history, cap included |
| AlivePolling.CounterIsMaxSuffix | multinode/node_lifecycle.go:126-144 | below its cap the counter is the maximum over all suffixes of failures minus successes |
| AlivePolling.CounterOfShortHistory | multinode/node_lifecycle.go:126-144 | so for every history of at most 2^32 - 1 polls |
| AlivePolling.StateCounterReachesIffOutage | multinode/node_lifecycle.go:169-196 | the finalized-state counter reaches a threshold if and only if the state was that often unavailable since it was last available |
| AlivePolling.AliveLoop | multinode/node_lifecycle.go:119-263 | the loop leaves on the first event whose whole history calls for an outcome, with that outcome: each outcome occurs if and only if its condition on the history and on the other live nodes holds; so a lost subscription always makes the node unreachable, and the last usable node of a pool that is not load balanced is given up for nothing else; whatever it asks for is allowed by the lifecycle |
| AlivePolling.OutcomeIsState | multinode/node_fsm.go:228-280 | the state and the loop each outcome of aliveLoop leads to, once its transition is made |
| AlivePolling.HandleEvent | multinode/node_lifecycle.go:119-263 | one turn: the outcome due after the history, and the counters of the longer history |
| AlivePolling.Ping | multinode/node_lifecycle.go:126-156 | the threshold trips at a ping if and only if some window of polls up to it does |
| AlivePolling.CheckFinalizedState | multinode/node_lifecycle.go:166-197 | an unavailable state trips exactly after an outage of the threshold's length; an RPC error counts as a failed poll |
| AlivePolling.ProbeUntilStable | multinode/node_lifecycle.go:578-609 | a node may come back if and only if probing is off or the next threshold polls all succeed |
| OutOfSyncWaiting.NotesAreRecomputation | multinode/node_lifecycle.go:475-574 | for every history of events the issues noted one by one equal those recomputed from the full history, and the local view is the highest valid head |
| OutOfSyncWaiting.OutOfSyncLoop | multinode/node_lifecycle.go:422-576 | the bitmask equals the recomputation from the full history; the node goes back by itself if and only if that finds no issue, at the first such moment, and otherwise leaves on the first event that ends the wait, in the way it calls for: unreachable after a lost subscription, forced back in sync as the last node of a pool, or out of sync again with its issues if that node is load balanced |
| OutOfSyncWaiting.HandleEvent | multinode/node_lifecycle.go:484-574 | one event's bit operations are the change of the issues it stands for |
| OutOfSyncWaiting.NoteHead | multinode/node_lifecycle.go:502-510 | a newer head clears its flag and sets or clears the pool's, and leaves the other bits |
| OutOfSyncWaiting.SyncedIffAllCleared | multinode/node_lifecycle.go:480-486 | no issue is left if and only if every timeout was followed by a newer head of its kind and every lag behind the pool by a newer head without one |
| OutOfSyncWaiting.NewIsAboveHighest | multinode/node_lifecycle.go:327-375 | comparing with the local view accepts exactly the valid heads above all earlier ones |
| RpcPool.NothingFromEarlierLives | multinode/rpc_client_base.go:224-327 | in every interleaving of calls and any number of Close calls each part of latestChainInfo is zero or the answer to a request of the current life cycle, unless the very Close that cancelled that request's life cycle has yet to reset |
| RpcPool.OnlyCurrentWhenQuiet | multinode/rpc_client_base.go:310-327 | in every run in which each Close has come to its end, whatever is visible answers a request of the current life cycle |
| RpcPool.StaleIsNeverShown | multinode/rpc_client_base.go:233-243 | once the life cycle of a request has ended, its answer never becomes visible, however the run goes on |
| RpcPool.CloseEndsRequests | multinode/rpc_client_base.go:310-327 | a Close ends the life cycle of every request made before it that is not already writing, and its reset leaves nothing visible |
| RpcPool.RepeatableRead | multinode/node_fsm.go:107-139 | whenever SelectRPC returns a node, what it had last seen at the check is at least every number of the kind compared, minus the offset, that any node had returned to a user before the check read that node's maximum; this includes all returned before SelectRPC began |
| RpcPool.RejectionHasCause | multinode/node_fsm.go:107-139 | in every interleaving a check leaves the node out only if some call for a user of the kind compared observed a number more than the offset above what the node had seen, or zero is |
| RpcPool.ObservationsNeverFall | multinode/rpc_client_base.go:195-262 | no step of any goroutine, Close included, lowers what users have observed |
| RpcPool.LateAnswersMayBeMissed | multinode/multi_node.go:279-290 | for every pool, any two of its nodes and every offset there is a run that returns one node although a number the other returned after it was read is further ahead |
| RpcPool.RunKeepsInv | multinode/rpc_client_base.go:224-262 | locks, life cycles, users' maxima and running checks fit together after every run |
| RpcClient.RPCClientBase.OnNewHead | multinode/rpc_client_base.go:224-244 | a stale request leaves latestChainInfo alone and a health check the users' view; a user's number is at most the new maximum, which never falls; and after any history the latest view is the last head a request of the then current life cycle brought since the last reset, the users' view the maximum of all heads returned to users |
| RpcClient.RPCClientBase.OnNewFinalizedHead | multinode/rpc_client_base.go:246-262 | likewise for finalized heads |
| RpcClient.RPCClientBase.CancelLifeCycle | multinode/rpc_client_base.go:310-315 | requests made so far are stale, and both views still agree with the history |
| RpcClient.RPCClientBase.ResetLatestChainInfo | multinode/rpc_client_base.go:317-321 | nothing is visible in the latest view, whatever was written before, and users' observations are kept |
| RpcClient.RPCClientBase.Close | multinode/rpc_client_base.go:323-327 | requests made before are stale, nothing is visible, users' observations are kept, and no cancellation is left without its reset |
| RpcClient.QuietIsCurrent | multinode/rpc_client_base.go:310-327 | in every history in which each cancellation was followed by a reset, what is visible came from a request of the current life cycle |
| MultiNode.HighestUserObservations | multinode/multi_node.go:279-290 | in each part the maximum over all nodes and zero, attained |
| MultiNode.LatestChainInfo | multinode/multi_node.go:260-276 | the number of alive nodes other than the caller, and the maximum over alive nodes |
| NodeSelection.MultiNode.SelectNode | multinode/multi_node.go:198-231 | whatever other goroutines do meanwhile, a node it returns is at most the offset behind every number any node had returned to a user before the call, and becomes the active one; a failed selection leaves none; the active node, at the call or under the lock, gives way only if a look during the call found it not alive; every call is a run of the pool's machine |
| NodeSelection.MultiNode.SelectLocked | multinode/multi_node.go:211-231 | the part under the lock: the node held there is kept or found not alive, and an error leaves no active node and needs a turn that calls for it |
| NodeSelection.MultiNode.KeepActive | multinode/multi_node.go:203-218 | the active node is returned under the same promise exactly if the look at it finds it alive; a node whose own state is alive is passed over only if it lags |
| NodeSelection.MultiNode.AwaitNodeSelection | multinode/multi_node.go:235-255 | a node is returned if and only if the last turn chose one just found alive; the node error needs a turn without one and with none initializing, the context's error one with its end |
| NodeSelection.MultiNode.Select | multinode/node_selector.go:15-25 | every node is looked at once, in order, and the choice is one of those found alive |
| NodeSelection.MultiNode.IsAlive | multinode/node_fsm.go:94-139 | after a look the node is among those that passed the check against the pool exactly if it was found alive, and nothing changes for any other node; one whose own state is alive is found not alive only if it is more than the offset behind a number observed for a user |
| ChainInfos.MaxTotalDifficulty | multinode/types.go:114-128 | the least upper bound with nil as bottom |
| Selectors.FirstOrHighestPriority | multinode/node_selector_priority_level.go:109-122 | the first candidate of the lowest order; none if and only if no candidate's order is below MaxInt32 |
| Selectors.SelectHighestHead | multinode/node_selector_highest_head.go:19-34 | an alive node with the highest head, first by order and then by position; none exactly if none of those has an order below MaxInt32, so with such orders only if no node is alive |
| Selectors.SelectTotalDifficulty | multinode/node_selector_total_difficulty.go:19-47 | the same for the highest known difficulty, or all alive nodes if none is known |
| PriorityLevels.PriorityLevelSelector.SelectRound | multinode/node_selector_priority_level.go:35-49 | as many calls of Select as the tier has nodes, with the states of all nodes unchanged and without counter wrap, choose every alive node of the lowest order, and none twice |
| PriorityLevels.RoundIsFair | multinode/node_selector_priority_level.go:43-48 | any run of consecutive counts as long as the tier picks each of its nodes once |
| PriorityLevels.TierIsUnique | multinode/node_selector_priority_level.go:57-91 | the states of the nodes determine the tier |
| PriorityLevels.PriorityLevelSelector.Select | multinode/node_selector_priority_level.go:35-49 | the counter index is in range, nothing is selected exactly if no node is alive, and the choice is the tier's node at the counter |
| PriorityLevels.GetHighestPriorityAliveTier | multinode/node_selector_priority_level.go:57-70 | each alive node of the lowest order once, by position |
| PriorityLevels.RemoveLowerTiers | multinode/node_selector_priority_level.go:73-91 | the nodes of the lowest order, in the order they came |
| PriorityLevels.SortKeeps | multinode/node_selector_priority_level.go:77-79 | the stable sort falls in order and leaves the nodes of each order as they were |
| PriorityLevels.NrOfPriorityTiers | multinode/node_selector_priority_level.go:94-106 | more tiers than any order, and no more than needed |
| SendResults.AggregateTxResults | multinode/transaction_sender.go:224-251 | on the list of arrivals the map groups: the earliest result of the first success code present, else of the first severe code present, else of some code; contradiction reported if and only if both classes occur |
| SendResults.FindFirstIn | multinode/transaction_sender.go:308-316 | the results of the first listed code present, found if and only if one occurs |
| SendResults.GroupByCode | multinode/transaction_sender.go:180-187 | under each code that occurs exactly its results, in order |
| SendResults.AggregateIsAnArrival | multinode/transaction_sender.go:224-251 | the answer arrived; it is a success if and only if some node accepted, severe if and only if some node was severe and none accepted |
| SendResults.MoreNeverHurts | multinode/transaction_sender.go:224-251 | further results never turn a success into a failure or a contradiction into agreement |
| TxSender.SendingIsSafe | multinode/transaction_sender.go:93-166 | for any number of nodes and any schedule: no run sends on a closed channel; the zero value is taken, and the collector goes without an answer, only after cancellation or, the latter, without nodes; each result is collected at most once and reported at most once, and only after it was collected |
| TxSender.StateTellsRun | multinode/transaction_sender.go:93-166 | the flags and channels are what the steps of the run have made them: closed exactly by the close, done exactly by the end of the reports |
| TxSender.ReporterSeesAllCollected | multinode/transaction_sender.go:180-200 | once done, the reporter of a sender that was not stopped has seen exactly the collected results |
| TxSender.ClosedMeansCancelled | multinode/transaction_sender.go:142-146 | the collector finds the channel closed only after cancellation |
| TxSender.QuorumIsWithinReach | multinode/transaction_sender.go:255-271 | the quorum is seven tenths rounded up and never more than the answers there can be |
| TxSender.CallerGetsAnAnswer | multinode/transaction_sender.go:253-290 | with a live context the caller gets a node's answer, a success exactly if the last one taken is |
| TxSender.MayTakeZeroIffCancelled | multinode/transaction_sender.go:261-271 | from every reachable collecting state, for any number of nodes: the collector may go on to take the zero value, with nobody giving up from now on, if and only if the caller gave up or the sender was stopped already |
| TxSender.CancelledMayTakeZero | multinode/transaction_sender.go:286-289 | there is a run in which the quorum is reached with the zero value alone, and whatever the aggregation answers then is the empty result without error and without contradiction |
| TxSender.CollectTxResults | multinode/transaction_sender.go:253-290 | all results but the last left it waiting; it answers exactly if the last one does not or the timer expired, with the aggregate of all taken; the context is its only error |
| TxSender.TakeResults | multinode/transaction_sender.go:259-284 | the loop of the collector, against the same condition |
| TxSender.CollectorFollowsLoop | multinode/transaction_sender.go:259-284 | in every run of the machine a collecting collector has results that call for more, and a finished one had them before its last result |
| TxSender.TakeFollowsLoop | multinode/transaction_sender.go:266-271 | a result ends the machine's collection exactly if the loop would end on it |
| HeadTracking.Tracker.BackfillTo | chains/heads/tracker.go:523-580 | nil means the finalized hash is that of the ancestor of head at that distance and every ancestor down to it is saved, cached or fetched; only then is it marked; a mismatch is reported with both hashes |
| HeadTracking.Tracker.Backfill | chains/heads/tracker.go:234-269 | at most MaxAllowedFinalityDepth fetches; each guard answers exactly in its case, a finality violation included, and then nothing is fetched or saved; the block is marked if it is where it should be, within reach, and nothing goes wrong; after a mark on the latest chain every lower number counts as below it |
| HeadTracking.Tracker.WalkBack | chains/heads/tracker.go:544-559 | the walk ends at the exact ancestor with all in between saved, or with the error of a fetch; with nobody else saving, each head saved was fetched |
| HeadTracking.Tracker.StepBack | chains/heads/tracker.go:544-559 | the parent comes from the saver if it is there and is fetched otherwise, and what others save is kept |
| HeadTracking.Tracker.FetchAndSaveHead | chains/heads/tracker.go:590-603 | a fetched head is saved, and nothing else is |
| HeadTracking.Tracker.HandleNewHead | chains/heads/tracker.go:275-341 | with heads saved by backfill in between: a head is delivered exactly if it was saved and is above every head seen before, so delivered numbers strictly increase; it is refused as too old if and only if it is below a finalized ancestor of the latest head that saved heads lead to; a finality violation refuses every other head; refused heads are not saved |
| HeadTracking.Tracker.CutChainForgets | chains/heads/tracker.go:286-299 | a latest head above all marked blocks whose parent is not saved has no finalized ancestor to be found, and no head is refused as too old |
| HeadTracking.OldHeadIsSaved | chains/heads/tracker.go:330-338 | a run of the tracker that saves a head below a block it has marked finalized |
| HeadTracking.Tracker.SaveAndDeliver | chains/heads/tracker.go:308-340 | the part after the checks: what is saved, delivered and reported for every way the save may go |
| HeadTracking.Tracker.BelowMarkedIsBelowNearest | chains/heads/tracker.go:286-299 | comparing with the nearest finalized ancestor covers every finalized one |
| HeadTracking.Tracker.BelowFinalIsBelowNearest | chains/heads/tracker.go:286-299 | a number is below some finalized ancestor if and only if it is below the nearest one |
| HeadTracking.Tracker.Save | chains/heads/saver.go:12-22 | the latest head moves only to a higher one |
| Fees.BumpIsLeast | chains/fees/fees.go:71-119 | a successful bump is the cheapest price that meets every minimum; the limit error occurs if and only if the bumped original alone is over the cap |
| Fees.BumpChainIsBounded | chains/fees/fees.go:71-95 | in every chain of bumps prices strictly increase within the cap, and their number times the minimum bump fits below it |
| Fees.BumpChainCompounds | chains/fees/fees.go:36-41 | floored compounding over k bumps loses at most a fixed offset against the exact power |
| Fees.AddPercentageIncreasesIff | chains/fees/fees.go:35-41 | the value is never decreased if and only if the percentage is at most 65435 |
| Fees.CalculateFee | chains/fees/fees.go:60-65 | the greatest lower bound of the three prices |

## Left out

- Metrics, logging, tracing, keystore, protobuf, URL sanitising, write-target monitoring: no deep property.
- SQL of the store, fee estimators, chain clients: only their interface contracts, as listed above.
- Real time: tickers, backoffs and timeouts are events that may come at any moment.
- Transaction manager: reaper, resender, abandoned-transaction tracker, forced rebroadcast, resume callbacks, receipts
  and more than one address would only add easy members.
- Sequence syncing with the chain (SyncSequence): it serves keys that are used elsewhere, which is assumed not to
  happen.
- Confirming.Confirmer.Replace: the stuck detector's own path (ProcessStuckTransactions) is a step of the machine and
  has no method of its own.
- Termination of re-sends depends on the remote node; a finite script stands for the context's end.
- AlivePolling.AliveLoop: which heads reset which timer is left open, since timeouts may come at any moment anyway.
- OutOfSyncWaiting.OutOfSyncLoop: what isOutOfSyncWithPool compares is an answer of the events, as are its panics for
  unsupported selection modes.
- OutOfSyncWaiting.NoteHead: the mask is 8 bits wide, which holds all four flags.
- RpcPool.NothingFromEarlierLives: subscriptions and their cleanup, which is not exact in the code, are not modelled.
- RpcPool and TxSender are machines on values, because their promises are about interleavings; RpcClient,
  NodeSelection and CollectTxResults have the updates in place.
- NodeLifecycle.LifecycleIsSafe: the loops' inner waits are one control point; two of them have their own model.
- NodeSelection.MultiNode.SelectNode: leases (checkLease) and subscriptions of the replaced node are not modelled; the
  selector's choice among alive nodes is an input here and has its own models; a call that waits for a lock goes on
  waiting when its script ends.
- TxSender.QuorumIsWithinReach: the factor 0.7 is taken exactly, not as a float64 product.
- PriorityLevels.PriorityLevelSelector.SelectRound: nothing is claimed across a wrap of the 32-bit counter.
- HeadTracking.Tracker.Backfill: how the latest finalized head is calculated, and the comparison of finalized hashes
  (HeadAtHeight), depend on chain-specific code and are inputs.
- HeadTracking.Tracker.Save: the saver's trimming of old heads and its database are not modelled.
- Round robin and random selectors, send-only nodes, pollers, service start and stop: easy.
