# Verification of the DCA app's transaction flows and the epoch scheduler

A Dafny model of the TypeScript that drives the DCA vaults from outside: the web app's transaction sequencer and the
orders it sends, the route search, the plan index, the money arithmetic, and the scheduler. All of it is checked by
`dafny verify dfyconfig.toml`. Where the source updates state in place the model is a class or a method with loops,
proved equal to a specification function; the theorems are about those functions, over every run.

## What is modelled

**The sequencer** (`UseTx`, `TxFlow`, `TxShown`, `FlowTimeline`, `WalletSync`). `TxSequence` has the hook's refs and
state as fields; its methods are the points where the asynchronous loop is resumed. `TxFlow` puts it behind the dialog's
gates and against a wallet and a chain that may refuse, replace, drop, delay, mine or revert anything at any time, and
proves safety over every run of events. Neither half suffices alone: two lemmas show what the hook leaves to its callers
(`run` is not refused while a hash is held, `reset` does not stop a mining loop), and the theorems use the gates that
close those gaps. `TxShown` says what the dialog shows and offers in every reachable state, and that every order whose
sends land is sent through.

**The buy** (`BestRoute`, `RouteTheorems`, `RouteOptimality`, `PlainRouter`, `BuyOrder`, `BuyFlow`, `BuyFloor`,
`BuyPayee`, `BuyRows`, `BuySafety`, `BuyOnline`, `LateTail`). The search is modelled read by read and proved sound, free
of duplicates and optimal; `PlainRouter` is a router, refusals included, that meets optimality's hypotheses on every
network. The card, its dialog, the sequencer, quotes that come back at any later moment, and a wallet and a network that
come and go form one system (`BuyFlow`). Each of its three promises has its exact condition on the answers that come
back, one the card could check when they do: the floor on screen is kept if and only if no answer raises it above the
list that goes on (`BuyFloor`); the rows fit if and only if each tail is taken up at the step it was asked for
(`BuyRows`); and, as far as the sequence can tell, nothing that has mined is sent again if and only if, besides, that
step is not marked as maybe sent (`BuySafety`). `BuyOnline` proves that all three hold of every run in which the network
stays; `LateTail` has a run against each. `BuyPayee` says who receives what is bought.

**Removal and visibility** (`RemovePlan`, `PlanVault`, `RemoveFlow`, `PlanOrders`, `PlanActions`, `BoostMath`,
`PlanIndex`, `VaultHistory`). The order builders run against the vault's rules for each leg; removal composes with the
sequencer's retry, also when the fresh read is back late, and any sequence of a plan's orders conserves what is in it
and what was paid out, but for the boost pool's share rounding, which `BoostMath` bounds. The index fold is read against
every history of the vault, every scanned window and every arrival order of the logs.

**The scheduler** (`Epochs`, `Paging`, `JobRuns`, `JobCoverage`, `JobFleet`, `Uncovered`, `UncoveredReads`,
`Scheduler`). Epoch arithmetic and sleep, the page loop against a vault whose plan list grows, shrinks and changes epoch
between calls, over all pairs and whole ticks (`JobFleet`, which `Tick` is proved to carry out), and the incremental
uncovered-plan report, with the lines it logs, against its from-scratch definition.

**Money** (`Money`, `Arith`). Fees, the gross-up, cents, coverage and the estimate's error bound.

`Wrappers`, `TxTypes` and `Text` hold the shared types and the string facts behind the keys.

## What the environment is assumed to do

- A send refused for any reason but a nonce conflict sent nothing. A nonce conflict may have sent something; the node's
  pending count never falls and counts every send of the account.
- The query library's default for writes, which `apps/web/src/components/Providers.tsx:11` does not change: a write
  started while the network is gone waits until it is back, and is then made with the wallet there is. Without a wallet
  and with a network it is refused at once, since nothing before it waits for anything.
- Each promise is an atomic step. The receipt with its `getTransaction` and its replay is one step, and so is clearing
  the pending preparation together with its note.
- The vault's rules per leg, for the index logs and for the page cursor are those of
  `contracts/src/vault/PlanVault.sol`, `contracts/src/libraries/PlanExitLib.sol` and
  `contracts/src/libraries/BoostLib.sol`. No value accrues between two legs of a removal, and the strategy and tokens
  pay. What a withdrawal of part of a boosted balance leaves is the pool's say, at most the rest; `BoostMath` proves
  that of the pool's own arithmetic.
- For optimality: hop outputs are monotone in the input, the router searches what its documentation says, reads are
  consistent with one another, and the impact cap binds nowhere. For a pay token other than USDG and WETH, also that
  WETH to USDG and back does not gain.
- Pages: one operator runs the jobs. Everyone else may create and prune plans and epochs may start, between any two
  calls, and any call may fail. A page whose send threw or whose receipt was given up may land between any two later
  calls, or never; several may be out at once. The count of runs is for full pages; the vault may cut a page short at
  its notional cap, which the coverage theorems allow for. Only the exact count of ticks also asks that nothing fails or
  moves.
- Addresses are letters and digits, each read in one spelling.

## Where the code and its comments differ

- `apps/web/src/hooks/useLogs.ts:275-277` says a re-index logs `PlanIndexed(true)` before `Deposited`; the contract
  emits `Deposited` first. The model follows the contract. Both say "live", so the fold gives the same result.
- `README.md:139` says a page that cannot be bought is skipped; the contract and the scheduler's own comment
  (`apps/scheduler/src/scheduler.ts:341-344`) say it reverts and the cursor stays. The model follows the code.
- `apps/web/src/lib/removeSteps.ts:95-99` says rebuilding lists only the remaining work. That holds exactly until the
  prune itself has mined: a rebuild after that lists the prune once more, which the vault takes as a no-op. The lemma is
  an if-and-only-if.
- `apps/web/src/components/app/create/BuyDcaCard.tsx:210-211` promises that mined steps are not sent again by a
  re-quoted retry. The card resumes at the step that had failed when the quote was asked for, and looks at nothing
  again. If wallet and network go meanwhile, "Try again" is a plain retry (line 222) whose prompt is held; once they are
  back it may mine the step (`LateTail.LateTailWrapsTwice`), or be refused over its nonce although it went out, which
  the dialog would not offer to retry (`LateTail.LateTailResendsAMinedStep`). `BuySafety.MinedStepsStayMinedExactly` is
  the exact condition.
- `apps/web/src/components/app/create/BuyDcaCard.tsx:212` promises a floor never below what was on screen. Such a late
  answer may also find the held retry at work, which ignores the new tail while the card shows the new floor
  (`LateTail.LateAnswerRaisesTheFloorOnScreen`). `BuyFloor.EveryBuyKeepsTheFloor` is the exact condition.
- `apps/web/src/app/app/plans/page.tsx:1391-1401` likewise rebuilds a removal from a read that may be back late, after a
  second click. `LateRetryFitsExactlyWhenNothingMined` is the exact condition, maybe-sent steps included; a leg so
  repeated moves no money.
- `apps/scheduler/src/scheduler.ts:60` says each uncovered pair is logged once per change. A pass that fails half way
  has logged its first lines and keeps the old report, so the next pass logs them again: exactly then
  (`LoggedAgainExactlyAfterAFailure`).
- `contracts/src/libraries/BoostLib.sol:111` says a withdrawal may hand back a hair less than asked. Priced at the same
  snapshot it pays exactly what was asked; it is the value left behind that rounds down (`BoostMath.SomePartLoses`).
- The one-second minimum at `apps/scheduler/src/scheduler.ts:426` never applies, since a boundary ahead is at least one
  second away.


## Model

| member | source | states |
|---|---|---|
| `UseTx.TxSequence.constructor` | apps/web/src/hooks/useTx.ts:211-218 | a new hook is idle: no run, no loop |
| `UseTx.TxSequence.Run` | apps/web/src/hooks/useTx.ts:356 | starts at the first step; ignored when empty or while a loop is active |
| `UseTx.TxSequence.Start` | apps/web/src/hooks/useTx.ts:220-247 | a run from a step keeps the mined states before it, and a resumed hash is only waited for |
| `UseTx.TxSequence.Prompting` | apps/web/src/hooks/useTx.ts:253-269 | the step is shown as signing and its preparation goes out |
| `UseTx.TxSequence.Fail` | apps/web/src/hooks/useTx.ts:339-342 | a failed step is recorded as the place to resume, without a hash |
| `UseTx.TxSequence.WalletBehind` | apps/web/src/hooks/useTx.ts:245-246 | a wallet found behind is mentioned on the step in hand |
| `UseTx.TxSequence.Prepared` | apps/web/src/hooks/useTx.ts:282-285 | a finished preparation is prompted with the count read before the prompt |
| `UseTx.TxSequence.PrepareFailed` | apps/web/src/hooks/useTx.ts:268-275 | an estimate that reverts fails the step, nothing sent |
| `UseTx.TxSequence.PrepareAborted` | apps/web/src/hooks/useTx.ts:276-281 | an aborted preparation ends the run as if reset |
| `UseTx.TxSequence.WalletSends` | apps/web/src/hooks/useTx.ts:285-287 | the hash is held before anything else happens |
| `UseTx.TxSequence.WalletRefuses` | apps/web/src/hooks/useTx.ts:328-343 | a refusal over the nonce consults the count; any other fails the step as not sent |
| `UseTx.TxSequence.CountRead` | apps/web/src/hooks/useTx.ts:331-337 | only an unchanged count says nothing was sent |
| `UseTx.TxSequence.ReceiptLost` | apps/web/src/hooks/useTx.ts:321-327 | a missing receipt holds the run with its hash |
| `UseTx.TxSequence.ReceiptBad` | apps/web/src/hooks/useTx.ts:305-315 | a reverted or replaced transaction fails the step |
| `UseTx.TxSequence.ReceiptOk` | apps/web/src/hooks/useTx.ts:316-345 | a successful receipt advances by one step, or completes |
| `UseTx.TxSequence.KeepWaiting` | apps/web/src/hooks/useTx.ts:358-361 | re-arms the wait on the same hash and nothing else |
| `UseTx.TxSequence.Retry` | apps/web/src/hooks/useTx.ts:372-388 | resumes at the failed step, with the tail replaced unless a hash is out; an empty tail completes |
| `UseTx.TxSequence.Cancel` | apps/web/src/hooks/useTx.ts:393 | only a preparation is cancelled |
| `UseTx.TxSequence.Reset` | apps/web/src/hooks/useTx.ts:394-398 | forgets the run and its state; an active loop past its preparation goes on |
| `TxFlow.NoStepRunsTwice` | apps/web/src/hooks/useTx.ts:193-388 | over every run of clicks, wallet answers and blocks, in every order: what executed is a prefix of its step list, each call once |
| `TxFlow.PromptOnlyWhenNothingIsOutstanding` | apps/web/src/hooks/useTx.ts:247-287 | the wallet is prompted only for the open order, at the step after everything executed, with no transaction of it unlanded |
| `TxFlow.SameHashUntilItsReceipt` | apps/web/src/hooks/useTx.ts:321-376 | whatever is pressed short of a close, retries with a new tail included, a held hash is the one waited for until its receipt |
| `TxFlow.ReceiptSettlesTheWait` | apps/web/src/hooks/useTx.ts:290-319 | the receipt advances the run only when the call itself executed; otherwise the run fails at that step |
| `TxFlow.WaitingNeverResends` | apps/web/src/hooks/useTx.ts:358-376 | while waiting, `retry` with any tail and `keepWaiting` await the same hash and prompt nothing |
| `TxFlow.ResumesAtTheFailedStep` | apps/web/src/hooks/useTx.ts:372-386 | a retry resumes at the failed step of the spliced list, everything before it executed and nothing of that step pending |
| `TxFlow.DoneMeansExecuted` | apps/web/src/hooks/useTx.ts:345 | a sequence shown as done has executed all its steps |
| `TxFlow.StatesCarryTheOrdersTitles` | apps/web/src/hooks/useTx.ts:238-244 | the shown states carry the labels of the order the run is for |
| `TxFlow.PhasesAreInOrder` | apps/web/src/components/app/TxFlowDialog.tsx:143-146 | phases are done, then at most one in flight or failed, then to do; the number the dialog names is that step |
| `TxFlow.NoPromptAcrossOrders` | apps/web/src/components/app/TxFlowDialog.tsx:119-129 | with a dialog that cannot be closed while waiting, no prompt for any order while any order has a known hash unlanded |
| `TxFlow.StepKeeps` | apps/web/src/hooks/useTx.ts:242-343 | every event keeps the invariant that ties the hook to what its order sent and executed |
| `TxFlow.StepKeepsOutstanding` | apps/web/src/components/app/TxFlowDialog.tsx:119-123 | every event but a close while waiting keeps known unlanded transactions with the order waited for |
| `TxFlow.InFlightAfter` | apps/web/src/hooks/useTx.ts:288-315 | once the chain answered for a send, the order is ready for the next step if it ran and for the same one if not |
| `TxShown.StateTellsTheRun` | apps/web/src/hooks/useTx.ts:232-262 | in every reachable state marks go with conflicts and both with a failed step, done steps have a hash, the hash waited for is on its step, the step named is the one in hand, and the wait for the wallet is noted there |
| `TxShown.NotSentIsOfferedAgain` | apps/web/src/hooks/useTx.ts:328-343 | over every run: a failed step is marked as maybe sent exactly when it failed over its nonce with the count unreadable, not taken or moved, carries the conflict it failed over, and may be tried again exactly when it is not marked |
| `TxShown.ConflictAwaitsTheCount` | apps/web/src/hooks/useTx.ts:331-337 | a conflict the count can judge is not judged before the count is in |
| `TxShown.MinedHashIsShown` | apps/web/src/hooks/useTx.ts:297-319 | the receipt of a step that ran shows it as done under the hash it mined under, its own or a repriced copy's |
| `TxShown.DialogOffersExactly` | apps/web/src/components/app/TxFlowDialog.tsx:149-262 | in every reachable state "Try again" is offered exactly at a failed step without a mark, "Keep waiting" exactly while a hash is held |
| `TxShown.ClosableExactly` | apps/web/src/components/app/TxFlowDialog.tsx:119-120 | in every reachable state an open dialog can be closed exactly at rest, with a hash held only where the flow allows it, and while held back for the wallet |
| `TxShown.CancelledMeansNothingSent` | apps/web/src/hooks/useTx.ts:389-398 | a preparation the wallet is behind for can be closed, and then nothing is prompted or sent for any order until a new one is submitted |
| `TxShown.SmoothRunCompletes` | apps/web/src/hooks/useTx.ts:247-350 | from any reachable state a new order can start from, every list of steps whose sends land is sent through, each step once and in order, and the dialog says done |
| `TxFlow.RunIsNotRefusedWhileWaiting` | apps/web/src/hooks/useTx.ts:222-226 | what the hook leaves to its callers: from a held hash, `run` prepares and prompts another first step and forgets the hash |
| `TxFlow.SuchAWaitIsReachable` | apps/web/src/hooks/useTx.ts:321-327 | a step sent whose receipt does not come holds such a hash |
| `TxFlow.ExecutedOnlyGrows` | apps/web/src/hooks/useTx.ts:193-388 | over any events what has executed of an order stays executed, in its place |
| `TxFlow.ResetDoesNotStopMining` | apps/web/src/hooks/useTx.ts:394-398 | what the hook leaves to its callers: after `reset` a mining loop goes on to the next step |
| `FlowTimeline.MapRows` | apps/web/src/components/app/TxFlowDialog.tsx:292-299 | the loop with its counter is the recursive mapping of states onto rows |
| `FlowTimeline.RowsShowTheirOwnFrom` | apps/web/src/components/app/TxFlowDialog.tsx:294-299 | rows that send show a state with their own label, the others none |
| `FlowTimeline.RowsShowEveryStateFrom` | apps/web/src/components/app/TxFlowDialog.tsx:294-299 | reading the shown states down the rows gives every state once, in order |
| `FlowTimeline.TimelineShowsEveryStepOnItsRow` | apps/web/src/components/app/TxFlowDialog.tsx:287-299 | in every reachable state of an aligned order, each step shows on its own row |
| `FlowTimeline.SpliceStaysAligned` | apps/web/src/app/app/plans/page.tsx:1390-1401 | keeping the first rows and steps and appending an aligned tail stays aligned |
| `WalletSync.LastMined.constructor` | apps/web/src/lib/walletSync.ts:24-25 | nothing remembered at first |
| `WalletSync.LastMined.LastMinedOf` | apps/web/src/lib/walletSync.ts:28-37 | an expired entry is dropped and not returned |
| `WalletSync.LastMined.NoteMined` | apps/web/src/lib/walletSync.ts:39-44 | the highest nonce is kept |
| `WalletSync.RememberedNonceNeverDecreases` | apps/web/src/lib/walletSync.ts:19-44 | within an entry's lifetime no interleaving of reads and notes, for any accounts, lowers or loses it |
| `WalletSync.NoteIsRemembered` | apps/web/src/lib/walletSync.ts:39-44 | right after a note the nonce is at least the one mined, and no other account's entry changed |
| `WalletSync.RecallMeans` | apps/web/src/lib/walletSync.ts:28-37 | an entry counts for two minutes; an older one is forgotten, and no other |
| `WalletSync.NotedMeans` | apps/web/src/lib/walletSync.ts:39-44 | a note is kept unless a higher nonce is still remembered, and touches no other account |
| `WalletSync.WaitForWalletNonce` | apps/web/src/lib/walletSync.ts:66-114 | true exactly when a count past the previous nonce was read before the end, in the first check or after a first check that showed the wallet behind; `onSlow` once, exactly in that case |
| `WalletSync.SyncedSawTheCount` | apps/web/src/lib/walletSync.ts:87-97 | a check says in step exactly on a count past the previous nonce that the wallet itself reported while the wait was on |
| `WalletSync.NextNonceIsLarger` | apps/web/src/hooks/useTx.ts:255-304 | noted, remembered through whatever else the tab does, waited for and prompted: the next step's nonce is larger than the last one's |
| `WalletSync.NoncesStrictlyIncrease` | apps/web/src/hooks/useTx.ts:200-204 | over a whole flow so prompted, with a wallet count that never moves back, nonces strictly increase |
| `BestRoute.ReadStones` | apps/web/src/hooks/useProtocol.ts:652-660 | the first two rounds: first legs, approved hops, onward picks; any transport failure fails them |
| `BestRoute.JoinTails` | apps/web/src/hooks/useProtocol.ts:673-680 | one stone's tails joined in order, unroutable and already seen paths dropped |
| `BestRoute.Compose` | apps/web/src/hooks/useProtocol.ts:668-681 | the composed paths of every usable stone |
| `BestRoute.QuoteEach` | apps/web/src/hooks/useProtocol.ts:682-684 | every composed path is asked end to end; fails exactly when some read fails in transport |
| `BestRoute.Confirm` | apps/web/src/hooks/useProtocol.ts:685-688 | the paths with an output above zero, in order |
| `BestRoute.Reduce` | apps/web/src/hooks/useProtocol.ts:690-694 | the reduce is the list's winner: highest output, then fewest hops, then earliest |
| `BestRoute.ReadFirstLegs` | apps/web/src/hooks/useProtocol.ts:695-699 | what each first leg pays, by lower-case stone |
| `BestRoute.ReadBestRoute` | apps/web/src/hooks/useProtocol.ts:638-701 | throws exactly when one of the reads it makes fails in transport; otherwise the winner of all candidates, and what the first leg pays |
| `RouteTheorems.HopKeyInjective` | apps/web/src/hooks/useProtocol.ts:602-604 | a hop's key determines every field up to hex case |
| `RouteTheorems.PathKeyIdentifies` | apps/web/src/hooks/useProtocol.ts:602-604 | two paths share a key exactly when they are the same hops up to hex case |
| `BestRoute.BestIsLexicographicMax` | apps/web/src/hooks/useProtocol.ts:690-694 | the winner of the list: nothing delivers more, nothing that delivers as much is shorter, nothing before it delivers as much over as few hops |
| `RouteTheorems.RoutableGoesOnce` | apps/web/src/hooks/useProtocol.ts:583-600 | what may be sent: one to three hops chained from one token to the other, no token met twice, up to hex case |
| `RouteTheorems.OwnPickKeepsFullTies` | apps/web/src/hooks/useProtocol.ts:626 | the highest output wins; on a tie the shorter path; then the router's own pick |
| `RouteTheorems.CandidatesAreSound` | apps/web/src/hooks/useProtocol.ts:577-600 | every candidate is one to three hops chained from end to end with no token twice, and carries the output a read gave it |
| `RouteTheorems.TailsInOrder` | apps/web/src/hooks/useProtocol.ts:671-672 | the router's onward pick is joined first, then each approved direct hop, as listed |
| `RouteTheorems.JoinsInOrder` | apps/web/src/hooks/useProtocol.ts:673-680 | what the first tails give stands in front of what the rest give |
| `RouteTheorems.ConfirmedInOrder` | apps/web/src/hooks/useProtocol.ts:685-688 | and so do the paths once confirmed |
| `RouteTheorems.NoPathTwice` | apps/web/src/hooks/useProtocol.ts:663-680 | no two candidates are the same path up to hex case |
| `RouteOptimality.OwnPickCovers` | apps/web/src/hooks/useProtocol.ts:606-613 | the answer is no worse than anything the router itself searches |
| `RouteOptimality.LoopLosesNothing` | apps/web/src/hooks/useProtocol.ts:591-598 | whatever happens to a join of the first leg with one of its tails, kept, dropped as a loop or as a duplicate, an order paid in WETH included, the answer delivers as much |
| `RouteOptimality.ThroughUsdgCovers` | apps/web/src/hooks/useProtocol.ts:613-620 | every path whose last stone is USDG is covered |
| `RouteOptimality.ThroughBothCovers` | apps/web/src/hooks/useProtocol.ts:615-624 | every path through USDG and then WETH is covered |
| `RouteOptimality.RivalShapes` | apps/web/src/hooks/useProtocol.ts:606-624 | the simple paths through USDG and WETH are those three kinds |
| `RouteOptimality.BestRouteIsOptimal` | apps/web/src/hooks/useProtocol.ts:606-637 | the answer delivers at least as much as every simple approved path through USDG and WETH |
| `RouteOptimality.AnswerIsDeliverable` | apps/web/src/hooks/useProtocol.ts:616-620 | the answer is itself an approved simple path and delivers exactly what it says |
| `RouteOptimality.AnswerCoversWhatTheCapLeaves` | apps/web/src/hooks/useProtocol.ts:591-598 | with no assumption on the impact cap or what else the router refuses: of its own pick and every routable join of the first leg with a tail, duplicates included, the answer delivers at least what the router still answers |
| `PlainRouter.EveryNetworkHasAnHonestRouter` | contracts/src/router/AggregatorRouter.sol:139-200 | every network has a router that prices and picks as assumed and refuses what `quotePath` refuses: empty, unchained, over-long, unapproved and undelivering paths |
| `PlainRouter.EverySearchIsSound` | contracts/src/router/AggregatorRouter.sol:150-175 | so every search of two different tokens over such a router meets the hypotheses of optimality |
| `BuyOrder.BuyDcaCard.constructor` | apps/web/src/components/app/create/BuyDcaCard.tsx:94-97 | no order at first |
| `BuyOrder.BuyDcaCard.Submit` | apps/web/src/components/app/create/BuyDcaCard.tsx:180-203 | a new id, and the order frozen as built, each call of it written out, its steps run |
| `BuyOrder.BuyDcaCard.RetryClicked` | apps/web/src/components/app/create/BuyDcaCard.tsx:219-224 | one quote out at a time; without an order, a wallet or a failed step a plain retry |
| `BuyOrder.BuyDcaCard.QuoteBack` | apps/web/src/components/app/create/BuyDcaCard.tsx:231-252 | an answer for another order changes nothing; otherwise the order is rebuilt, written out, and its steps from the failed one on are retried, or nothing is sent |
| `BuyOrder.BuyDcaCard.CloseFlow` | apps/web/src/components/app/create/BuyDcaCard.tsx:254-260 | closing drops the order, resets the sequence, and clears the amount exactly after a success |
| `BuyOrder.SubmittedIs` | apps/web/src/components/app/create/BuyDcaCard.tsx:165-201 | what each call of a new order is: an approval of the amount for the router exactly when needed, a wrap of it exactly for ETH, then the swap of it to the connected account along the route shown at the floor shown |
| `BuyOrder.RequotedIs` | apps/web/src/components/app/create/BuyDcaCard.tsx:232-250 | what a rebuilt order is: the same but for its buy, which goes for the same amount along the fresh route to the account of the click, at the fresh floor or, while still reached, the higher one on screen |
| `BuyOrder.AnswerSends` | apps/web/src/components/app/create/BuyDcaCard.tsx:234-251 | nothing below the floor on screen; else the rebuilt order from the failed step on |
| `BuyOrder.SubmittedAgrees` | apps/web/src/components/app/create/BuyDcaCard.tsx:184-201 | in a new order the last step, the floor, the tokens and the rows say the same |
| `BuyOrder.RequotedAgrees` | apps/web/src/components/app/create/BuyDcaCard.tsx:240-250 | and so they do after a re-quote, with every other step unchanged |
| `BuyOrder.FloorHoldsAcrossARequote` | apps/web/src/components/app/create/BuyDcaCard.tsx:205-251 | the resent floor is at least the one on screen and at most the fresh quote; below it nothing is sent |
| `BuyPayee.EveryBuyPaysAClick` | apps/web/src/components/app/create/BuyDcaCard.tsx:165-252 | over every run, whatever is listed, sent or executed for any order pays what it buys to an account that was connected at one of the clicks |
| `BuyPayee.BuyPaysItsOwnClick` | apps/web/src/components/app/create/BuyDcaCard.tsx:189-240 | a new order's buy pays the account at its click, a rebuilt one the account at the "Try again" that asked for its quote, along the route quoted; nothing else changes what the order pays |
| `BuyFloor.EveryBuyKeepsTheFloor` | apps/web/src/components/app/create/BuyDcaCard.tsx:205-252 | over every run of clicks, late quotes, wallets and networks that come and go, wallet answers and blocks: what is sent, waited in or could be taken up buys for at least the floor on screen all the way, if and only if no answer that leaves the list as it is raises the floor above the list's |
| `BuyFloor.AnswerKeepsTheFloorExactly` | apps/web/src/components/app/create/BuyDcaCard.tsx:240-251 | step by step: in any state the card can be in, an answer keeps the floor if and only if it is such an answer; no other event loses it |
| `BuyFlow.OrderAlwaysAgrees` | apps/web/src/components/app/create/BuyDcaCard.tsx:34-52 | the order on screen is consistent in every reachable state, whatever comes back late |
| `BuyFlow.StaleQuoteChangesNothing` | apps/web/src/components/app/create/BuyDcaCard.tsx:231-232 | an answer for a closed or replaced order changes neither order nor sequence |
| `BuyRows.LiveQuoteResendsOrStops` | apps/web/src/components/app/create/BuyDcaCard.tsx:233-251 | below the floor a live answer leaves the sequence untouched; with it reached a failed run starts again at the step the quote was asked for, on exactly the rebuilt order and no lower floor, if and only if that is the step it stands at |
| `BuySafety.SureRunsAreSequencerRuns` | apps/web/src/components/app/create/BuyDcaCard.tsx:145-260 | a run of the card none of whose answers takes up a step marked as maybe sent is a run of the sequencer behind its dialog |
| `BuySafety.BuysInheritTheFlowSafety` | apps/web/src/components/app/create/BuyDcaCard.tsx:145-260 | in such runs every order the card ever opened executes as a prefix, each call once, with no overlapping prompt |
| `BuySafety.MinedStepsStayMinedExactly` | apps/web/src/components/app/create/BuyDcaCard.tsx:210-211 | an answer that resends works through the rebuilt order, from a step that surely has not run, if and only if the run stands at the step the quote was asked for and that step is not marked as maybe sent |
| `BuyFlow.ErrorStateHasAFailedRun` | apps/web/src/components/app/create/BuyDcaCard.tsx:221-222 | where "Try again" is drawn, in every state the hook can be in, the failed step shown is the one the run resumes at |
| `BuyRows.CardShowsEveryStepOnItsRow` | apps/web/src/components/app/create/BuyDcaCard.tsx:199-251 | over every run: the card's rows, re-quoted or not, show each step's state on its own row, once and in order, all the way, if and only if every tail taken up was taken up at the step its quote was asked for |
| `BuyFlow.BusySequenceIgnoresTheTail` | apps/web/src/components/app/create/BuyDcaCard.tsx:240-251 | a live answer that finds no failed run changes the order on screen and nothing that is sent; at most a wait is taken up again |
| `BuyOnline.TryAgainWithoutAWallet` | apps/web/src/components/app/create/BuyDcaCard.tsx:222 | without a wallet "Try again" fails the step anew, with nothing sent and no order changed |
| `BuyOnline.TryAgainOffline` | apps/web/src/components/app/create/BuyDcaCard.tsx:222 | with the network gone too its prompt is due and held |
| `BuyFlow.FailedAtFindsTheFirst` | apps/web/src/components/app/create/BuyDcaCard.tsx:221 | the step to resume at is the first failed one, if there is one |
| `BuyOnline.OnlineRunsFit` | apps/web/src/components/app/create/BuyDcaCard.tsx:219-232 | while the network stays, every late answer meets the three conditions, however wallets come and go |
| `BuyOnline.OnlineRunsSendTheOrderOnScreen` | apps/web/src/components/app/create/BuyDcaCard.tsx:205-252 | and the list worked through is then the order on screen, its buy at no lower floor, and exactly the buy on screen unless a quote below the floor was shown meanwhile |
| `LateTail.LateTailWrapsTwice` | apps/web/src/components/app/create/BuyDcaCard.tsx:219-235 | a run in which the step is another: wallet and network go while a quote is out, a plain retry's prompt is held until they are back and mines the wrap, and the late tail prepares a second one |
| `LateTail.LateTailResendsAMinedStep` | apps/web/src/components/app/create/BuyDcaCard.tsx:222-235 | a run in which the step is the same and marked: the held prompt is refused over its nonce although the wrap went out and mines, and the late answer prepares it again |
| `LateTail.LateAnswerRaisesTheFloorOnScreen` | apps/web/src/components/app/create/BuyDcaCard.tsx:237-251 | a run in which the floor is lost: a better quote comes back while the held retry is prompted, and the card shows a floor above the one being sent |
| `Money.FeeIsFloored` | apps/web/src/lib/format.ts:49 | the fee is the exact share rounded down |
| `Money.UsdCentsIsNearest` | apps/web/src/lib/format.ts:12-16 | the cents shown are the nearest, halves up |
| `Money.DepositForIsTight` | apps/web/src/lib/planFunds.ts:40-48 | the deposit credits at least the net, one cent less at most the net, and it prints exactly |
| `Money.DepositForAtFullFee` | apps/web/src/lib/planFunds.ts:43-47 | with nothing left once the fee is taken, the deposit is the amount itself, up to the cent |
| `Money.NetIsMonotone` | apps/web/src/lib/format.ts:49 | a larger amount never nets less |
| `Money.BuysAreQuotientAndRemainder` | apps/web/src/lib/planFunds.ts:4-9 | buying the smaller of balance and amount to exhaustion makes quotient-many full buys and one of the remainder |
| `Money.CoverageMatchesBuys` | apps/web/src/lib/planFunds.ts:27-38 | the copy counts those buys; a last one is named exactly from one cent on |
| `Money.FundsLevelMeans` | apps/web/src/lib/planFunds.ts:18-25 | what each level says about the next buy |
| `Money.EstimateBound` | apps/web/src/lib/planEstimate.ts:21-37 | the estimate never exceeds the true amount and is within 10000/10001 of it less a unit |
| `Money.EstimateIsMonotone` | apps/web/src/lib/planEstimate.ts:33-37 | defined exactly from the smallest usable quote on; more spend never estimates less |
| `RemovePlan.BuildRemoveOrder` | apps/web/src/lib/removeSteps.ts:100-152 | the legs the plan needs now, a row for each, the delete row deferred exactly while a page is open |
| `RemovePlan.RemovalIs` | apps/web/src/lib/removeSteps.ts:100-152 | the removal, call by call: unboost, withdraw all, claim all and prune, each exactly when there is something for it to do |
| `RemovePlan.BuildCloseOrder` | apps/web/src/lib/removeSteps.ts:165-197 | one close, or nothing for an empty plan while a page is open |
| `RemovePlan.BuildPartialWithdraw` | apps/web/src/lib/removeSteps.ts:203-212 | exactly the idle part |
| `RemovePlan.RowsOfSteps` | apps/web/src/lib/removeSteps.ts:103-149 | one row a step under the step's label is an aligned timeline |
| `PlanVault.WithdrawMoves` | contracts/src/libraries/BoostLib.sol:96-113 | a withdrawal pays exactly what was asked, idle USDG first, the rest out of the boosted balance, and refuses nothing and too much |
| `PlanVault.ClaimMoves` | contracts/src/libraries/PlanExitLib.sol:70-84 | a claim pays out that much of the stock, or all, and refuses nothing and too much |
| `PlanVault.PruneUnindexes` | contracts/src/libraries/PlanExitLib.sol:91-104 | a prune takes an empty plan out of the index while no page is open |
| `PlanVault.CloseEmpties` | contracts/src/libraries/PlanExitLib.sol:106-157 | a close pays everything out and unindexes, or parks an indexed plan while a page is open |
| `PlanVault.LegsRun` | apps/web/src/lib/removeSteps.ts:107-149 | each leg listed succeeds in the state the legs before it leave |
| `PlanVault.RemovalNeverReverts` | apps/web/src/lib/removeSteps.ts:8-16 | from every consistent plan no leg reverts; it ends empty, paid out, and unindexed exactly when no page was open |
| `PlanVault.RebuildDropsMinedLegsExactly` | apps/web/src/lib/removeSteps.ts:95-99 | the rebuild after k mined legs is the list without its first k steps if and only if the prune has not mined; after it, it lists the prune alone |
| `PlanVault.CloseEndsWhereTheSequenceDoes` | apps/web/src/lib/removeSteps.ts:154-164 | with no page open the close ends in the same plan with the same payouts; with one it pays the same and parks |
| `PlanVault.PartialWithdrawLeavesTheBoost` | apps/web/src/lib/removeSteps.ts:199-203 | the partial withdrawal pays the idle part and leaves the boosted one |
| `RemoveFlow.RestFinishesTheJob` | apps/web/src/lib/removeSteps.ts:95-99 | after any unfinished part, the rebuilt legs are the rest and finish the removal |
| `RemoveFlow.RetryWithTheRest` | apps/web/src/hooks/useTx.ts:372-386 | a retry given exactly the undone steps keeps the list and prepares the failed step |
| `RemoveFlow.RetryResumesTheRemoval` | apps/web/src/app/app/plans/page.tsx:1390-1409 | over every run of the sequencer, a retry with the rebuilt tail resumes the same list and completes the removal |
| `PlanVault.MinedLegMovesNothing` | apps/web/src/lib/removeSteps.ts:95-99 | a leg that has mined, sent once more later in the removal, reverts or changes nothing |
| `RemoveFlow.LateTailFitsExactlyAtItsStep` | apps/web/src/app/app/plans/page.tsx:1391-1401 | a tail rebuilt after j legs and spliced into a run that stands at k leaves the list as it was if and only if j is k |
| `RemoveFlow.LateRetryFitsExactlyWhenNothingMined` | apps/web/src/app/app/plans/page.tsx:1391-1401 | over every run, failed steps that may have been sent included: a tail read late leaves the list as it was exactly when the read saw the steps before the failed one and no more, and the step it goes on with has not executed exactly when nothing has since the read |
| `RemoveFlow.LateStepMovesNothing` | apps/web/src/app/app/plans/page.tsx:1391-1401 | if that step has executed, sending it once more reverts or changes nothing, over every run: no money moves twice |
| `RemoveFlow.LateRetryElsewhereChangesNothing` | apps/web/src/app/app/plans/page.tsx:1391-1401 | a late retry that finds the run under way, waiting, done or gone changes no list |
| `RemoveFlow.RowsAlignedExactlyAtTheirStep` | apps/web/src/app/app/plans/page.tsx:1399 | the kept and rebuilt rows are aligned with the spliced steps if and only if the step the form saw failed is the one the run stands at |
| `PlanOrders.BuildDepositOrder` | apps/web/src/lib/planSteps.ts:288-347 | the calls of a deposit, approval first when short, aligned with its rows |
| `PlanOrders.SingleOrdersAreAligned` | apps/web/src/lib/planSteps.ts:387-477 | the one-call orders are aligned |
| `PlanOrders.SingleOrdersSend` | apps/web/src/lib/planSteps.ts:387-477 | what each of them sends |
| `PlanOrders.WithdrawSplits` | apps/web/src/lib/planSteps.ts:349-381 | receive plus fee is the amount; idle goes first, the boost covers the rest |
| `PlanOrders.SettlingMovesOnlyTheBoost` | apps/web/src/lib/planSteps.ts:224-246 | the receipt's excess over the estimate is attributed to the boost; steps and labels stay |
| `PlanActions.WithdrawPaysWhatItShows` | apps/web/src/lib/planSteps.ts:349-381 | carried out by the vault, a withdrawal pays the amount shown, idle first, and leaves the balance shown, or no more than it where part of the boosted balance was taken |
| `PlanActions.CallsConserve` | contracts/src/libraries/PlanExitLib.sol:44-150 | any calls, run through or stopped by a revert, conserve stock, make no USDG, and lose none unless part of a boosted balance is withdrawn; only a prune or a close unindexes |
| `PlanActions.OrdersConserve` | apps/web/src/lib/planSteps.ts:349-477 | over every sequence of a plan's orders, each built from the plan as it then is: USDG in it and paid out never grow, and add up to the same unless part of the boosted balance was withdrawn; stock always does; only a removal or a close unindexes it, empty |
| `PlanActions.OnlyPartsRound` | contracts/src/libraries/BoostLib.sol:100-115 | the only orders that round are withdrawals of an amount between the idle USDG and the whole balance |
| `BoostMath.PartNeverGains` | contracts/src/libraries/BoostLib.sol:206-232 | what is left of a boosted balance and what was taken out are together no more than before, and less by at most one unit more than a share's price |
| `BoostMath.EveryPoolRoundsUp` | contracts/src/libraries/BoostLib.sol:53-55 | whatever the pool holds, it rounds as the conservation theorems rely on |
| `PlanActions.RemovalPaysTheRest` | apps/web/src/lib/removeSteps.ts:8-16 | after any such orders a removal, or a close, has paid out all the plan ever held but for what was rounded off |
| `PlanIndex.PlanLiveness` | apps/web/src/hooks/useLogs.ts:290-299 | the loop is the last-write-wins fold over the sorted copy |
| `PlanIndex.StrictOrderIsUnique` | apps/web/src/hooks/useLogs.ts:291 | a set of logs has one strict chain order |
| `PlanIndex.ArrivalOrderDoesNotMatter` | apps/web/src/hooks/useLogs.ts:290-299 | the map is the same for every arrival order |
| `PlanIndex.LivenessMeans` | apps/web/src/hooks/useLogs.ts:290-299 | whatever the arrival order: a key is said to be live, or gone, exactly when a log says so and every later one of that key is a close that left the plan indexed |
| `PlanIndex.KeysDoNotInterfere` | apps/web/src/hooks/useLogs.ts:293-297 | a key's value depends on that key's logs alone |
| `PlanIndex.PlanKeyIdentifies` | apps/web/src/hooks/useLogs.ts:265 | one key for one vault, up to hex case, and one plan |
| `PlanIndex.VisibleCount` | apps/web/src/lib/visiblePositions.ts:20-29 | exactly the hidden rows are filtered out |
| `PlanIndex.HiddenExactly` | apps/web/src/lib/visiblePositions.ts:15-21 | a row is hidden exactly when it shows nothing and the index says gone or it was removed this session |
| `PlanIndex.VisibleRowByRow` | apps/web/src/lib/visiblePositions.ts:24-29 | each row is kept or dropped on its own, and the rows kept stay in their order |
| `PlanIndex.ValueIsNeverHidden` | apps/web/src/lib/visiblePositions.ts:1-7 | a row with any USDG or stock is listed whatever the index and the session say |
| `VaultHistory.ActMoves` | contracts/src/libraries/PlanExitLib.sol:91-157 | what each action leaves of a plan: who is known, who is in the index, what is held |
| `VaultHistory.ActTells` | contracts/src/vault/PlanVault.sol:956-1021 | the logs of an action in order: a deposit's, then the index's exactly if the plan entered or left it, then a close's with what it did |
| `VaultHistory.SameVault` | contracts/src/libraries/PlanExitLib.sol:91-157 | a prune and a close here are those of the withdrawal rules |
| `VaultHistory.UnindexedIsEmpty` | contracts/src/libraries/PlanExitLib.sol:91-104 | over every history a plan out of the index holds nothing |
| `VaultHistory.SuffixTellsTheTruth` | apps/web/src/hooks/useLogs.ts:274-288 | every suffix of a history's logs says of a key its true flag or nothing |
| `VaultHistory.LogsAreInChainOrder` | apps/web/src/hooks/useLogs.ts:282-292 | the logs of transactions mined in order are in chain order, each at a place of its own |
| `VaultHistory.WindowIsASuffix` | apps/web/src/hooks/useLogs.ts:314-320 | the scanned block window is such a suffix |
| `VaultHistory.LivenessTellsTheTruth` | apps/web/src/hooks/useLogs.ts:274-326 | for every history, window and arrival order, liveness is the true flag or nothing |
| `VaultHistory.FullScanIsExact` | apps/web/src/hooks/useLogs.ts:274-326 | for every history and arrival order, a scan of all of it tells the true flag of every plan there is and of nothing else |
| `VaultHistory.HiddenMeansGone` | apps/web/src/lib/visiblePositions.ts:1-21 | a row hidden through the index is unindexed and holds nothing, shares included; an indexed one is never hidden |
| `VaultHistory.GoneIsHidden` | apps/web/src/lib/visiblePositions.ts:15-21 | a gone plan the window speaks of is hidden |
| `Epochs.EpochHolds` | apps/scheduler/src/scheduler.ts:489 | an epoch is the half-open interval between its boundaries, before the origin too |
| `Epochs.NextBoundaryIsLeast` | apps/scheduler/src/scheduler.ts:490 | the least boundary strictly after the time |
| `Epochs.EpochAdvancesAtBoundaries` | apps/scheduler/src/scheduler.ts:382-389 | epoch numbers differ exactly when a boundary lies in between |
| `Epochs.IdleChainKeepsTime` | apps/scheduler/src/scheduler.ts:52-57 | re-reading the same block does not hold the clock back |
| `Epochs.ClockIsNeverBehind` | apps/scheduler/src/scheduler.ts:371-380 | the clock is behind neither the observed block nor the wall |
| `Epochs.ClockRunsWithTheWall` | apps/scheduler/src/scheduler.ts:376-380 | the clock gains at most the elapsed time and one rounding second |
| `Epochs.FloorNeverBinds` | apps/scheduler/src/scheduler.ts:425-426 | the one-second minimum never lengthens a sleep |
| `Epochs.SleepSkipsNoEpoch` | apps/scheduler/src/scheduler.ts:408-431 | a sleep that respects a boundary crosses at most that one |
| `Paging.Summarize` | apps/scheduler/src/scheduler.ts:317-361 | both passes over the logs are the fold |
| `Paging.FilterByAddress` | apps/scheduler/src/scheduler.ts:318-321 | the vault's own events, up to hex case |
| `Paging.SumsAreConserved` | apps/scheduler/src/scheduler.ts:331-336 | the sums are the page events' totals |
| `Paging.SpanIsTight` | apps/scheduler/src/scheduler.ts:337-338 | the range is the least start and the greatest end |
| `Paging.SummaryOfContiguousPages` | apps/scheduler/src/scheduler.ts:331-360 | for contiguous pages the range is exact and the sums are conserved |
| `Paging.NothingIsLeftUnsaid` | apps/scheduler/src/scheduler.ts:336-352 | every plan that sat out and every failed boost withdrawal is reported, and the epoch is the last page's |
| `Paging.CompletedMeans` | apps/scheduler/src/scheduler.ts:339-358 | complete exactly when the vault executed the epoch or a `JobRun` says so |
| `JobRuns.ReceiptTellsTheTruth` | apps/scheduler/src/scheduler.ts:239-241 | a page's receipt says complete exactly at the end of the list, with the page's range and tip |
| `JobRuns.RunJob` | apps/scheduler/src/scheduler.ts:210-269 | the page loop, stopping where the source stops, on what the receipts say; a page given up for lost may land later |
| `JobRuns.PageAdvances` | contracts/src/vault/PlanVault.sol:474-478 | a page takes at least one plan and at most the limit |
| `JobRuns.OneCall` | apps/scheduler/src/scheduler.ts:213-266 | what each answer of the chain to one call comes to: left for now, thrown, ended, walked on, or complete exactly at the end of the list |
| `JobCoverage.RunKeepsCovered` | apps/scheduler/src/scheduler.ts:212-267 | each run extends the walked ranges without gap or overlap |
| `JobCoverage.RunShape` | apps/scheduler/src/scheduler.ts:222-268 | what each way out of the loop means; a completed job is no longer due |
| `JobCoverage.EachPlanOncePerEpoch` | apps/scheduler/src/scheduler.ts:206-269 | over every run of ticks, pages that land after their receipt was given up included, each index below an epoch's cursor was walked exactly once in that epoch |
| `JobCoverage.EpochTakesCeilRuns` | apps/scheduler/src/scheduler.ts:210-269 | whatever fails, lands late, is appended or moves in between, with full pages every epoch takes exactly ceil(cursor / page) runs, and ceil(n / page) when it completes |
| `JobCoverage.EpochTakesAtLeastCeilTicks` | apps/scheduler/src/scheduler.ts:210-269 | whatever fails or lands late, an epoch takes no fewer than ceil(runs / pages per job) ticks |
| `JobCoverage.SmoothEpochTakesCeilTicks` | apps/scheduler/src/scheduler.ts:210-269 | without failures or moves it is complete exactly from ceil(runs / pages per job) ticks on |
| `JobFleet.EveryPairWalksEachPlanOnce` | apps/scheduler/src/scheduler.ts:190-269 | over every run of whole ticks, with any jobs listed and due and pages landing late, each plan index below an epoch's cursor was walked exactly once for its pair |
| `JobFleet.EveryEpochTakesCeilRuns` | apps/scheduler/src/scheduler.ts:190-269 | and with full pages each epoch of each pair took ceil(cursor / page) runs |
| `JobFleet.OtherPairsStay` | apps/scheduler/src/scheduler.ts:190-197 | a tick leaves the books of every pair no due job is for as they were |
| `JobFleet.DuePairRunsItsPages` | apps/scheduler/src/scheduler.ts:190-197 | and a pair one due job is for gets exactly that job's pages, on the answers given to it |
| `Uncovered.PairKeyIdentifies` | apps/scheduler/src/scheduler.ts:488 | one key for one pair, up to hex case |
| `Uncovered.CountsAlign` | apps/scheduler/src/scheduler.ts:290-298 | each count is its own pair's, across batches |
| `Uncovered.PairsMean` | apps/scheduler/src/scheduler.ts:280-289 | the pairs read are the job vaults' approved stocks with no active job |
| `Uncovered.ReportedMeansUncovered` | apps/scheduler/src/scheduler.ts:271-289 | with plans held, those are exactly the uncovered pairs of the simple definition |
| `Uncovered.ReportIsRight` | apps/scheduler/src/scheduler.ts:299-312 | every such pair is listed with its count, nothing else is, and exactly the changed ones are warned about |
| `Uncovered.PassAgrees` | apps/scheduler/src/scheduler.ts:277-315 | a completed pass agrees with the from-scratch definition |
| `Uncovered.RemembersTheLastCompletedPass` | apps/scheduler/src/scheduler.ts:60-61 | over any run of passes, failed ones included, what is remembered is the last completed pass's answer |
| `Uncovered.NothingRememberedBeforeAPass` | apps/scheduler/src/scheduler.ts:61 | nothing is remembered until a pass completes |
| `Uncovered.NewsIsWhatChanged` | apps/scheduler/src/scheduler.ts:299-314 | the warnings are exactly the pairs whose count changed since the last completed pass, each with that count, the "no longer" lines exactly the pairs that left |
| `Uncovered.LinesOfReport` | apps/scheduler/src/scheduler.ts:299-312 | a pass that completes logs exactly its report's lines |
| `UncoveredReads.PassCompletesExactly` | apps/scheduler/src/scheduler.ts:277-306 | a pass completes exactly when every read it needs is answered: registries, stocks, counts, and the names of what was not reported before |
| `UncoveredReads.PassNames` | apps/scheduler/src/scheduler.ts:305-306 | an uncovered pair is remembered under the name it had, or the one just read |
| `UncoveredReads.NoLineTwice` | apps/scheduler/src/scheduler.ts:299-312 | no pass, completed or failed, logs a line twice |
| `UncoveredReads.LinesOneMore` | apps/scheduler/src/scheduler.ts:302-311 | pair by pair, a line is added exactly for a count above zero that is news, with that count |
| `UncoveredReads.LinesStopAtTheUnnamed` | apps/scheduler/src/scheduler.ts:299-307 | a pass that cannot read a name has logged exactly the lines of the pairs before that one |
| `UncoveredReads.PairsInOrder` | apps/scheduler/src/scheduler.ts:280-289 | the pairs are read vault by vault and stock by stock, those found first in front |
| `Uncovered.LoggedAgainExactlyAfterAFailure` | apps/scheduler/src/scheduler.ts:299-314 | a line one pass logs is logged again by the next, its count unchanged, if and only if the first pass failed after logging it |
| `Scheduler.Scheduler.constructor` | apps/scheduler/src/scheduler.ts:49-64 | empty caches, nothing seen, nothing reported |
| `Scheduler.Scheduler.ObserveBlock` | apps/scheduler/src/scheduler.ts:367-369 | a new timestamp restarts the clock, the same one does not |
| `Scheduler.Scheduler.CacheVault` | apps/scheduler/src/scheduler.ts:447-459 | read once; a failed read caches nothing |
| `Scheduler.Scheduler.CacheVaults` | apps/scheduler/src/scheduler.ts:179 | afterwards every active job's vault is known and no known one changed |
| `Scheduler.Scheduler.BoundaryPassedSinceBlock` | apps/scheduler/src/scheduler.ts:382-390 | true exactly when an active vault has a boundary after the block and no later than now |
| `Scheduler.Scheduler.NextDelay` | apps/scheduler/src/scheduler.ts:408-432 | the wait for the soonest boundary; never past any active vault's boundary plus grace |
| `Scheduler.Scheduler.CheckUncovered` | apps/scheduler/src/scheduler.ts:277-315 | the pass, the lines it logs even when it fails, and its "no longer" lines; a failed pass leaves the report as it was |
| `Scheduler.Scheduler.ReadPairs` | apps/scheduler/src/scheduler.ts:280-289 | each registry asked once is as good as asked for every vault |
| `Scheduler.Scheduler.ReadCounts` | apps/scheduler/src/scheduler.ts:290-298 | the batched counts are the counts |
| `Scheduler.Scheduler.ReadReport` | apps/scheduler/src/scheduler.ts:299-312 | the loop that builds the report and the warnings |
| `Scheduler.Scheduler.NoLonger` | apps/scheduler/src/scheduler.ts:313 | the pairs that left |
| `Scheduler.Scheduler.RunDue` | apps/scheduler/src/scheduler.ts:190-198 | the due jobs that exist, in order, each run through `runJob`'s pages, until one throws |
| `Scheduler.DueJobsAllRun` | apps/scheduler/src/scheduler.ts:192-197 | unless one throws, every due job that exists is run, in the keeper's order |
| `Scheduler.RunnableOfEach` | apps/scheduler/src/scheduler.ts:192-196 | which due entries are run: those that name a job, each on its own, in the list's order |
| `Scheduler.RunsThrowExactly` | apps/scheduler/src/scheduler.ts:192-197 | the runs of a tick throw exactly when some due job's does, and that job is the last one run |
| `Scheduler.InactiveJobsDoNotCount` | apps/scheduler/src/scheduler.ts:385-414 | a job switched off wakes nothing and is slept for by nothing |
| `Scheduler.ThrownRunsStop` | apps/scheduler/src/scheduler.ts:192-197 | after one throws no further job is run |
| `Scheduler.Scheduler.Refresh` | apps/scheduler/src/scheduler.ts:178-189 | observes the block, caches the vaults, asks for a block exactly when nothing is due and a boundary was missed, and then reads the due jobs and the block again |
| `Scheduler.Scheduler.CheckIfTime` | apps/scheduler/src/scheduler.ts:200-203 | the report is checked exactly when its interval has passed, and a failed check changes only the clock |
| `Scheduler.Scheduler.Tick` | apps/scheduler/src/scheduler.ts:176-204 | one pass: asks for a block exactly when nothing is due and a boundary was missed, goes by the block and the due jobs read last, runs exactly those that exist, in order, checks when it is time, and sleeps until the soonest boundary; it throws exactly when a vault cannot be read or a run throws |
| `Scheduler.Scheduler.RunAndSleep` | apps/scheduler/src/scheduler.ts:190-204 | from the due jobs on: those are run, the report is checked when it is time, and the sleep is for the soonest boundary |
| `Scheduler.Scheduler.Stop` | apps/scheduler/src/scheduler.ts:147-150 | sets the flag |

## Left out

- BuySafety.BuysInheritTheFlowSafety: over runs in which no tail replaces a step marked as maybe sent, because in the others the code may send a mined step again (`LateTail.LateTailResendsAMinedStep`); with the network there throughout, that is every run (`BuyOnline.OnlineRunsFit`).
- BuyRows.LiveQuoteResendsOrStops: over runs in which every tail taken up so far was at its step; after another one the list is no longer the order's.
- `useTx.write`'s busy guard, toasts and its own receipt wait: a single write with no sequence to keep safe.
- `readOrNo`'s sorting of errors: a read is given as answered, a contract's "no", or a transport failure.
- How `fmtUsd`, `fmtUnits`, `fmtTokenAmount` and `countdown` print: only the cents, and only for amounts from zero up, since the division rounds toward zero below. Amounts are exact integers, not JavaScript numbers.
- Copy, details and trailing texts of the rows, and the dialog's rendering.
- BestRoute.ReadBestRoute: the source asks its reads concurrently; the model asks them in order, which no answer depends on.
- WalletSync.WaitForWalletNonce: the timer and the abort signal are folded into each round's outcome, and the receipt request before each count is not modelled.
- RouteOptimality.BestRouteIsOptimal: asks that the router's impact cap binds nowhere, since the cap decides which paths exist; where it binds, `RouteOptimality.AnswerCoversWhatTheCapLeaves` says what is still covered.
- RemoveFlow.LateRetryFitsExactlyWhenNothingMined: a late wallet check is not modelled.
- PlanVault.RemovalNeverReverts: fees are not split off the payouts, and liquidity failures of the strategy, which the form answers with the partial withdrawal, are not modelled.
- PlanOrders.SingleOrdersAreAligned: what a boost order does on chain is not modelled, since the shares it buys depend on the pool.
- `useCreatePlan`, the boost hero and the plan rows: their orders are one or two calls like the ones modelled.
- `cumulativeSeries`, `sumLastDays` and the activity lists: sums over logs with no decision behind them.
- JobRuns.RunJob: which plans on a page are bought, at what price, and the notional cap's own arithmetic belong to the vault; a page's length is the environment's choice within its limit. `tries` holds one answer for each page the cap on pages allows.
- Scheduler.Scheduler.Tick: the first three reads' failure (the tick ends and the next one comes after the polling interval), a stop request in the middle of a tick, and log lines other than the report's are not modelled. Delays are whole milliseconds.
- `label`, `stockMeta` and `init`: names for log lines, and the start-up report.
- The contracts themselves: only the rules their callers rely on.
