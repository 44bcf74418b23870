# Oathwall worker: accounting and settlement, verified

Oathwall's worker trades for an owner and keeps the money books of it. This project models the
part of the worker that decides about money, in Dafny, and proves what the modules promise
together over whole runs: that a ledger repair neither loses nor invents a row and leaves the books
at what the owner moved on the chain, that a redeployed child does not book an opening balance
twice, that the audit's verdicts are exact, that deposits are booked once and for what they were,
that an operation is persisted before it is sent and sent at most once.

Amounts are integers in base units, where the source has bigints and where it has REAL columns
(18 decimals for cash; the tolerances are constants). Every reply of a node, bundler, file system
or database that can fail is a parameter or a field of an environment value, so each theorem holds
against all of them. Code the source writes as loops or as objects that change is a method or a
class, proved against a specification; what the source promises is then proved about that
specification.

| module | models |
|---|---|
| `Ledger`, `Reconstruction`, `Repair`, `RepairLaws`, `RepairCommit`, `ChainRepair` | the tables behind one connection, the repair plan, the transactional repair, its batch driver, when a repair can commit, and the whole way from the chain's transfers to the repaired books |
| `Bootstrap`, `RedeployProtocol` | the parent's durable verdict, the anchor file, the child's licence; spawn, observe, mirror, crash and redeploy as steps |
| `Basis`, `BookAudit`, `BookEnvelope`, `HashChain`, `Receipts` | cost basis, the rebuilt book and its envelope check, the journal chain, the two receipt parsers |
| `CapitalClassify`, `ChainSweep`, `GasBackfill`, `DepositScan`, `DepositRuns`, `DepositBooks` | reading capital, prices and deposits off a chain through a node that may refuse, and what the rows booked come to |
| `GasLimits`, `KernelNonce`, `SendEdge`, `SendLaws` | what is signed, and the path from estimate to receipt |
| `CommandFiles`, `ClaimProtocol` | commands claimed by deleting a file, alone and under interleaving |
| `BrainTrigger`, `Backtest`, `BacktestLaws`, `FinalFence`, `AccountClaim`, `PgPlaceholders` | the wake-up state machine, the replay ledger, the fence before a signature, the claim merge, the placeholder translator |
| `Text`, `Sorting` | the string operations and the stable sort the sources use |

SHA-256 (FIPS 180-4, section 6.2) is a parameter and nothing is assumed of it but its length: the
results that need it collision free say which collision or preimage would have to exist instead.
The nonce layout is that of ERC-4337, section "Semi-abstracted Nonce Support", and the prefund that
of its section "Account Contract Interface"; transfers and approvals are those of EIP-20, sections
"Methods" and "Events".

## Findings

Promises the code keeps only under a condition. Each has its exact condition proved, and a lemma
with an input that fails.

- A repair the planner allows can be one that always rolls back. It commits exactly when what the
  ledger holds of the planned logs, in whatever epoch, agrees with the plan, and the rows left in
  the account's epoch with the planned logs not yet held net to the prediction
  (`RepairCommit.CommitSucceedsIff`). An `epoch-carry` opening balance is counted and not predicted
  (`RepairCommit.CarryRollsBack`); a deposit booked in epoch 1 and planned again in epoch 2 is
  predicted and not counted (`RepairCommit.LoggedEarlierRollsBack`). The two can cancel
  (`RepairCommit.CarryOfLoggedDepositCommitsIff`).
- A child books its opening balance again in three ways: restarted inside the same container before
  a mirror pass (`RedeployProtocol.RestartBeforeMirrorDoubleBooks`); redeployed once the shared
  agent row is past epoch 1 with nothing else on record, a state a deployment that never booked
  anything can reach (`RedeployProtocol.LaterEpochDoubleBooks`); and in one process, when the row
  lands, a read after it fails, and the next tick's chain scan does not cover the window
  (`RedeployProtocol.FailedReadDoubleBooks`). `RedeployProtocol.EveryRunIsSteadyIff` and
  `LicenceOverAnOpeningBooksAgain` give the condition.
- Vault interest above the cost still on the books is reported as money from nowhere
  (`BookEnvelope.TruthfulBookVerdict`, `BookEnvelope.VaultInterestIsAccused`).
- The v3 fence does not read `sqrtPriceLimitX96`, so an accepted single-hop swap with a price limit
  may sell less than the amount and leave an allowance (`FinalFence.SellsExactlyIff`,
  `FinalFence.PartialFillIsAccepted`); the v2 fence does not compare the unwind's token with the end
  of the path (`FinalFence.UnwindIsFundedIff`, `FinalFence.AnyUnwindIsAccepted`).
- The ledger's list of trade hashes can hide a capital transfer from the deposit scan
  (`DepositRuns.OnlyTheTradeListHides`, `DepositRuns.TradeListHidesADeposit`).
- An existing claim row with a blank tenant keeps its account from ever being recorded
  (`AccountClaim.RecordedIff`, `AccountClaim.BlankTenantHidesAClaim`).
- Under a sponsor the two paymaster limits are not compared after preparation, so a signed operation
  can pass its ceiling by up to 1,000,000 gas (`SendLaws.SponsoredTotalIsCapped`,
  `SendLaws.SponsoredOverTheCeiling`); no sponsor can bring it there exactly when the bounded limits
  leave that much room (`SendLaws.StaysUnderForEverySponsorIff`).

## Model

| member | source | states |
|---|---|---|
| `Ledger.SqliteDb.Rollback` | worker/src/db.ts:63-81 | a rollback puts the tables back to what they were at BEGIN |
| `Ledger.SqliteDb.InsertFlow` | worker/src/accounting-repair.ts:235-242 | the partial unique index alone decides whether a row goes in, and the change count says which |
| `Ledger.SqliteDb.MoveToQuarantine` | worker/src/accounting-repair.ts:257-269 | a row moves whole from flows to quarantine, or nothing happens when it is not there |
| `Ledger.SqliteDb.Recompute` | worker/src/accounting-repair.ts:273-294 | the net of an account and epoch, and whether every flow of it is evidence |
| `CapitalClassify.TotalsAddUp` | packages/core/src/capital-classify.ts:257-299 | each total is what the movements of its kind come to, gross in less gross out is the net, and no ambiguity is counted exactly when none is there |
| `CapitalClassify.CapitalIff` | packages/core/src/capital-classify.ts:140-231 | a movement is capital if and only if exactly one end is the account, no other token moved the other way in its receipt and the other end is on none of the three lists; in or out by the end the account is |
| `CapitalClassify.NotCapitalBecause` | packages/core/src/capital-classify.ts:140-231 | what is a swap, internal, infrastructure or undecidable, for every input |
| `Reconstruction.PlanReconstruction` | worker/src/accounting-reconstruction.ts:112-244 | one plan for every agent, largest inferred capital first |
| `Reconstruction.PlansAreJustified` | worker/src/accounting-reconstruction.ts:132-176 | a plan quarantines exactly the account's inferred rows of the epoch, never one with a transaction, and its inserts sum to its prediction |
| `Reconstruction.UnblockedPlanPredictsTheChain` | worker/src/accounting-reconstruction.ts:176-236 | a plan is unblocked exactly when the scan is complete and unambiguous, and then predicts the chain's own net |
| `Reconstruction.PlanOfOneMoreRow` | worker/src/accounting-reconstruction.ts:128-219 | one more ledger row changes the figures and the quarantine list of a plan by that row when it is the account's in the epoch, and the inferred ones only when it names no transaction and is no evidence |
| `Reconstruction.BlockedBecause` | worker/src/accounting-reconstruction.ts:144-200 | which reason blocks a plan and over how many movements, when contributions will be known, and when an account is taken for paper |
| `ChainRepair.PlannedRowsAreTheTransfers` | worker/src/accounting-reconstruction.ts:150-166 | what a plan inserts is exactly the owner's transfers among the swept logs, each with its amount, direction and place on the chain |
| `ChainRepair.PredictionIsTheChains` | worker/src/accounting-reconstruction.ts:194-200 | an unblocked plan predicts deposits less withdrawals over the chain's own transfers |
| `ChainRepair.RepairedBooksAreTheChains` | worker/src/accounting-repair.ts:417-481 | after a run that stops nowhere, the books of every account it could act on net to what the owner put in less what the owner took out on the chain, and every such transfer is a receipt row |
| `Repair.VerifyInserted` | worker/src/accounting-repair.ts:115-157 | passes exactly when every planned row is in the ledger and matches the chain |
| `Repair.RepairBody` | worker/src/accounting-repair.ts:227-336 | insert, verify, quarantine, recompute and record, or the throw that rolls back; what it reports is known exactly when the plan says so and only evidence is left |
| `Repair.InTransaction` | worker/src/accounting-repair.ts:227-339 | the sequence commits whole, with what it reports, or the tables are as they were; without an engine fault it fails exactly when it cannot commit |
| `Repair.RepairAccount` | worker/src/accounting-repair.ts:166-340 | all or nothing; dry runs, verify-only runs, blocked and unselected accounts never write; without an engine fault it fails exactly when the sequence cannot commit; the result's counts, figures and verdict |
| `Repair.RunRepair` | worker/src/accounting-repair.ts:417-481 | the batch stops at the first failure, with the tables exactly as the accounts before it left them |
| `RepairLaws.ActsIff` | worker/src/accounting-repair.ts:184-224 | which accounts a run acts on and which it leaves as they were, resumed or not |
| `RepairLaws.LandedIff` | worker/src/accounting-repair.ts:115-157 | a planned row has landed exactly when some row has its account, chain, transaction, log index, direction and amount and is a receipt |
| `RepairLaws.RepairConserves` | worker/src/accounting-repair.ts:227-339 | a committed repair leaves every earlier row in exactly one of flows and quarantine, adds only planned evidence, has every planned row present and matching, and nets to the predicted figure |
| `RepairLaws.CommittedVerdictIff` | worker/src/accounting-repair.ts:272-318 | after a commit an account with an agents row is known, as of that moment, if and only if the plan says so and every flow left of the account and epoch is a receipt or a carry |
| `RepairLaws.PlannedRepairIsKnownIff` | worker/src/accounting-reconstruction.ts:132-200 | a planned repair of the ledger it was planned over makes the account known exactly when no flow of it names a transaction under a source that is not evidence |
| `RepairLaws.AddedRowsAreReceipts` | worker/src/accounting-repair.ts:228-243 | whatever a repair adds is the receipt of a planned transfer, column by column |
| `RepairLaws.MovedRowsSayWhy` | worker/src/accounting-repair.ts:253-270 | every row a repair takes away was named by the plan and carries the run, its time and the logs that replaced it |
| `RepairLaws.EvidenceSurvives` | worker/src/accounting-repair.ts:253-270 | quarantining for one plan never takes away the evidence of any plan |
| `RepairLaws.CommittedSettles` | worker/src/accounting-repair.ts:227-339 | after a commit the plan has nothing left to do |
| `RepairLaws.SettledIsIdempotent` | worker/src/accounting-repair.ts:227-339 | committing a settled plan again inserts nothing, moves nothing and succeeds |
| `RepairLaws.OthersStaySettled` | worker/src/accounting-repair.ts:227-339 | repairing one account leaves every settled one settled |
| `RepairLaws.CleanRunSettles` | worker/src/accounting-repair.ts:468-481 | after a clean run every account it could act on is settled |
| `RepairLaws.CommittedAlike` | worker/src/accounting-repair.ts:225-270 | run ids, clocks and earlier stamps never decide what a repair does |
| `RepairLaws.RerunReachesTheCleanRun` | worker/src/accounting-repair.ts:417-481 | from whatever a stopped batch left, re-running the list reaches the flows and quarantine of the clean run |
| `RepairLaws.FinishedAccountsInsertNothing` | worker/src/accounting-repair.ts:218-243 | a finished account's re-run has nothing to insert |
| `RepairLaws.OnlyActionableAccountsStopABatch` | worker/src/accounting-repair.ts:184-193 | blocked, unselected and already correct accounts never stop a batch |
| `RepairLaws.PlannedListsAreJustified` | worker/src/accounting-reconstruction.ts:112-244 | what the planner returns is justified by the rows it read, with one plan per account, so the batch results hold of it |
| `RepairCommit.CommitSucceedsIff` | worker/src/accounting-repair.ts:227-306 | over any ledger a repair commits exactly when the held copies of the planned logs agree with the plan, and surviving rows plus planned logs not yet held net to the prediction |
| `RepairCommit.FirstRepairCommitsIff` | worker/src/accounting-repair.ts:301-306 | with none of its evidence in the ledger, exactly when the rows it leaves in the epoch net to zero |
| `RepairCommit.CarryRollsBack` | worker/src/accounting-repair.ts:273-306 | an account with a carry and an unbooked deposit is planned for, unblocked, and rolls back |
| `RepairCommit.LoggedEarlierRollsBack` | worker/src/accounting-repair.ts:115-306 | so is an account whose deposit was booked in epoch 1 and is planned again in epoch 2 |
| `RepairCommit.CarryOfLoggedDepositCommitsIff` | worker/src/accounting-repair.ts:227-306 | with both rows on the books the repair commits exactly when the carry is the deposit |
| `Bootstrap.NewIffNothingDurable` | worker/src/bootstrap-source.ts:182-200 | "new account" is found exactly when the read succeeded and no peak, flow of the epoch, mark or accrual is on record |
| `Bootstrap.DecimalRoundTrip` | worker/src/bootstrap-state.ts:249-259 | a figure written in decimal is accepted exactly when it has at most 30 digits, and reads back as itself |
| `Bootstrap.AcceptedIff` | worker/src/bootstrap-state.ts:247 | a figure in the file is accepted exactly when it is at most a minus sign and then 1 to 30 digits |
| `Bootstrap.AnchorRefusedBecause` | worker/src/bootstrap-state.ts:312-379 | which refusal an anchor meets, and exactly when it is valid |
| `Bootstrap.AnchorRoundTrip` | worker/src/bootstrap-state.ts:311-379 | a child reads back what the parent wrote, figures through their decimal strings, exactly when the file is for its account, within six hours of its clock and every figure fits |
| `Bootstrap.FirstObservationIs` | worker/src/bootstrap-state.ts:446-637 | what a child does at its first observation under every verdict, hosted or not, and what it may claim |
| `Bootstrap.HostedBookingNeedsAnEmptyDurableState` | worker/src/bootstrap-state.ts:446-526 | a hosted child books an opening balance if and only if the parent read the durable state, found none and the file is trustworthy |
| `Bootstrap.KnownIffEveryFlowIsEvidence` | worker/src/bootstrap-source.ts:200-240 | on resume contributions are known exactly when every flow of the epoch is a receipt or a carry and, where an inbound carry opened it, a newest mark of the epoch before exists and differs from the sum carried by no more than the tolerance |
| `Bootstrap.ResumedFigures` | worker/src/bootstrap-source.ts:138-240 | the child resumes with the agents row's peak and epoch, inflows less outflows of the epoch, and the cash of the newest mark |
| `Bootstrap.ObservedAtIsTheFreshest` | worker/src/bootstrap-source.ts:195-199 | the anchor is as fresh as the newest of the epoch's flows and the newest mark, or as the reading when nothing is dated |
| `Bootstrap.DriftIsSeenIff` | worker/src/bootstrap-state.ts:617-637 | a resumed child reports a drift exactly when its cash is further from that mark than is material, in either direction |
| `Bootstrap.DoubtIsNeverLifted` | worker/src/bootstrap-state.ts:535-577 | over a process's life contributions are believed exactly when nothing cast doubt and the latest anchor vouches |
| `RedeployProtocol.MirrorKeepsInv` | worker/src/ledger-mirror.ts:267-367 | a mirror pass of any batch size from any cursor copies no opening the shared ledger already has |
| `RedeployProtocol.StepIsSafeIff` | worker/src/index.ts:1176-1260 | a step leaves no licence standing over an opening already made exactly when it is neither a fresh anchor from a state that wrongly reads as new nor a booking whose observation is lost |
| `RedeployProtocol.EveryRunIsSteadyIff` | worker/src/index.ts:1176-1260 | over every interleaving the promise holds in every state, with no such licence, exactly when no step is one of those two |
| `RedeployProtocol.AtMostOneOpeningInEveryRun` | worker/src/bootstrap-state.ts:617-637 | every run of such steps from the beginning has at most one opening balance, counted over shared and local rows |
| `RedeployProtocol.LicenceOverAnOpeningBooksAgain` | worker/src/index.ts:1239-1242 | the condition is exact: a licence standing over an opening breaks the promise at the next funded observation |
| `RedeployProtocol.ExposedSpawnBooksAgain` | worker/src/bootstrap-source.ts:182-200 | so a spawn over a state that wrongly reads as new, then a funded observation, leaves two different openings |
| `RedeployProtocol.LostObservationBooksAgain` | worker/src/index.ts:1074-1094 | so do a booking whose observation is lost and the next funded observation |
| `RedeployProtocol.RedeploysNeverDoubleBook` | worker/src/index.ts:1176-1253 | when a crash takes the child's database with it, bookings get their observation recorded and the account is in epoch 1, every interleaving keeps at most one opening |
| `RedeployProtocol.RestartBeforeMirrorDoubleBooks` | worker/src/orchestrator.ts:545-570 | a restart that keeps the home, before a mirror pass, books the balance twice |
| `RedeployProtocol.LaterEpochDoubleBooks` | worker/src/index.ts:3071-3095 | from a deployment that never booked anything an old trade takes the account past epoch 1, and redeploys alone then book twice |
| `RedeployProtocol.FailedReadDoubleBooks` | worker/src/index.ts:1262-1291 | one process, one epoch, no crash: a read that fails after the booking books it twice |
| `RedeployProtocol.FlowsCatchUp` | worker/src/ledger-mirror.ts:267-367 | however small its batches, a mirror left alone copies every flow it had not copied, in order and once, and then stands at the end |
| `RedeployProtocol.MarksCatchUp` | worker/src/ledger-mirror.ts:267-367 | the same of the marks |
| `RedeployProtocol.BookingRaisesThePeak` | worker/src/index.ts:1074-1094 | a booking appends one inbound row of the observed equity in the child's epoch and raises its peak by as much when that write goes through |
| `RedeployProtocol.DurablePeakNeverFalls` | worker/src/ledger-mirror.ts:537-556 | over every interleaving the parent's record of an account's peak and epoch never goes down |
| `RedeployProtocol.ArmingRestoresThePeak` | worker/src/store.ts:893-936 | a child armed in time over an established account starts from the higher of its own and the durable peak and epoch, and from nothing else |
| `RedeployProtocol.CrossingIsBridged` | worker/src/store.ts:1205-1256 | epoch 2 is opened exactly over a ledger with rows of epoch 1 from before the fix, by one inbound carry of the equity its newest mark closed with |
| `RedeployProtocol.TheCarryIsBacked` | worker/src/bootstrap-source.ts:157-216 | once mirrored, that carry agrees with the mark it closes, so the parent accepts it as evidence |
| `Basis.CostIsConserved` | worker/src/basis.ts:74-110 | everything ever spent was removed by a sell or is still on the books, and an empty position carries no cost |
| `Basis.ProfitIdentity` | worker/src/basis.ts:74-128 | realized plus unrealized profit misses the cash identity by exactly what sells of more than was tracked brought in over their cost |
| `Basis.FillMovesTheQuantity` | worker/src/basis.ts:74-110 | what one fill does to the quantity, when it is flagged as unbacked, and what then stays on the books |
| `Basis.BackedProfitIdentity` | worker/src/basis.ts:74-128 | realized plus unrealized equals proceeds plus market less spent, for every fully backed run |
| `Basis.OneSellRoundsUp` | worker/src/basis.ts:92-110 | a partial sell leaves the pro-rata cost, rounded up |
| `Basis.DriftIsBounded` | worker/src/basis.ts:92-110 | after n partial sells the remaining cost is at least the pro-rata cost and exceeds it by less than n |
| `HashChain.VerifyChain` | worker/src/audit.ts:62-99 | the findings of a walk are those each row is answerable for against its neighbour |
| `HashChain.NoFindingsIffClean` | worker/src/audit.ts:62-99 | no finding exactly when numbers are consecutive, links chain from GENESIS and every row is sealed |
| `HashChain.EveryBreakIsReported` | worker/src/audit.ts:67-97 | a finding is reported if and only if some row shows it: a gap with its extent, a broken link between consecutive rows or before the first, a payload that does not hash to its row |
| `HashChain.LastHashCommitsToHistory` | worker/src/audit.ts:54-99 | two clean exports with the same last hash tell the same history, or a SHA-256 collision or preimage of GENESIS is at hand |
| `HashChain.RemovalIsVisible` | worker/src/audit.ts:62-99 | cutting rows out of a clean export leaves a finding unless they were its tail, or a front whose survivor links to GENESIS |
| `HashChain.EditIsVisible` | worker/src/audit.ts:87-94 | rewriting one payload is reported once, at its own row, unless the new payload collides with the old |
| `HashChain.UnhashedColumnsAreNotCovered` | worker/src/audit.ts:35-56 | the limit of the claim: kind, time, agent and epoch can be rewritten unseen |
| `Receipts.NetTokenDeltas` | worker/src/fills.ts:48-73 | the map holds a token exactly when the account touched it, and its net effect |
| `Receipts.ReceiptDeltas` | worker/src/audit.ts:290-314 | the verifier's own parser computes that same relation |
| `Receipts.CrossCheck` | worker/src/audit.ts:279-314 | writer and verifier return the same map for every log list and account |
| `Receipts.DeltaIsTheNetGain` | worker/src/fills.ts:48-73 | the delta of a token is what its transfers brought the account less what they took, whatever case topics and addresses are written in |
| `Receipts.OtherLogsMoveNothing` | worker/src/fills.ts:54-66 | a log that is another event, has too few topics or no readable amount moves nothing |
| `Receipts.DeltasSumToZero` | worker/src/fills.ts:48-73 | summed over all accounts of a receipt, each token's deltas are zero |
| `Receipts.FillIffOppositeLegs` | worker/src/fills.ts:90-122 | a receipt is a fill exactly when cash and stock moved in opposite directions, with the very amounts, and a buy when the cash went out |
| `Receipts.CompareRecord` | worker/src/audit.ts:329-437 | no finding exactly when the chain supports the record, and otherwise each failing leg is named |
| `Receipts.FillPassesItsOwnAudit` | worker/src/fills.ts:90-122 | a fill read off a successful receipt is positive on both legs and its record passes the verifier |
| `Receipts.OnlyTheTrueFillPasses` | worker/src/audit.ts:369-437 | a record of that token passes exactly when side and quantity are the receipt's and the cash is within tolerance |
| `BookAudit.Reconstruct` | worker/src/audit.ts:173-268 | the rebuilt book is the sums over the rows, the last mark and the references, for every journal |
| `BookAudit.PublishedIsTheLastMark` | worker/src/audit.ts:251-266 | what is published is the last readable mark with its own parts |
| `BookAudit.RefusedOrdersChangeNoVerdict` | worker/src/audit.ts:215-225 | a rejected order of any side and amount, or a row that says nothing, changes no verdict wherever it stands in any journal |
| `BookAudit.GasIsPricedIff` | worker/src/audit.ts:226-237 | no unpriced fill is counted exactly when every landed fill that burned gas has it priced |
| `BookAudit.EachFindingIff` | worker/src/audit.ts:507-630 | the exact accusation behind each finding and behind "checked", over every book |
| `BookEnvelope.RunsAreConsistent` | worker/src/basis.ts:74-110 | over every run of flows, fills and refused or reverted orders cash is net plus realized less cost on the books |
| `BookEnvelope.JournalIsFaithful` | worker/src/audit.ts:173-268 | the book rebuilt from a run's journal is the run's own: net, profit, purchases, gas paid, priced and unpriced, counts and chain references, with orders that were refused or reverted among the rows |
| `BookEnvelope.ResidualIsUnrealized` | worker/src/audit.ts:513-514 | the residual is positions plus quarantined cost plus vault gain less the cost still on the books |
| `BookEnvelope.MisstatedEquityIsFlaggedIff` | worker/src/audit.ts:570-583 | a published equity that differs from its own components is flagged exactly when it is off by more than the tolerance |
| `BookEnvelope.TruthfulBookVerdict` | worker/src/audit.ts:593-621 | a truthful book is accused only of money from nowhere, exactly when the vault earned more than the remaining cost plus tolerance |
| `BookEnvelope.TruthfulBookIsClean` | worker/src/audit.ts:513-621 | a truthful book whose vault earned nothing has no finding |
| `BookEnvelope.VaultInterestIsAccused` | worker/src/audit.ts:593-606 | a deposit lent whole and never traded is accused as soon as its interest passes the tolerance |
| `BookEnvelope.PhantomIsFlaggedIff` | worker/src/audit.ts:593-621 | the exact findings over a phantom contribution: flagged when it exceeds positions, quarantined cost, vault earnings, cost removed by sells and tolerance together, and hiding vault earnings up to its own size |
| `ChainSweep.FleetScan.Sweep` | worker/src/chain-capital.ts:179-239 | a range not declared short added exactly its logs, each once; n blocks cost at most 6(2n-1) calls; it terminates against any node, and is never short when the splits left reach a width the node always answers and no call fails six times running |
| `ChainSweep.FleetScan.SweepFleet` | worker/src/chain-capital.ts:241-256 | both directions over the whole window, with a bound on the calls, and never short when 24 halvings of a span reach such a width |
| `ChainSweep.AccountMovements` | worker/src/chain-capital.ts:258-344 | an account's movements in order, one for every transfer of it that was hit, complete exactly when every window and every receipt behind them was read |
| `ChainSweep.CapitalIsCountedOnce` | worker/src/chain-capital.ts:281-344 | a transfer between two wanted accounts is hit twice and still no capital is counted twice |
| `ChainSweep.ScanFleetCapital` | worker/src/chain-capital.ts:138-344 | every entry is complete exactly when the sweep and the receipts were, holds one movement per transfer of the account in the window and nothing else, and nets to deposits less withdrawals; the sweep is not short over an obliging node |
| `ChainSweep.WorthIsDepositsLessWithdrawals` | worker/src/chain-capital.ts:281-344 | what movements contribute is what reached the account from outside less what left it to outside, for nothing in return |
| `ChainSweep.SwapsAddNothing` | packages/core/src/capital-classify.ts:160-178 | a transfer whose receipt moves another token the other way adds nothing to an account's net, wherever it stands among the logs |
| `GasBackfill.Reader.NearestBelow` | worker/src/gas-backfill.ts:154-171 | the nearest published round within 64 ids and not under the floor |
| `GasBackfill.Bisect` | worker/src/gas-backfill.ts:144-188 | whatever the node does a result was published in time; a searchable node gives the greatest such id or none; dense ids below 2^k cost at most k reads |
| `GasBackfill.FindRoundAt` | worker/src/gas-backfill.ts:115-188 | the same over the phase window, or the latest round when it is early enough |
| `GasBackfill.FoundRoundsPrice` | worker/src/gas-backfill.ts:69-188 | pricing a found round never meets a round from the trade's future, and prices exactly when the round is at most six hours old with a positive price |
| `GasBackfill.PricedIff` | worker/src/gas-backfill.ts:69-103 | gas is priced exactly from a published round no later than the trade, at most six hours older and at a positive price, as wei over 18 decimals times that price |
| `GasBackfill.SearchStaysInThePhase` | worker/src/gas-backfill.ts:134-140 | the search never leaves the latest round's phase: `window` ids back, or from its first round when that is nearer |
| `GasLimits.BoundGas` | worker/src/gas-limits.ts:238-377 | the verdict in the precedence of the refusals |
| `GasLimits.BoundedIff` | worker/src/gas-limits.ts:238-377 | limits come out exactly when every answer is positive, neither is four times the other, no unasked sponsor pays and the total fits the ceiling |
| `GasLimits.RefusedBecause` | worker/src/gas-limits.ts:238-377 | which refusal it is, for every input, the earlier question deciding |
| `GasLimits.SignedGasIsBounded` | worker/src/gas-limits.ts:238-377 | the call limit is twice the dearer estimate's, the other two five quarters of it rounded down, a sponsor's carried as they are, the total under the ceiling, no paymaster gas when unsponsored, and no estimate four times another |
| `GasLimits.SignedTotalIsWithinTwice` | worker/src/gas-limits.ts:352-377 | the prefund total lies between one and two times the dearer estimate's total, sponsored or not |
| `GasLimits.EstimateOrderDoesNotMatter` | worker/src/gas-limits.ts:311-334 | which estimate came first decides nothing unless their totals tie |
| `GasLimits.CoveredIffPrefunded` | worker/src/gas-limits.ts:421-479 | the check passes exactly the operations the EntryPoint would prefund out of deposit and balance, and what is over stays the account's |
| `GasLimits.ShortfallIsExact` | worker/src/gas-limits.ts:463-478 | the reported shortfall is the least sum that makes the operation covered, sent to the account or its deposit |
| `KernelNonce.UnpackInvertsPack` | worker/src/executor.ts:181-206 | the four fields the source reads come back as packed |
| `KernelNonce.PackIsInjective` | worker/src/executor.ts:160-206 | two operations share a nonce only when every field agrees |
| `KernelNonce.EveryNonceIsPacked` | worker/src/executor.ts:160-206 | every 256-bit nonce is the packing of some fields, and of no others |
| `SendEdge.Executor.IsDeployed` | worker/src/executor.ts:444-454 | a failed read answers "not deployed", and the answer is kept |
| `SendEdge.Executor.Clear` | worker/src/executor.ts:458-750 | nothing passes before the enable is justified, the gas bounded, the sponsor's limits held or the prefund covered |
| `SendEdge.Executor.ReadReceipt` | worker/src/executor.ts:799-811 | only the read repeats, at most three times |
| `SendEdge.Executor.Execute` | worker/src/executor.ts:458-841 | the steps of one execution in order, and its outcome |
| `SendLaws.SendsAtMostOnce` | worker/src/executor.ts:752-816 | at most one send, right after the hook for the same hash; every refusal before any signature; sent exactly when the outcome says so; at most three reads |
| `SendLaws.VerdictsAreTheChains` | worker/src/executor.ts:765-816 | landed and reverted need the bundler's own hash and the first answering read; all else that went out is unresolved |
| `SendLaws.EveryRunPersistsBeforeItSends` | worker/src/executor.ts:752-816 | over every run of executions each broadcast follows the hook for the same hash, and broadcasts are as many as outcomes reporting one |
| `SendLaws.WideCeilingIff` | worker/src/executor.ts:262-314 | the wide ceiling is granted exactly when the nonce is an enable at sequence 0 that the chain shows absent, and an unearned enable is refused |
| `SendLaws.EnableRefusedBecause` | worker/src/executor.ts:262-314 | refused as replayed, unverified or redundant exactly when the enable has a sequence, the chain could not be read, or its record names a signer |
| `SendLaws.AsksTheBundlerTwice` | worker/src/executor.ts:585-628 | no estimate before the enable is justified, one when the first is incomplete, two otherwise, and none after |
| `SendLaws.ReachesTheSignatureIff` | worker/src/executor.ts:458-750 | what has to hold for an operation to reach its signature, and nothing more |
| `SendLaws.BothQuotesBind` | worker/src/executor.ts:625-660 | nothing is signed on an incomplete first quote; a complete second one is within four times of it, and what is signed has its headroom over the dearer |
| `SendLaws.SponsoredIff` | worker/src/paymaster.ts:115-193 | when a sponsor is accepted, whose limits are then carried, and which refusal it is otherwise |
| `SendLaws.PreparedIsRefusedBecause` | worker/src/executor.ts:665-750 | a prepared operation is refused for the sponsor's reasons, for a limit it changed, or as short or unverifiable against deposit and balance at the very fee |
| `SendLaws.WhatIsSignedIsBounded` | worker/src/executor.ts:585-750 | at most 3,000,000 gas, or 12,000,000 when earned; between one and two times the dearer estimate; unsponsored, deposit and balance cover it at the fee it carries |
| `SendLaws.SignedIffPrefunded` | worker/src/executor.ts:719-750 | an operation that pays for itself is one the EntryPoint prefunds when it was signed, and one it would not when it was refused as short |
| `SendLaws.SponsoredTotalIsCapped` | worker/src/paymaster.ts:115-193 | a sponsored operation reports its bounded limits and the sponsor's two, and never more than its ceiling plus 1,000,000 |
| `SendLaws.StaysUnderForEverySponsorIff` | worker/src/paymaster.ts:76-193 | whatever a sponsor answers the operation stays under its ceiling exactly when its bounded limits leave 1,000,000 gas of it |
| `SendLaws.SponsoredOverTheCeiling` | worker/src/paymaster.ts:211-227 | one does reach its signature at 3,625,000 gas under the ceiling of 3,000,000 |
| `DepositScan.FindTransferFlows` | worker/src/deposit-log.ts:107-319 | one short scan, unreadable receipt or ambiguous movement refuses the pass; otherwise the flows of the window |
| `DepositScan.KeepCapital` | worker/src/deposit-log.ts:273-313 | the capital among the candidates in order, or a refusal exactly when one is ambiguous |
| `DepositScan.PassRefusesIff` | worker/src/deposit-log.ts:254-309 | a read window is refused exactly when some log it looks for has an unreadable receipt or an ambiguous movement |
| `DepositBooks.PassIsRefusedIff` | worker/src/deposit-log.ts:107-309 | a pass is refused exactly when a side was read in part, or some unbooked movement over the account's boundary and on no trade list has an unreadable receipt or a known venue with nothing coming back; an inverted window is empty |
| `DepositScan.PassFindsTheCapital` | worker/src/deposit-log.ts:171-319 | a pass returns exactly the unbooked capital it looks for, chronologically, none twice |
| `DepositBooks.TakesIffAfter` | worker/src/deposit-log.ts:171-319 | a log gives a flow exactly when it is the owner's money crossing the account's boundary, in no row yet, on no trade list, its receipt read |
| `DepositBooks.FlowsMirrorTheLogs` | worker/src/deposit-log.ts:215-232 | every flow mirrors a log the pass is after and every such log has its flow: inbound exactly when the receiver is the account, with the log's own value, block and index |
| `DepositRuns.PassIsExact` | worker/src/deposit-log.ts:171-319 | what a pass finds is owed and in no row, and with the rows accounts for everything owed in the window |
| `DepositRuns.BookingKeepsTheRows` | worker/src/index.ts:1159-1167 | booking any prefix leaves nothing owed below its own rows |
| `DepositRuns.EveryRunBooksExactlyOnce` | worker/src/index.ts:1111-1169 | over every run of passes, refusals, partial bookings, restarts and lagging heads no movement is booked twice and none below the cursor is missing |
| `DepositRuns.AFinishedPassLeavesNothing` | worker/src/index.ts:1111-1169 | after a finished pass everything owed up to its head is booked |
| `DepositBooks.BookedNetIsTheChains` | worker/src/index.ts:1111-1169 | over every run, the rows booked for the blocks covered sum, in less out, to the owner's transfers into the account less those out of it |
| `DepositRuns.OpeningMovesOnlyOverAGap` | worker/src/deposit-log.ts:334-339 | only a first scan or a gap wider than the lookback gives a range to the inferred rows |
| `DepositRuns.ScanResumesAtTheLastRow` | worker/src/deposit-log.ts:334-339 | a tick scans from its cursor, else from the block of the last row, included, and opens at the head when that is out of reach or there is no row |
| `DepositBooks.ACleanTickBooksEverything` | worker/src/index.ts:1111-1169 | after any run, one tick that reads everything, meets nothing doubtful and books what it finds leaves nothing owed up to its head and moves the cursor there |
| `DepositRuns.OnlyTheTradeListHides` | worker/src/deposit-log.ts:215-217 | an owed movement is found exactly when its transaction is not on the ledger's trade list |
| `DepositRuns.TradeListHidesADeposit` | worker/src/deposit-log.ts:215-217 | a deposit on the trade list is passed over by a pass that ends cleanly, and the invariant of honest runs fails |
| `CommandFiles.CommandDir.WriteCommand` | worker/src/command-files.ts:62-71 | the command stands whole under its own name and nothing else changed but its draft |
| `CommandFiles.CommandDir.ClaimCommandFile` | worker/src/command-files.ts:80-122 | what a claim takes and what it leaves |
| `CommandFiles.ClaimTakesTheOldest` | worker/src/command-files.ts:80-122 | an uncontended claim takes a waiting command none has an earlier time than, deletes its file and the unreadable ones and nothing else, and comes back empty only when nothing waits |
| `CommandFiles.ClaimLeavesTheRestWaiting` | worker/src/command-files.ts:80-122 | everything else that was waiting still waits |
| `CommandFiles.PendingIff` | worker/src/command-files.ts:85-86 | a command can be claimed exactly when its id does not end in ".done" |
| `ClaimProtocol.NamesAreFiles` | worker/src/command-files.ts:62-86 | different names are different files, and a listing keeps exactly the claimable ones |
| `ClaimProtocol.TakingKeepsCore` | worker/src/command-files.ts:112-116 | deleting a published command's file takes it, and it was not taken before |
| `ClaimProtocol.EachCommandIsClaimedAtMostOnce` | worker/src/command-files.ts:62-122 | under every interleaving with crashes no command is taken twice, what is taken is whole, and what nobody took is still there |
| `ClaimProtocol.NoTwoClaimersShare` | worker/src/command-files.ts:112-122 | two claimers that returned returned different commands |
| `ClaimProtocol.ALoneClaimerTakesTheOldest` | worker/src/command-files.ts:80-122 | from every reachable state a claimer that lists what is claimable and is left alone returns the oldest command there is, and nothing only when there is none |
| `ClaimProtocol.AWriterPublishes` | worker/src/command-files.ts:62-71 | a writer that gets through leaves its command whole under its own name, no draft, and everything else as it was |
| `ClaimProtocol.AClaimerEndsItsQueue` | worker/src/command-files.ts:112-122 | a claimer beaten to its first commands returns the first whose file is still there, or nothing when none is |
| `Sorting.SortIsStable` | worker/src/command-files.ts:110 | commands of one time keep the order of the listing |
| `BrainTrigger.ShouldWake` | worker/src/brain-trigger.ts:114-158 | fires the first qualifying reason past its cooldown, and reports every reason that qualified |
| `BrainTrigger.QualifiesIff` | worker/src/brain-trigger.ts:102-139 | when each of the five reasons qualifies, in the inputs themselves |
| `BrainTrigger.FiresIff` | worker/src/brain-trigger.ts:114-158 | what fires is the one reason that may while none before it may: a person, the portfolio, news, the price, the clock |
| `BrainTrigger.OneMovementFiresOnce` | worker/src/brain-trigger.ts:179-193 | until price, equity or news change only a person or the clock sets off another run |
| `BrainTrigger.TheNextMovementIsSeen` | worker/src/brain-trigger.ts:179-193 | and the next real movement does: after any run equity, price and news are measured from what that run was shown |
| `BrainTrigger.NoReasonFiresWithinItsCooldown` | worker/src/brain-trigger.ts:114-193 | over every run no reason fires twice within its own cooldown |
| `BrainTrigger.NeverSilentIff` | worker/src/brain-trigger.ts:76-92 | a due wake-up always fires exactly when the review's cooldown does not outlast the interval |
| `BrainTrigger.NeverSilentForAnInterval` | worker/src/brain-trigger.ts:114-158 | at every tick of every run the brain ran within the last interval |
| `BrainTrigger.ShippedTriggersAreNeverSilent` | worker/src/brain-trigger.ts:70-92 | the same for the shipped configuration at every configured cadence |
| `BrainTrigger.ShippedRunsAreSpaced` | worker/src/brain-trigger.ts:77-92 | over every run of the shipped configuration, how far apart two runs for one reason are |
| `BrainTrigger.ShippedThresholds` | worker/src/brain-trigger.ts:76-92 | 3% in price, 5% in equity, and exactly how long each reason waits |
| `Backtest.Simulation.ApplyFill` | worker/src/backtest.ts:182-226 | the new holdings after a fill, for every kind of intent |
| `Backtest.Simulation.RunBacktest` | worker/src/backtest.ts:61-240 | the replay bar by bar and intent by intent, and its result |
| `BacktestLaws.NoFillMints` | worker/src/backtest.ts:182-226 | no fill raises cash, vault and positions together at the bar's prices, or overdraws |
| `BacktestLaws.BuyIsFair` | worker/src/backtest.ts:208-215 | a buy that fills spends exactly what was asked, keeps what its cost leaves within one unit, and touches no other leg |
| `BacktestLaws.SaleIsFair` | worker/src/backtest.ts:216-225 | a sale that fills parts with what was asked or all there is, brings its worth less the cost within one unit, and touches no other leg |
| `BacktestLaws.VaultMovesConserve` | worker/src/backtest.ts:191-199 | vault moves conserve, and never move more than there is |
| `BacktestLaws.UnfillableOrdersChangeNothing` | worker/src/backtest.ts:182-225 | an order of unlisted tokens, of an unquoted leg, for more cash than there is, or of a kind the replay has no fills for changes nothing |
| `BacktestLaws.InterestIsSimple` | worker/src/backtest.ts:86-91 | the vault earns simple interest over the time between two bars, rounded down, nothing at the first, and nothing else moves |
| `BacktestLaws.BudgetCountsTheDay` | worker/src/backtest.ts:93-105 | over every replay the daily budget counts exactly what was charged since the day's first bar |
| `BacktestLaws.PassedOrdersAreCharged` | worker/src/backtest.ts:155-180 | a bar executes exactly what the policy lets through and charges the day for it |
| `BacktestLaws.NoBarMints` | worker/src/backtest.ts:155-180 | nor does any list of intents, and every intent is executed or refused |
| `BacktestLaws.NothingGoesNegative` | worker/src/backtest.ts:61-240 | over every run on bars in time order nothing held is negative |
| `BacktestLaws.TradingAloneNeverPays` | worker/src/backtest.ts:61-240 | with constant prices and no yield the equity series never rises and never exceeds the cash put in |
| `BacktestLaws.ReportedDrawdownIsTheGreatest` | worker/src/backtest.ts:123-130 | the reported drawdown is the greatest fall over every earlier and later pair of the series, and the high-water mark its peak |
| `FinalFence.EndsOfPackedPath` | worker/src/final-fence.ts:77-85 | reading the ends inverts path packing for every hop count |
| `FinalFence.EndsIffWholeHops` | worker/src/final-fence.ts:77-85 | only whole paths of at least one hop have ends |
| `FinalFence.V3AcceptsExactlyTheTrade` | worker/src/final-fence.ts:93-188 | accepted exactly when the pair is an approval of the amount and a v3 swap of it for the account, at the very floor |
| `FinalFence.OneFieldOff` | worker/src/final-fence.ts:145-160 | another recipient, or a floor off in either direction, is refused by its own rule |
| `FinalFence.AnyOtherApproval` | worker/src/final-fence.ts:93-143 | what any other call in the place of the approval is refused for |
| `FinalFence.AnyOtherSwap` | worker/src/final-fence.ts:93-188 | what any other call in the place of the swap is refused for, and a batch of another length |
| `FinalFence.AcceptedV3Trades` | worker/src/final-fence.ts:93-188 | an accepted swap that does not revert moves the two quoted tokens of the account and nothing else, and delivers the approved floor to it |
| `FinalFence.SellsExactlyIff` | worker/src/final-fence.ts:145-180 | exactly the amount is sold and no allowance stays, exactly when the swap cannot fill in part |
| `FinalFence.PartialFillIsAccepted` | worker/src/final-fence.ts:145-165 | whatever is judged, a batch with a price limit is accepted, and sells exactly only when the limit or the amount is zero |
| `FinalFence.V2AcceptsExactlyTheTrade` | worker/src/final-fence.ts:233-282 | accepted exactly when the legs are the trade that was judged, with the unwind a v3 trade of the sale's floor |
| `FinalFence.AnyOtherV2Call` | worker/src/final-fence.ts:190-282 | what any other call in the place of a v2 trade's approval or swap is refused for |
| `FinalFence.AcceptedBuyTrades` | worker/src/final-fence.ts:233-266 | an accepted buy brings exactly what was asked, within its ceiling, and leaves the unspent part of its allowance |
| `FinalFence.AcceptedSaleTrades` | worker/src/final-fence.ts:233-269 | an accepted sale sells exactly the amount, brings the floor and leaves no allowance |
| `FinalFence.UnwindIsFundedIff` | worker/src/final-fence.ts:269-281 | the unwind always has its input exactly when the path ends in its token or there is nothing to unwind |
| `FinalFence.AnyUnwindIsAccepted` | worker/src/final-fence.ts:269-281 | whatever is judged, its own four legs are accepted, and are funded only when the path ends in the unwind's token |
| `FinalFence.AcceptedUnwindPays` | worker/src/final-fence.ts:233-282 | an accepted sale with its unwind yields the cash floor and spends no WBNB the account had before |
| `AccountClaim.PlanClaims` | worker/src/account-claim.ts:59-107 | a sorted insert list of exactly the claims not held, or one conflict for every disputed account naming all its tenants and sources |
| `AccountClaim.BelowIff` | worker/src/account-claim.ts:104-106 | the order inserts and tenants are listed in: a proper prefix first, else the smaller unit at the first difference |
| `AccountClaim.AcceptedIffFunctional` | worker/src/account-claim.ts:78-99 | a plan is accepted exactly when the normalised claims form a function |
| `AccountClaim.OnlyTheClaimsMatter` | worker/src/account-claim.ts:59-107 | order and repetition of the claims change nothing |
| `AccountClaim.ReplanIsEmpty` | worker/src/account-claim.ts:96-107 | planning again over what was written is accepted and has nothing to write |
| `AccountClaim.RecordedIff` | worker/src/account-claim.ts:96-102 | after an accepted plan a claim is on record exactly when no tenantless row sat on its account |
| `AccountClaim.BlankTenantHidesAClaim` | worker/src/account-claim.ts:96-102 | one blank-tenant row makes the plan report its account held, write nothing and leave the claim unrecorded |
| `PgPlaceholders.ToPgPlaceholders` | worker/src/db.ts:106-124 | the scanner computes the rewriting |
| `PgPlaceholders.RewritingIsInvertibleIff` | worker/src/db.ts:106-124 | reading the result back gives the statement with its marks numbered 1, 2, … exactly when no unquoted mark or `$` stands right before a digit |
| `PgPlaceholders.LiteralsAreKept` | worker/src/db.ts:103-124 | every quoted literal comes through as it was written |
| `PgPlaceholders.LiteralIsQuoted` | worker/src/db.ts:106-124 | a literal is quoted text whole and with its quotes, and text between literals is not |

## Left out

- Postgres, connection pools and the regex rewrites of `translateQuery` and `translateSchema`: wrappers over libraries not shown.
- User interface, HTTP, RPC and bundler clients: their replies are the oracles the theorems quantify over.
- Text rendered for people: `why`, `note` and `detail` strings, log lines, report lines, `describe`, and the `note` of an unmarked book.
- `parseRepairOptions`, JSON and environment parsing, ABI and RLP decoding, `BigInt` of malformed log data: parsed values enter as datatypes whose unreadable case is a value of its own.
- Floating point: REAL columns, float sums and percentages are exact integers here (reals for price moves and feed prices); rounding of REAL arithmetic is not captured.
- `getLogsAdaptive`, `checkPolicy`, strategies, `prepareUserOperation`, signing and hashing are functions or replies of the environment, chosen adversarially.
- Ledger.SqliteDb.MoveToQuarantine: the `at` column, the reason text and the (run_id, original_id) primary key are not carried; under AUTOINCREMENT ids the key cannot fire.
- Ledger.SqliteDb.Rollback: a rollback that itself throws is taken to leave the tables as they were at BEGIN, as SQLite does.
- Repair.RunRepair: the progress callback is not modelled, and the clock is a parameter per account.
- Reconstruction.PlanReconstruction: the drift and discrepancy figures of a plan that only the report shows are left out.
- Bootstrap.NewIffNothingDurable: the queries read one state; writes landing between two of them are not modelled.
- RedeployProtocol.AtMostOneOpeningInEveryRun: accrual watermarks, the mirror skipping a receipted row it already copied, a restored peak or epoch or an epoch carry that fails to be written, and the self-hosted branch are not steps of the protocol; `oldTrades` stands for the trades table.
- HashChain.LastHashCommitsToHistory: asks for fixed-length digests, and says which collision or preimage exists instead of assuming there is none.
- Receipts.FillPassesItsOwnAudit: the price ratio, slippage and gas a fill also carries are left out; `fillQtyRaw` parsing is three-valued.
- BookEnvelope.TruthfulBookVerdict: runs are of capital flows, fully backed fills and orders that were refused or reverted, closed by one truthful mark; unbacked sells publish no realized figure and are outside it.
- ChainSweep.ScanFleetCapital: receipts are read per transaction as one function, so the cache that fetches each once and the order of accounts within a transaction are not captured, nor are the waits between calls.
- GasBackfill.Bisect: reads are taken to name the id they were asked for; the feed does not change during a search.
- GasLimits.SignedGasIsBounded: for the headroom and disagreement multiples the source ships; the ceiling is free.
- SendLaws.WhatIsSignedIsBounded: the prepared operation is taken to keep the limits it was given; for a sponsored one `SponsoredLimitsAreHeld`, `SponsoredTotalIsCapped` and `StaysUnderForEverySponsorIff` say what holds without that.
- SendLaws.SponsoredTotalIsCapped: the client library spreads the stub and then the final reply over the prepared operation, and skips the final call after a final stub, as `paymaster.ts` says; the library is not part of this model.
- SendEdge.Executor.Execute: fee estimation for the simulation, error text, gas accounting of a landed receipt and timeouts are not modelled.
- DepositRuns.EveryRunBooksExactlyOnce: blocks below a head do not change (no reorganisations), every log names its block and index, and the trade list names no transaction carrying owed capital; `OnlyTheTradeListHides` drops the last.
- CommandFiles.CommandDir.ClaimCommandFile: a directory that cannot be listed, non-numeric timestamps and result files are not modelled; the listing order is a parameter.
- ClaimProtocol.EachCommandIsClaimedAtMostOnce: ids are unique and not the names of files already lying there; `drainCommandResults` makes no such promise and is left out.
- BrainTrigger.ShouldWake: numbers that are NaN are not modelled.
- Backtest.Simulation.RunBacktest: strategy and policy are functions of what they are shown and the bar's index; the tally of refusals by rule is kept as the list of rules; the symbol that is the empty string is not special.
- BacktestLaws.NothingGoesNegative: bars in time order, intents with non-negative amounts, cost of at most 10,000 bps.
- FinalFence.AcceptedV3Trades: ERC-20s move what they say and decrease an allowance by what is spent; the router settles as its functions promise; its special meaning of a zero input and of recipients 1 and 2 is not modelled.
- FinalFence.AcceptedBuyTrades: a trade is between two different tokens, and the quoted path has a first token.
- AccountClaim.PlanClaims: the order of the conflict list is not part of the contract; Unicode case folding and blanks beyond ASCII are not modelled.
- `socialIdentityProblem`, `legsFromReceipt`, `avgCostUsdgPerUnit`, `drawdownBps`, `gasQualifier`, `bookGaps`, `anchorLine`: they would only add easy members.
