# A verified model of the campaign, deployment and reporting tools

This project models the tools of the FinOps assistant repository that carry guarantees over whole runs, and proves those
guarantees for every input, every interleaving and every crash.

- **Paid campaigns.** `Budget` is the admission rule, `Ledger` the durable table with one function per transaction and a
  class `Store` that performs them, `Campaign` the system of any number of runner processes and operators sharing one
  ledger, `CampaignSteps` and `CampaignRuns` what its steps and runs keep, `HonestService` and `BilledService` what is
  truly spent, `Runner` the one-step runner as a class whose `step` is shown to be a run of that system, `Coverage` the
  audit of the history, and `Recovery` the amount a failed operation is settled for. Each transaction, the paid request
  and the reading of a remote answer are single atomic actions. Processes interleave freely and die between any two actions.
  The requests sent, the operations made for them and what they truly cost are ghost history.
- **Blue/green deployer.** `Deployer` says which effects every command has on the host, in order, for every answer of
  its environment; a crash leaves any prefix of them. `DeployerMachine` executes the commands step by step on mutable
  fields and is shown to have exactly those effects. `Quarantine` is what becomes of a revision that failed, and
  `RollbackExclusivity` says when a rollback meets a clean host.
- **Event matching.** `Matching` has the greedy loop and shows by an exchange argument that it is a maximum matching.
- **SQL text and merging.** `SqlText` prints the INSERT blocks and reads them back; `JsonNul` has the serialiser and the
  regular expression for escaped NULs; `Merge` is the emitted transaction on the two tables.
- **Retrieval calibration.** `Sweep` is the ranking, the rates and the choice of a threshold, `TextCoordinates` the
  sections and chunks in the coordinates of the normalised text, `Numerator` the numerators the dashboard recovers from
  the published rates, over the rounding of `Rounding`.
- **Sampling, local budget, intervals.** `Sampling` is the streaming sample of a CSV entry, `Overrun` the local
  campaign budget with its absorbing overrun, `Wilson` the score interval over the reals.

Methods follow the loops and updates of the source; each is proved against a function or a predicate, and the lemmas
about those carry the properties. Beside each function stands a law that does not name its steps: when an operation is
accepted, field by field what it writes, and what it leaves alone. `Outcomes` has the optional value, `Whitespace` has
`split`, `join` and `strip`, `Arithmetic` and `Sequences` a few shared definitions.

Where the code does not keep a property that its shape suggests, the model says exactly when it does. The settled prefix
holds at `preflight` unless a rival has reserved the sample since the scan (`CampaignRuns.PreflightPrefixExactly`, with a
concrete run in `Coverage.RivalMakesPreflightRefuse`). A rollback, which does not clean up first, is exclusive unless the
commands before it left something running that they could not stop (`RollbackExclusivity.RollbackExclusiveExactly`). The
matches counted are a maximum exactly for distinct event ids (`Matching.MaximumExactly`). A larger top_k extends a smaller
one except from a negative to a non-negative one (`Sweep.OtherEndFindsMore`). Four decimals give every numerator back up
to ten thousand cases and never beyond (`Numerator.RecoveredExactly`).

## Model

| member | source | states |
|---|---|---|
| `Budget.AdmissionWithinCap` | tools/chat-eval-budget.py:114-154 | in either accounting mode an accepted operation is new, holds its whole bound, and floor plus all reservations plus the bound is within the authorised cap, at most 30 |
| `Budget.AdmissionExactly` | tools/chat-eval-budget.py:105-154 | an operation is admitted exactly when the cap is positive and at most 30 (20 by default), the accounting at most 30 seconds old, of the cumulative scope, with evidence and at least the historical floor, the request new and not blank, the bound positive, any coverage complete, and the bound fits |
| `Budget.CoverageNeverStricter` | tools/chat-eval-budget.py:133-150 | an accepted coverage claim keeps every admission of the default mode unchanged, every other refusal too, and turns a refusal for money into an admission exactly when both independent upper bounds fit the cap |
| `Budget.OperationBoundCovers` | tools/chat-eval-budget.py:94-102 | any operation of at most four attempts within the token limits costs at most `operation_bound` |
| `Budget.OperationBoundIsReached` | tools/chat-eval-budget.py:94-102 | four attempts within the token limits reach that bound, so no smaller one would cover them |
| `Budget.CompletedAttemptCost` | tools/chat-eval-budget.py:68-91 | yields a cost exactly when every attempt of a terminal operation is reported once and completely, the current one among them; the cost is the sum of the reports |
| `Budget.ReportedCostIsSum` | tools/chat-eval-budget.py:68-91 | the reported cost is the sum of the single costs, however the history is split |
| `Ledger.Store.Reserve` | tools/chat-eval-ledger.py:44-59 | commits the admitted row at the end of the table, or leaves the table as it was |
| `Ledger.Store.AttachConversation` | tools/chat-eval-ledger.py:61-69 | sets the conversation of a RESERVED row once, or leaves the table as it was |
| `Ledger.Store.BeginDispatch` | tools/chat-eval-ledger.py:71-79 | moves a RESERVED row with its conversation to DISPATCHING before anything is sent, or leaves the table as it was |
| `Ledger.Store.ObserveHandle` | tools/chat-eval-ledger.py:86-95 | records the operation of a dispatched row; a different one is refused |
| `Ledger.Store.RetainFailedCost` | tools/chat-eval-ledger.py:102-114 | a failed receipt that passes every check retains the entire maximum with its proof; any other leaves the table as it was |
| `Ledger.Store.RetainCompletedCost` | tools/chat-eval-ledger.py:116-141 | the same for a completed receipt: not blank, its public snapshot consistent with its resources and their digest |
| `Ledger.Store.RetainUnknownCost` | tools/chat-eval-ledger.py:143-160 | retains the entire maximum of an untouched reservation for its row's own operation and conversation, or leaves the table as it was |
| `Ledger.Store.ReconcileCost` | tools/chat-eval-ledger.py:162-181 | settles an observed row, and no other, for the reported cost of every attempt plus the auxiliary cost, within its reservation, freeing the rest of that reservation; or leaves the table as it was |
| `Ledger.ReserveKeeps` | tools/chat-eval-ledger.py:44-59 | an accepted reservation keeps the table sound, adds exactly its bound to the outstanding sum and keeps floor plus outstanding within the cap |
| `Ledger.UpdateKeeps` | tools/chat-eval-ledger.py:61-181 | any one-row transaction keeps keys, soundness and the history of every row, and changes the outstanding sum by that row's difference |
| `Ledger.SwapUpdates` | tools/chat-eval-recover-failed-runtime.py:157-166 | the compare-and-swap is a one-row update into a legal successor |
| `Ledger.ReserveExactly` | tools/chat-eval-ledger.py:44-59 | a sample is reserved exactly when it is new in its plan and its bound is admitted; the table gains one row, field by field |
| `Ledger.AttachExactly` | tools/chat-eval-ledger.py:61-69 | a conversation is attached exactly to a RESERVED row without one; nothing else changes |
| `Ledger.DispatchExactly` | tools/chat-eval-ledger.py:71-79 | a dispatch is committed exactly for a RESERVED row with a conversation; only that row's state changes |
| `Ledger.ObserveExactly` | tools/chat-eval-ledger.py:86-95 | a handle is recorded exactly for a dispatched row without another one; only operation and state of that row change |
| `Ledger.ReconcileExactly` | tools/chat-eval-ledger.py:162-181 | a row is settled exactly when it has this operation, is untouched and the cost is from zero to its reservation; then that row alone is settled, holds the cost, keeps its old reservation as maximum, and the outstanding sum falls by the difference |
| `Ledger.RetainExactly` | tools/chat-eval-ledger.py:102-141 | a terminal receipt is retained exactly for a verified one of that row's own operation and conversation while its reservation is untouched; the row keeps its whole reservation as maximum and gains the proof, nothing else changes |
| `Ledger.RetainedCostExactly` | tools/chat-eval-budget.py:157-197 | a retained cost is later accepted with the very receipt that proved it and with no other |
| `Ledger.SwapExactly` | tools/chat-eval-recover-failed-runtime.py:157-166 | the compare-and-swap succeeds exactly for a stored, observed, unsettled entry and a cost from zero to its reservation; then that row alone is settled, holds the cost, keeps its old reservation as maximum, and the outstanding sum falls by the difference |
| `Ledger.SettlementFreesMoney` | tools/chat-eval-ledger.py:162-181 | a settlement lowers the default exposure by exactly the old reservation minus the cost, and every later admission that was possible before it stays possible |
| `CampaignSteps.RunKeeps` | tools/chat-eval-ledger.py:44-181 | every run, with any interleaving and any crashes, keeps the invariant of table, money, sends, processes and plan prefixes |
| `CampaignRuns.SpendCap` | tools/chat-eval-budget.py:105-154 | in every run floor plus all reservations is at most the largest cap of an accepted admission, itself at most 30 |
| `HonestService.TrueSpendCap` | tools/chat-eval-budget.py:94-154 | when no bill exceeds its reservation and no settlement falls below its bill, true spend never exceeds what the ledger holds, hence floor plus spend is within the cap |
| `BilledService.BilledSpendCap` | tools/chat-eval-budget.py:68-154 | the same from the prices: bounds are `operation_bound`s, operations take at most four attempts within their token limits, and settlements rest on complete, truthful reports or provider bills |
| `CampaignRuns.AtMostOnce` | tools/chat-eval-ledger.py:71-84 | in every run no request is sent twice, every sent one is durably past RESERVED, and no sample of a plan is sent under two requests |
| `CampaignRuns.RowsOnlyAdvance` | tools/chat-eval-ledger.py:44-95 | from any reachable state no row disappears, goes back, or changes a conversation or operation already set; one action advances a row at most one state |
| `CampaignRuns.SettledPrefix` | tools/chat-eval-runner.py:45-94 | in every run each plan's rows are, in order, a prefix of its samples, of which only the last may be unsettled |
| `CampaignRuns.PreflightPrefixExactly` | tools/chat-eval-runner.py:76-94 | whenever a process is at `preflight`, in any run, the plan's rows are exactly the samples before its own, all observed and settled or fully retained, if and only if no rival has reserved that sample meanwhile |
| `CampaignRuns.DecideExactly` | tools/chat-eval-runner.py:47-102 | the scan reports all collected exactly when no sample needs anything more; otherwise it decides by the first that does, as that sample's own row and receipt say |
| `Runner.Process.Next` | tools/chat-eval-runner.py:47-102 | the loop of `step` takes the decision the system takes on the same ledger and receipts |
| `Runner.Process.Step` | tools/chat-eval-runner.py:45-118 | a call of `step`, cut short anywhere, is a run of the system; for each decision its outcome is fixed by the answers it got: it collects exactly an ended operation with its receipt, waits exactly for one still generating, settles exactly what can be paid, sends exactly when all checks before the request passed; receipts, sends and rows change then and only then |
| `Coverage.CampaignPrefix` | tools/chat-eval-covered-step.py:16-42 | accepts exactly the histories whose chat rows are resolved, with distinct operations, of registered campaigns and in plan order; returns the chat rows |
| `Coverage.ChatInOrder` | tools/chat-eval-covered-step.py:27 | the chat rows are those with an operation, each once and in ledger order |
| `Coverage.ResolvedExactly` | tools/chat-eval-covered-step.py:35-39 | a row is resolved exactly when it is settled, or retained at its entire maximum with one proof, a hexadecimal digest of this very operation |
| `Coverage.HistoryAccepted` | tools/chat-eval-covered-step.py:16-42 | a history that runners and an honest service produced is accepted if and only if no observed operation still waits for its cost |
| `Coverage.LoneCampaignAtPreflight` | tools/chat-eval-covered-step.py:16-42 | with one campaign, the history faced at `preflight` is accepted if and only if no rival has reserved the sample meanwhile or nothing observed waits for its cost |
| `Coverage.RivalMakesPreflightRefuse` | tools/chat-eval-runner.py:47-80 | a concrete run of two runners in which the audit refuses after a stale scan |
| `Recovery.AttemptTotals` | tools/chat-eval-recover-failed-runtime.py:39-57 | yields totals exactly when one to four attempts are each reported once with one or two distinct phases and a valid cost; legs and cost are the sums |
| `Recovery.TotalsAreSums` | tools/chat-eval-recover-failed-runtime.py:39-57 | both totals are sums over the reports, however the history is split |
| `Recovery.SettlementCoversEveryAccount` | tools/chat-eval-recover-failed-runtime.py:81-163 | the settled amount is at least what the SDK, the gateway and the provider each say and what both keys were charged, up to the slack, and at most the reservation |
| `Recovery.SettlementExactly` | tools/chat-eval-recover-failed-runtime.py:81-163 | an operation is settled exactly when requests and legs agree, no account is negative, bookings and key charge agree to a billionth, the SDK total is covered, the auxiliary spend is within 0.002 and the reservation suffices; for the dearest choice between both accounts of every call, plus the auxiliary spend |
| `Deployer.DeployerSafety` | tools/cd/deploy.py:308-443 | over all command sequences, failures and crashes, current and previous name releases that passed smoke, distinct and in opposite slots, the slot is current's own, and no `down` hits current |
| `Deployer.SlotExclusivity` | tools/cd/deploy.py:373-443 | whenever poll or validate-source starts a release other than current, nothing but current runs and current holds the other slot |
| `Deployer.PollConverges` | tools/cd/deploy.py:224-241 | from any reachable state, one poll in which nothing fails to stop and current comes up leaves exactly current running |
| `Deployer.PollPromotesExactlyVerified` | tools/cd/deploy.py:373-443 | a poll changes current if and only if every check passed for one eligible revision and the other slot was certainly free, and then to that revision |
| `Deployer.PollWithoutCandidate` | tools/cd/deploy.py:393-412 | a poll that is paused, cannot read head or runs, or whose head is not integrated, not eligible, current or quarantined promotes nothing and starts nothing but current |
| `Quarantine.EligibleExactly` | tools/cd/deploy.py:47-57 | a head is eligible exactly when the newest attempt of the newest run is a successful delivery run of it |
| `Quarantine.RecoveryResolves` | tools/cd/deploy.py:385-392 | a poll resolves the failure of the current release exactly when that release comes up |
| `Quarantine.DeployResolves` | tools/cd/deploy.py:338-342 | deploying a revision that failed before resolves its own failure and leaves any other |
| `Quarantine.DeployReports` | tools/cd/deploy.py:326-343 | a release that passed is reported as deployed exactly when the cleanup after it left nothing |
| `Quarantine.FailedDeployQuarantines` | tools/cd/deploy.py:308-337 | a release that is not built, does not come up or fails smoke is reported, stopped and quarantined; one that was only overtaken is stopped and leaves the marker as it was |
| `Quarantine.FailedPollQuarantines` | tools/cd/deploy.py:373-443 | a poll whose candidate fails reports it, keeps the state and quarantines that revision |
| `Quarantine.QuarantineHolds` | tools/cd/deploy.py:405-413 | the same for any quarantined revision, which stays quarantined as long as nobody resumes |
| `Quarantine.FailedRevisionIsNotRetried` | tools/cd/deploy.py:266-443 | once the candidate of a poll failed and a mark was kept, polls that find the same head, dying anywhere, keep state.json and start nothing but current |
| `Quarantine.ResumeLifts` | tools/cd/deploy.py:480-489 | a resume lifts the pause and every quarantine and touches nothing else |
| `Deployer.ValidationPromotesExactly` | tools/cd/deploy.py:490-497 | a validation changes the state exactly when it is not paused, the release is new, the other slot was certainly free and every check passed, and then to that release |
| `Deployer.RollbackGoesBackExactly` | tools/cd/deploy.py:346-370 | a rollback changes the state exactly when there is a previous release, it is not paused and that release came up and passed smoke: to the previous release in the other slot, paused |
| `Deployer.RollbackPause` | tools/cd/deploy.py:346-370 | from a rollback until resume no polls, validations or further rollbacks, dying anywhere, change state.json |
| `Deployer.RollbackTwiceReturns` | tools/cd/deploy.py:346-370 | two rollbacks with a resume between them return to the original release, slot and previous |
| `RollbackExclusivity.RollbackExclusiveExactly` | tools/cd/deploy.py:308-370 | after any whole command on a host where only current ran, a first rollback starts its release beside nothing but current if and only if that command left no failed or overtaken candidate, and no replaced release, running because its `down` failed |
| `RollbackExclusivity.RollbackExclusiveByHistory` | tools/cd/deploy.py:346-360 | after any attempts, dying anywhere, that holds if and only if every other release an `up` left running has since been stopped |
| `Deployer.RollbackMayShareSlot` | tools/cd/deploy.py:346-360 | after a candidate that could not be stopped, a rollback starts its release in an occupied slot |
| `DeployerMachine.Machine.ReconcileAll` | tools/cd/deploy.py:224-241 | brings down every release but current, in listing order, goes on after failures and succeeds exactly when none failed |
| `DeployerMachine.Machine.RecordFailedCandidate` | tools/cd/deploy.py:266-282 | marks a permanent failure, takes the candidate down, and marks again when that failed |
| `DeployerMachine.Machine.Resolve` | tools/cd/deploy.py:285-292 | resolves the marker of current's own open failure and nothing else |
| `DeployerMachine.Machine.TransitionCleanup` | tools/cd/deploy.py:295-305 | resolves and reconciles after current changed |
| `DeployerMachine.Machine.DeployRelease` | tools/cd/deploy.py:308-343 | its effects, in order, for every answer: build, up, smoke, last head check, promotion, cleanup |
| `DeployerMachine.Machine.Rollback` | tools/cd/deploy.py:346-370 | its effects, in order, for every answer; from a safe host each of them is safe |
| `DeployerMachine.Machine.Poll` | tools/cd/deploy.py:373-443 | its effects, in order, for every answer; from a safe host each of them is safe |
| `DeployerMachine.Machine.Resume` | tools/cd/deploy.py:480-489 | lifts the pause and allows a retry of the marked failure, safe from a safe host |
| `DeployerMachine.Machine.ValidateSource` | tools/cd/deploy.py:490-497 | its effects, in order, for every answer, safe from a safe host; refused while paused or for an existing release |
| `Matching.MatchEvents` | tools/memory-indicators.py:104-121 | the loop's delays are those of the greedy matching of the sorted events; tp, fp and fn are their counts |
| `Matching.MaximumMatching` | tools/memory-indicators.py:104-121 | with distinct ids the greedy pairs join events and later episodes of the same service within the tolerance, none twice, with one delay per pair, and no valid matching has more, so tp is greatest and fp, fn least |
| `Matching.MaximumExactly` | tools/memory-indicators.py:104-121 | tp is the size of a maximum pairing for all episodes and tolerances if and only if no two events share an id |
| `Matching.RepeatedIdUndercounts` | tools/memory-indicators.py:117-120 | with a repeated id two matched events leave one delay |
| `SqlText.LiteralBack` | tools/evaluation-dashboard.py:2161-2218 | the literal of any writable value is read back as that value and ends exactly where it was written to end |
| `SqlText.PrinterIsFaithful` | tools/evaluation-dashboard.py:2188-2321 | reading the script takes table, column list and tuples from the text and consumes it exactly; each tuple becomes a map from column to value, and the runs and results so loaded are those of the dataset, in order, each column with its own key's value and `run_id` with its run's id; runs come first, results in blocks of 500 but for the last |
| `SqlText.InsertBlocks` | tools/evaluation-dashboard.py:2310-2321 | writes blocks that load exactly that dataset precisely when every value is writable, and no partial text otherwise |
| `JsonNul.ScanIsSearch` | tools/evaluation-dashboard.py:2154-2158 | a one-pass parity scan decides the regular expression on every text |
| `JsonNul.DetectorIsExact` | tools/evaluation-dashboard.py:2172-2185 | the expression matches the serialisation if and only if some string or key contains NUL |
| `Merge.Database.Append` | tools/evaluation-evolution.py:135-165 | executing the emitted statements either raises and changes nothing or commits the merged tables |
| `Merge.ConflictIsADifferingRun` | tools/evaluation-evolution.py:143-158 | it aborts if and only if some shared run differs in metadata or in its multiset of rows |
| `Merge.AppendAddsExactlyTheMissing` | tools/evaluation-evolution.py:159-163 | otherwise old runs and rows stay in place and exactly the missing runs arrive with their own rows |
| `Merge.SecondRunIsNoOp` | tools/evaluation-evolution.py:127-165 | a second execution changes nothing and commits again after a success |
| `Sampling.ProfileRows` | scripts/audit_azure_dataset.py:153-210 | the blank and the malformed lines are counted exactly, and the sample is, in file order, k of the well-formed rows such that any row dropped has a greater score, or the same and stands earlier; it is what sorting all, taking the k greatest and reordering yields |
| `Sampling.HeapIsReference` | scripts/audit_azure_dataset.py:202-210 | any heap holding the k greatest candidates, put back in file order, is the reference sample |
| `Sampling.LastOfSortedIsTop` | scripts/audit_azure_dataset.py:202-210 | sorting everything and taking the last k gives the k greatest |
| `Sampling.BlankStrips` | scripts/audit_azure_dataset.py:155-158 | a line is blank exactly when every value strips to nothing |
| `Sweep.RetrieveIsNearest` | tools/retrieval-calibration.py:147-152 | what is retrieved is, of all items, the k nearest that are near enough, ordered by distance and then by document and fragment |
| `Sweep.RetrieveGrows` | tools/retrieval-calibration.py:147-152 | a larger k or distance only adds items after those already found |
| `Sweep.OtherEndFindsMore` | tools/retrieval-calibration.py:147-152 | for a negative top_k against a non-negative one the prefix order fails on some items, always |
| `Sweep.RatesAreShares` | tools/retrieval-calibration.py:267-290 | each published rate is the share of its own set of cases: those with a fragment of their documents, those with nothing, and of the labelled ones those with a fragment in a labelled section |
| `Sweep.RatesMonotone` | tools/retrieval-calibration.py:267-296 | document and section hit rates can only rise and the empty rate only fall, as published with four decimals |
| `Sweep.Propose` | tools/retrieval-calibration.py:313-320 | for every top_k the chosen threshold is the least that keeps the ratio, every larger one keeps it and no smaller one does; otherwise the base point is chosen |
| `Sweep.ProposalKeepsRatio` | tools/retrieval-calibration.py:313-320 | for a ratio of at most one, whatever is proposed keeps it against the point without a threshold, or failing that the last one |
| `TextCoordinates.NormalizedLines` | tools/retrieval-calibration.py:75-120 | joining the words of all lines is normalising the text at once, line ends in either form |
| `TextCoordinates.RangeHoldsLines` | tools/retrieval-calibration.py:100-120 | the range from one line's offset to another's holds, split into words, exactly the words of the lines between |
| `TextCoordinates.HeadingsExactly` | tools/retrieval-calibration.py:104-119 | the marked lines are all the heading lines outside fences, in order |
| `TextCoordinates.FenceExactly` | tools/retrieval-calibration.py:105-113 | a fence is open exactly from a marker outside fences to the next marker of the same character |
| `TextCoordinates.HeadingLinesExactly` | tools/retrieval-calibration.py:105-118 | a line is a heading exactly where no fence is open and the pattern matches it |
| `TextCoordinates.HeadingName` | tools/retrieval-calibration.py:116-118 | the name of a heading is the shortest group that only blanks, number signs and blanks follow, without the whitespace at its ends |
| `TextCoordinates.SectionSpans` | tools/retrieval-calibration.py:100-121 | sections are named by the headings, hold exactly their lines, and tile the normalised text from the first heading to its end |
| `TextCoordinates.ChunkSpans` | tools/retrieval-calibration.py:79-97 | the loop ends; the spans are exactly the stripped, not blank slices of the windows that start at the multiples of size minus overlap; every other character is in some span, any slice of at most the overlap that starts and ends with a character lies in a single one; and the chunks are those of the ingestion |
| `TextCoordinates.PrimarySection` | tools/retrieval-calibration.py:124-130 | the first section with the largest positive overlap, and none exactly when no section overlaps |
| `TextCoordinates.OverlapCounts` | tools/retrieval-calibration.py:127-133 | a positive overlap is the number of characters that section and range have in common |
| `TextCoordinates.ChunkHasSection` | tools/retrieval-calibration.py:124-130 | over sections that tile the text, a chunk has a section if and only if it reaches past the first heading |
| `Numerator.PublishedExactly` | tools/evaluation-dashboard.py:968-980 | a numerator is published if and only if some whole number is within the report's rounding; it is the nearest, and for a rate in 0..1 it lies in 0..n |
| `Numerator.RecoveredExactly` | tools/evaluation-dashboard.py:968-980 | every numerator comes back from the published decimals if and only if there are at most ten thousand cases |
| `Numerator.ReportedRateHasNumerator` | tools/evaluation-dashboard.py:968-980 | a rate of the report is published as measured exactly when it has cases, and always with a numerator in 0..n, off by at most one for every ten thousand cases |
| `Overrun.BudgetLedger.Initialize` | tools/evaluation_budget.py:63-70 | creates the empty ledger once, exactly for a name, an authorisation and an alert between zero and the limit |
| `Overrun.BudgetLedger.Reserve` | tools/evaluation_budget.py:83-99 | writes the reservation and, the first time the boundary is reached, the alert; or changes nothing |
| `Overrun.BudgetLedger.Finish` | tools/evaluation_budget.py:101-117 | writes the outcome and raises exactly when it was refused or the written cost is over the limit |
| `Overrun.ReservingExactly` | tools/evaluation_budget.py:83-99 | a reservation is admitted exactly for a new id, a known kind, a positive amount (for chat at least 6.50), everything before it settled, and a commitment within the limit; the ledger gains that operation |
| `Overrun.FinishingExactly` | tools/evaluation_budget.py:101-117 | a result is recorded exactly for an open operation and either no receipt or one that names it and accounts for everything; that operation alone becomes unknown at its reservation, or settled for that cost |
| `Overrun.CampaignIsBounded` | tools/evaluation_budget.py:78-117 | in every run at most the last operation is open, and the commitment is within the limit or all is settled, that operation's excess covers the overrun, and nothing later changes the ledger |
| `Overrun.AlertNamesTheFirst` | tools/evaluation_budget.py:92-96 | over a whole run there is an alert exactly when some reservation reached the boundary, a single one, naming the first that did and the commitment with it |
| `Overrun.OverrunExactly` | tools/evaluation_budget.py:108-117 | a receipt overruns exactly when its cost exceeds the reservation by more than was free |
| `Overrun.OverrunIsAbsorbing` | tools/evaluation_budget.py:83-117 | over the limit, no sequence of actions changes anything |
| `Overrun.NothingIsLost` | tools/evaluation_budget.py:83-117 | no reservation, receipt or alert is ever lost or rewritten, and a settled operation is final |
| `Wilson.IntervalIsScoreTest` | tools/assistant-metrics.py:124-131 | the interval is exactly the set of shares the score test does not reject, lies in 0..1 and holds k / n, so neither clamp changes a bound |
| `Wilson.RadicandNotNegative` | tools/assistant-metrics.py:130 | the square root is always taken of a positive number |
| `Wilson.MirrorImage` | tools/assistant-metrics.py:124-131 | the interval of n - k is the mirror image of the interval of k |
| `Wilson.PublishedInOrder` | tools/assistant-metrics.py:141-148 | rounding keeps the share inside its published interval and both inside 0..1 |
| `Wilson.PublishedIsNear` | tools/assistant-metrics.py:141-148 | the row publishes the share and both ends of the score interval, each to within half a millionth |

## Left out

- Money is an exact real: the 28-digit context of `Decimal` and the binary rounding of `round` and of the interval's
  floating point are not modelled, nor is the existence of a square root: the interval takes any root it is given.
- SHA-256 digests and UUIDs: a digest is any function of the text, and a coverage claim carries the set of ids. Fresh
  operation ids and truthful answers are assumed of the service where spend and history are concerned (`HonestService`,
  `BilledService`).
- SQLite, file locks, fsync and atomic replacement: a transaction, a locked command and a written file are atomic.
- Errors are an absent result; only admission keeps the reason. Messages and most type checks of parsed
  JSON are omitted; equal JSON values are equal texts.
- `accounting_snapshot` and the remote evidence gathering of the recovery tool: their results are inputs.
- Receipt files on disk: a scan reads arbitrary contents, of which only the checked facts are kept. Rows of campaigns that
  no runner drives enter as `Seed` actions.
- Budget.OperationBoundCovers: token counts and prices are inputs; that a service keeps to four attempts is assumed.
- Deployer: events, evidence and recovery files; the temporary copies of `prepare` are one flag; git, GitHub, Docker and
  smoke answers are inputs. The failure marker may fail to be written at every point.
- Matching.MatchEvents: ids and dates are numbers, and the anomaly detector that finds the episodes is not modelled.
- SqlText.PrinterIsFaithful: a float is its own text and JSON its serialised text; column names are any distinct names
  free of the separators of the statement. Validation of the dataset, table definitions and TRUNCATE are omitted.
- Merge.Database.Append: equality of `to_jsonb` is equality of rows, and the prior tables satisfy their foreign key.
- Sampling.ProfileRows: the heap keeps its least element first and promises no other layout; column statistics, date
  ranges and cardinalities are omitted, and the score is any function.
- TextCoordinates.ChunkSpans: settings outside 0 <= overlap < size are not modelled; the chunker of the ingestion
  refuses them, though only after this loop, which need not end for them.
- Sweep.Propose: each top_k is taken once with one list of thresholds; embeddings and distances are inputs.
- Overrun.BudgetLedger.Reserve: that the alert is shown before the write is not modelled, only that it is recorded.
- Spend summaries, freshness, anomaly and API reports, answer heuristics, rendering, argument parsing and demo data: they
  would only add easy members.
