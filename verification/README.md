# Money, votes and schedules of the creator-bot platform

A Dafny model of the stateful cores of the platform, with proofs over every run:

- **botpay store**: the double-entry ledger on its hash chain (`chain.dfy`, `ledger.dfy`),
  the wallets with TON, credit and frozen money, their retries and withdrawals
  (`wallet.dfy`, `wallet_books.dfy`, `wallet_retries.dfy`), which kind of money a call moves
  (`wallet_effects.dfy`), invoices (`invoice.dfy`).
- **botpay consensus**: workers with a record per transaction, the vote-collecting loop,
  every interleaving of calls, late workers and timeouts (`consensus.dfy`,
  `consensus_runs.dfy`), and when the vote does approve (`consensus_quorum.dfy`).
- **ads-bot lock-rental escrow**: each database statement of a join, an approval, a
  settlement pass or a reversal is one step, freely interleaved (`escrow.dfy`); what the
  rows explain (`escrow_books.dfy`), who is paid how often when credits, marks and the
  process fail (`escrow_payments.dfy`), how often a rental finishes (`escrow_finish.dfy`),
  how far it overspends (`escrow_bounds.dfy`, `escrow_latepool.dfy`), what keeps a rental
  running and when its budget is used up (`escrow_upkeep.dfy`); the same statements and the
  handlers' loops in place (`escrow_store.dfy`).
- **admanager scheduler**: windows and rotation (`schedule.dfy`), reservations, jobs and the
  planner as a state machine (`scheduler.dfy`), what its runs keep (`scheduler_life.dfy`,
  `scheduler_plan.dfy`), which channel is served when and with what (`scheduler_service.dfy`),
  that posts wait for their slot (`scheduler_punctual.dfy`), how a cycle goes
  (`scheduler_cycle.dfy`) and that none is left without a job (`scheduler_carried.dfy`), what
  ending and cutting off clear (`scheduler_cutoff.dfy`), copies that the table loses sight of
  (`scheduler_copies.dfy`), when a channel is never served again (`scheduler_starve.dfy`), the
  loops in place (`scheduler_store.dfy`).
- **apimanager rate limiter**: the pruned sliding window (`ratelimit.dfy`).

`text.dfy` holds UUID texts, decimal printing and reading; `totals.dfy` sums over maps and
rows.

Each core has a value-level state with step functions, which are its specification. A class
holds the fields that the program updates; its methods have the program's branches and loops,
and their postconditions equate the new fields with the specification's step on the old ones.
The run theorems are lemmas about the step functions.

SHA-256 (section 6.2 of FIPS 180-4) is an arbitrary function from texts to bar-free digests.
Nothing assumes it free of collisions: the theorems say "equal histories, or here are two
texts with one digest". UUIDs, clocks, votes' arrival order, timeouts, the answers of
Telegram and of look-ups are parameters.

## Where the code and its words part

- The ledger's "golden rule" that all entries sum to zero (botpay/internal/store/ledger.go:3)
  is false: `RecordDeposit` writes one credit. `Ledger.EntriesSumToDeposits` gives the sum,
  which is what was deposited, so it is zero exactly when that is.
- An edit is said to break the chain from there on (botpay/internal/store/chain.go:7-9). An
  edited last row whose hash is recomputed passes, and so does a chain with its tail cut off
  (`Chain.RehashedEditMovesToNext`, `Chain.AcceptedPrefix`); a kept tip digest shows both
  (`Chain.TipBindsHistory`).
- Credit is said to be non-withdrawable (botpay/internal/store/transfer.go:42).
  `CreateWithdraw` asks TON and credit together, and completing takes TON only: credit alone
  backs a withdrawal and TON turns negative (`WalletBooks.CreditBacksWithdrawal`). TON stays
  at least Frozen throughout a run exactly when TON alone covered each withdrawal it created
  (`WalletBooks.RunStaysCoveredIff`).
- `CompleteWithdraw` and `RejectWithdraw` look at no status; the books survive exactly on
  pending requests (`WalletBooks.FinishKeepsBooksIff`).
- A join reward's payment has no idempotency key. A credit whose mark fails, whose answer is
  lost, or after which the process stops leaves the row pending, and the next pass credits
  it again (`EscrowPayments.TwoFailedMarksPayTwice`). The number of credits is the number of
  those gone unmarked, or one more (`EscrowPayments.ExtraCreditsWentUnmarked`), and a pending
  row is paid at most once by what follows exactly when none has gone unmarked
  (`EscrowPayments.PaidAtMostOnceIff`).
- A reversed reward is said never to be paid (ads-bot/internal/store/models.go:379-381). That
  holds exactly when it had not been credited and waited in no settlement pass when it was
  reversed (`EscrowPayments.ReversedNeverPaidIff`, `EscrowPayments.FailedMarkThenReversed`).
  Before the row's settlement time it always holds
  (`EscrowPayments.ReversedInTimeIsNeverPaid`).
- Approval reads the status and later writes it unconditionally: two approvals at once can
  make one rental finish twice (`EscrowFinish.TwoAdminsFinishTwice`). A rental past review
  finishes at most once exactly when its finishes, one if it is active, and its approvals
  that have read and not written come to at most one (`EscrowFinish.FinishesOnceIff`).
- The owner pool is reserved after the rental is active, and joins in between weaken the
  overspend bound by the pool (`EscrowBounds.OverspendIsBounded`). The bound without the
  pool holds exactly when the largest multiple of the reward below the budget leaves room
  for the pool (`EscrowLatePool.StaysBelowIff`).
- A slot outside today's window is said to be computed again tomorrow
  (admanager-bot/internal/scheduler/scheduler.go:158-159). It is not: it is counted from the
  last reservation only. `SchedulerStarve.ServedSomeTimeIff` gives the exact condition,
  `SchedulerStarve.StarvedForever` that no run undoes it, `SchedulerStarve.OneHourStarves` a
  campaign whose first pass gets there, and `SchedulerStarve.FirstDayIsTheLast` that cycles no
  longer than the closed part of the day end all posting after one window.
- Cutting a campaign off is said to delete every live cycle at once
  (admanager-bot/internal/scheduler/scheduler.go:238-242). A row that a failing reminder has
  marked Failed keeps its message (`SchedulerCutOff.FailedReminderStrandsThePost`), and a
  keep-last ad that does not delete what it repeats leaves its earlier copy, which the table
  no longer lists (`SchedulerCopies.KeepLastLeavesACopy`). `SchedulerCutOff.CutOffClearsIff`
  gives the exact condition in any state, `SchedulerCopies.CarefulCutOffIff` what is left of it
  when copies are deleted and channels found.
- A job's limit of three attempts lets it start four times (`SchedulerCutOff.FourthStart`), and
  never more often (`SchedulerLife.ReservationsAreOrderly`).
- The planner leaves one interval for each post of a cycle, so that cycles follow each other
  without overlap (admanager-bot/internal/scheduler/scheduler.go:138-140). But a reply stays
  for its own minutes: the cycle is over by the next slot exactly when the replies stay no
  longer than an interval each, all together (`SchedulerService.OverByNextSlotIff`).
- A send job that does not find its campaign counts as done. Its reservation stays pending
  without a job, and the pair is not served again before the cut-off
  (`SchedulerPunctual.WaitsForNothingIff`).
- A reply that does not find its ad counts as done, and one that fails four times fails the
  reservation "ID|index", which does not exist. Either way the row stays posted with no job
  to go on or to end it (`SchedulerCarried.CarriedNextIff`,
  `SchedulerCarried.LostAdStrandsTheCycle`).
- A rental is checked for completion after each join. An owner pool that takes the whole
  budget leaves the rental active, taking no join, until its end date
  (`EscrowUpkeep.PoolUsesItUp`); nothing else does (`EscrowUpkeep.OnlyPoolUsesUp`).
- A rejection of a rental is final exactly when no approval of it is between its read and its
  write (`EscrowUpkeep.RejectedForGoodIff`).
- The Ed25519 worker's minimal wallet name refuses every deduction of a user whose ID has
  fewer than seven digits (`ConsensusRuns.ShortUserNeedsTheOtherThree`).

## Model

| member | source | states |
|---|---|---|
| Chain.VerifyChain | botpay/internal/store/chain.go:89-145 | for every table and batch size the batched loop ends and is valid exactly when each row has its consecutive number, the right previous hash and the right hash; otherwise it reports the first bad row's number, position and failed check |
| Chain.PayloadInjective | botpay/internal/store/chain.go:26-38 | the joined text fixes all seven hashed fields, for any content of the type column, when the previous hash holds no bar |
| Chain.PayloadAmbiguousWithBar | botpay/internal/store/chain.go:27-35 | that condition is needed: with a bar there, two rows of different type and amount share a text |
| Chain.TipBindsHistory | botpay/internal/store/chain.go:89-145 | two accepted chains with one tip digest have the same length and agree on every hashed field and hash of every row, or exhibit a collision |
| Chain.AcceptedPrefix | botpay/internal/store/chain.go:112-140 | every prefix of an accepted chain is accepted, so a truncation passes |
| Chain.EditIsReportedThere | botpay/internal/store/chain.go:130-138 | editing the content of one row of an accepted chain makes exactly that row the first bad one, with a hash mismatch, or exhibits a collision |
| Chain.RehashedEditMovesToNext | botpay/internal/store/chain.go:112-140 | with the edited row's hash recomputed, the next row is reported for its link; the chain passes exactly when there is no next row |
| Ledger.LedgerStore.RecordTransfer | botpay/internal/store/ledger.go:17-113 | the five refusals in the program's order; otherwise both balances and both linked rows, debit first |
| Ledger.LedgerStore.RecordDeposit | botpay/internal/store/ledger.go:116-158 | one linked credit row and the raised balance, or a missing wallet |
| Ledger.RunReconciles | botpay/internal/store/ledger.go:17-192 | after every run the chain is acceptable, each row's BalanceAfter is its wallet's balance so far, VerifyLedgerBalance holds for every wallet, total TON equals total deposits |
| Ledger.RunStaysSolvent | botpay/internal/store/ledger.go:17-158 | with deposits that are not negative, no balance is, and none exceeds the total deposited, so 64 bits suffice when that total fits |
| Ledger.LatestRowShowsBalance | botpay/internal/store/ledger.go:175-192 | the last row of a wallet shows its stored balance |
| Ledger.TransferIsTakenIff | botpay/internal/store/ledger.go:17-113 | a transfer is recorded if and only if it is for something, between two different known wallets, and the sender has that much; then exactly that much moves and a debit and a credit row say so, else nothing changes |
| Ledger.DepositIsTakenIff | botpay/internal/store/ledger.go:116-158 | a deposit is recorded if and only if its wallet is known; it raises that balance alone and writes one credit row with its chain hash |
| Ledger.EntriesSumToDeposits | botpay/internal/store/ledger.go:1-3 | credits less debits over all rows of any run equal the deposits, against the zero rule |
| Wallets.WalletStore.Deposit | botpay/internal/store/wallet_repo.go:89-122 | a known chain hash is answered with its row and changes nothing; otherwise one row and the TON |
| Wallets.WalletStore.Deduct | botpay/internal/store/wallet_repo.go:131-197 | the checks in order, the row of a repeated payment, one row and the new balances; `WalletEffects.DeductIsTakenIff` and `WalletEffects.DeductPaysCreditFirst` fix when it is taken and out of which money |
| Wallets.WalletStore.Transfer | botpay/internal/store/transfer.go:43-123 | one or two wallets and two rows, nothing on any refusal; `WalletEffects.TransferIsTakenIff` and `WalletEffects.TransferMovesKinds` fix when and which money |
| WalletEffects.DeductIsTakenIff | botpay/internal/store/wallet_repo.go:131-197 | a payment is taken if and only if its amount is positive, its wallet has that much unfrozen money of both kinds together, and neither its key nor its hash is on a row; otherwise nothing changes |
| WalletEffects.DeductPaysCreditFirst | botpay/internal/store/wallet_repo.go:160-176 | credit falls by the smaller of credit and amount, TON by the rest, and TON only when the credit is then gone; no other wallet changes |
| WalletEffects.TransferIsTakenIff | botpay/internal/store/transfer.go:43-123 | a transfer is taken if and only if its amount is positive, both wallets exist, the sender has that much unfrozen money and its hashes are new |
| WalletEffects.TransferMovesKinds | botpay/internal/store/transfer.go:61-94 | the sender pays credit first, the receiver gains exactly that credit as credit and that TON as TON, nobody else changes |
| WalletEffects.ReceiptsByKind | botpay/internal/store/wallet_repo.go:200-220 | a deposit raises TON alone and an admin gift credit alone, of that wallet alone |
| WalletEffects.CreateFreezes | botpay/internal/store/withdraw_repo.go:14-31 | a withdrawal is accepted if and only if unfrozen TON and credit cover amount and fee, and freezes exactly that |
| WalletEffects.FinishAfterCreate | botpay/internal/store/withdraw_repo.go:14-90 | rejecting the new request restores every wallet; completing it leaves the wallet as before with that much less TON |
| WalletBooks.RunKeepsBooks | botpay/internal/store/wallet_repo.go:89-220 | in every run that finishes only pending requests: TON+Credit is the sum of the wallet's rows less its done withdrawals, Frozen the sum of its pending ones, Credit not negative |
| WalletBooks.FinishKeepsBooksIff | botpay/internal/store/withdraw_repo.go:44-90 | finishing a request keeps those books if and only if it is pending or carries no money |
| WalletBooks.RunStaysSolvent | botpay/internal/store/models.go:61-63 | TON+Credit-Frozen and Frozen never fall below zero in such a run |
| WalletBooks.CreateKeepsCoveredIff | botpay/internal/store/withdraw_repo.go:14-31 | an accepted withdrawal keeps TON at least Frozen if and only if TON alone covered it |
| WalletBooks.RunStaysCoveredIff | botpay/internal/store/withdraw_repo.go:14-90 | every state of a run of all seven operations has TON >= Frozen if and only if TON alone covered each withdrawal the run created; refused calls do not matter |
| WalletBooks.RunStaysCovered | botpay/internal/store/withdraw_repo.go:14-67 | so a caller that creates withdrawals only against TON that covers them ends every run with TON >= Frozen |
| WalletBooks.CreditBacksWithdrawal | botpay/internal/store/withdraw_repo.go:14-67 | without the guard: n of credit, a withdrawal of n and its completion leave TON at -n and Credit at n |
| WalletBooks.TransferConserves | botpay/internal/store/transfer.go:61-94 | total TON and total Credit are each conserved, sender and receiver equal included |
| WalletRetries.RepeatIsNoOp | botpay/internal/store/wallet_repo.go:89-153 | a call that repeats an answered key, any number of operations later, changes nothing and is answered with the same row |
| WalletRetries.RetryEquivalence | botpay/internal/store/wallet_repo.go:89-197 | leaving out any set of repeated calls from a history gives the same final state |
| WalletRetries.RunKeepsOneRowPerKey | deploy/migrations/004_fix_tx_hash_index.sql:9-11 | no two rows of a reachable state share a hash, no two payments a non-empty (wallet, service, ref) |
| Invoices.InvoiceRow.AddInvoiceReceipt | botpay/internal/store/invoice_repo.go:40-62 | the receipt is added always; a pending invoice that reaches its amount is paid and the call says so |
| Invoices.InvoiceRow.ExpireOldInvoice | botpay/internal/store/invoice_repo.go:75-79 | only a pending invoice past its time expires |
| Invoices.PaidExactlyByFirstReaching | botpay/internal/store/invoice_repo.go:40-79 | over any operations received is the running sum, and a call returns paid if and only if its running sum is the first to reach the amount with nothing closing the invoice before |
| Invoices.PaidAtMostOnce | botpay/internal/store/invoice_repo.go:40-62 | at most one call of a run returns paid |
| Consensus.Worker.Verify | botpay/internal/consensus/workers.go:55-92 | replay, then the worker's own checks in order, and one record per transaction |
| Consensus.VerdictStands | botpay/internal/consensus/local_db.go:82-136 | a worker judges an ID once: whatever it is asked in between, every later call with it is refused as a replay and the first verdict, approval or refusal, stays on record |
| Consensus.Engine.Verify | botpay/internal/consensus/worker.go:132-219 | for every order of votes and timeouts a call is approved if and only if there are workers and those picked with a true vote reach the threshold; the counters add up to the workers, and the statistics get each vote once |
| Consensus.CountsAreVerdict | botpay/internal/consensus/worker.go:167-209 | the two counters equal the sizes of the sets of approving and other collected workers, timeouts added |
| ConsensusRuns.ReplayBound | botpay/internal/consensus/worker.go:132-219 | over all interleavings, approved calls of one transaction ID number at most workers divided by threshold, also when timeouts drop recorded votes |
| ConsensusRuns.ShippedApprovesOnce | botpay/internal/consensus/local_db.go:82-136 | with the four shipped workers and threshold three an ID is approved at most once |
| ConsensusRuns.CountsAddUp | botpay/internal/consensus/worker.go:167-205 | every finished call of every run counts each worker once, as yes or no |
| ConsensusRuns.ApprovalMeansChecked | botpay/internal/consensus/workers.go:229-244 | an approval collected in any run means that worker's conditions on the call's transaction hold |
| ConsensusRuns.ApprovedAmountIsBounded | botpay/internal/consensus/workers.go:333-344 | approval by the shipped quorum implies 0 < amount <= 10^15 |
| ConsensusRuns.PassedWithdrawIsUnanimous | botpay/internal/consensus/guard.go:89-116 | a withdrawal that passes was approved by all four, so 0 < amount <= 10^14 and its address is not empty |
| ConsensusRuns.ShortUserNeedsTheOtherThree | botpay/internal/consensus/guard.go:23-54 | a deduction of a user with fewer than seven digits passes only with exactly the other three workers |
| ConsensusRuns.DepositPassesOnce | botpay/internal/consensus/guard.go:57-86 | of two checks of one chain hash, for whatever user and amount, at most one passes |
| ConsensusQuorum.SoundMeetsNoObjection | botpay/internal/consensus/workers.go:55-370 | none of the four shipped workers objects if and only if amount, age, sender name, service and cryptography meet all their checks |
| ConsensusQuorum.EachObjectsToItsOwn | botpay/internal/consensus/workers.go:55-370 | each check is asked for by its own workers only |
| ConsensusQuorum.DeductIsSoundIff | botpay/internal/consensus/guard.go:23-54 | no worker objects to a deduction if and only if the user's ID has seven digits, the service is named, the amount is within 10^14, and clock and cryptography are in order |
| ConsensusQuorum.WithdrawIsSoundIff | botpay/internal/consensus/guard.go:89-116 | to a withdrawal, for a user ID of any length, if and only if amount, address, clock and cryptography are in order |
| ConsensusQuorum.DepositIsSoundIff | botpay/internal/consensus/guard.go:57-86 | to a deposit if and only if its hash has ten characters and amount, clock and cryptography are in order |
| ConsensusQuorum.GuardsPassIff | botpay/internal/consensus/guard.go:23-116 | deductions and deposits with a hash pass with three of the four approvals, deposits without one always, withdrawals when besides nothing else was collected |
| ConsensusQuorum.EachVoteCountsOnce | botpay/internal/consensus/worker.go:167-205 | a call adds one vote of the right kind to the statistics of each worker it picked and nothing for a timeout |
| ConsensusQuorum.FreshVoteIsYes | botpay/internal/consensus/workers.go:55-92 | in any interleaving a worker whose own checks pass approves an ID that no other call has |
| ConsensusQuorum.HonestQuorumApproves | botpay/internal/consensus/worker.go:167-209 | when workers that reach the threshold are collected and their checks pass, a fresh ID is approved whatever the others vote and however many time out |
| ConsensusQuorum.ThreeCarryADeduction | botpay/internal/consensus/guard.go:23-54 | any three of the shipped four carry a fresh deduction whatever the fourth does |
| ConsensusQuorum.AllFourCarryAWithdrawal | botpay/internal/consensus/guard.go:89-116 | a fresh withdrawal passes when all four are collected and their checks pass |
| EscrowBooks.SpentIsExplained | ads-bot/internal/store/store.go:321-516 | in every reachable state of the interleaved statements each rental's Spent is its owner pool plus its pending and settled rewards less those recorded and not yet added |
| EscrowBooks.SettledAndReversedAreTerminal | ads-bot/internal/store/store.go:346-371 | no run changes a settled or reversed reward row, its count of credits aside |
| EscrowBooks.JoinsCountOnce | ads-bot/internal/store/store.go:321-333 | in every reachable state there is at most one reward row for a rental and user, and at most one of their joins counts for the rental, however they interleave |
| EscrowPayments.ExtraCreditsWentUnmarked | ads-bot/internal/tgbot/lockrental.go:366-399 | in every reachable state, with lost answers, failing marks and crashes anywhere, a row has been credited as often as credits of it went unmarked, or once more; exactly as often while pending out of hand, once more when settled; no row is twice in a pass |
| EscrowPayments.CreditedAtMostOnce | ads-bot/internal/tgbot/lockrental.go:366-399 | in runs where no applied credit goes unmarked, none is credited twice and a settled one exactly once |
| EscrowPayments.PaidAtMostOnceIff | ads-bot/internal/tgbot/lockrental.go:366-399 | a pending row is paid at most once by all that follows, nothing more going wrong, if and only if no credit of it has gone unmarked |
| EscrowPayments.TwoFailedMarksPayTwice | ads-bot/internal/tgbot/lockrental.go:386-389 | a run of two passes whose marks fail, in which one join is paid twice |
| EscrowPayments.NeverCreditedAgainIff | ads-bot/internal/tgbot/lockrental.go:366-399 | in any reachable state a row is never credited again by any run if and only if it is out of pending and the pass has it at most in hand |
| EscrowPayments.ReversedNeverPaidIff | ads-bot/internal/store/models.go:379-382 | for a pending row reversed now, the promise that it is never paid holds if and only if it has not been credited and waits in no settlement pass |
| EscrowPayments.ReversedInTimeIsNeverPaid | ads-bot/internal/tgbot/lockrental.go:214-222 | the handler's own condition: with a forward clock a reversal before the row's settlement time means that it is never paid |
| EscrowPayments.FailedMarkThenReversed | ads-bot/internal/tgbot/lockrental.go:386-389 | a run in which a paid row is pending in no pass, and reversed |
| EscrowFinish.FinishesAtMostApprovals | ads-bot/internal/store/store.go:497-506 | MarkRentalDoneIfFinished returns true at most as often as the rental was approved; `EscrowUpkeep.CheckedIsActive` says when it does |
| EscrowFinish.FinishesOnceIff | ads-bot/internal/store/store.go:456-506 | in any reachable state past review, no continuation with a forward clock finishes the rental twice if and only if its finishes, one if active, and its approvals between read and write are at most one |
| EscrowFinish.FinishesAtMostOnce | ads-bot/internal/tgbot/lockrental.go:161-193 | at most once over the whole run when each approval writes over a status still pending review |
| EscrowFinish.TwoAdminsFinishTwice | ads-bot/internal/store/store.go:456-467 | two concurrent approvals and a continuation with a forward clock in which one rental finishes twice |
| EscrowBounds.OverspendIsBounded | ads-bot/internal/tgbot/lockrental.go:228-275 | with at most k joins under way Spent stays below Budget + k times the reward, plus the owner pool unless joins always leave the pool its room |
| EscrowLatePool.StaysBelowIff | ads-bot/internal/tgbot/lockrental.go:176-193 | in whatever order the pool comes, every run with at most k joins under way keeps Spent below Budget + k times the reward if and only if the largest multiple of the reward below the budget, plus the pool, is below the budget |
| EscrowLatePool.LatePoolOverspends | ads-bot/internal/tgbot/lockrental.go:176-193 | for all other terms and every k, a run in the program's order that reaches that bound |
| EscrowUpkeep.CheckedIsActive | ads-bot/internal/store/store.go:497-506 | after a check an active rental takes joins; one that was active and did not is done; one with money and time left, one that was not active and all others are unchanged |
| EscrowUpkeep.ApprovedForThirtyDays | ads-bot/internal/store/store.go:456-467 | an approved rental is active for thirty days as long as it has money left, and no longer |
| EscrowUpkeep.UsedUpSince | ads-bot/internal/tgbot/lockrental.go:228-327 | in every reachable state an active rental with its budget used up had it used up by an added join, a reserved pool or an approval, and has not been checked since |
| EscrowUpkeep.OnlyPoolUsesUp | ads-bot/internal/tgbot/lockrental.go:228-275 | when every added join is followed by its check and approvals are sole, only a pool reservation leaves an active rental with its budget used up |
| EscrowUpkeep.PoolUsesItUp | ads-bot/internal/tgbot/lockrental.go:442-491 | a run, for any budget, in which the pool does: no check comes, and the rental takes no join at any time |
| EscrowUpkeep.RejectedForGoodIff | ads-bot/internal/store/store.go:470-479 | a rejection changes that status alone, and no continuation undoes it if and only if no approval is between read and write |
| EscrowUpkeep.JoinIsAdmittedIff | ads-bot/internal/tgbot/lockrental.go:228-239 | a join is admitted if and only if the rental is active, has money left and has not passed its end, at the price paid then |
| EscrowUpkeep.JoinIsAddedOnceIff | ads-bot/internal/tgbot/lockrental.go:241-262 | an admitted join is recorded if and only if the user has no reward for the rental; then its price and one join are added once, else nothing |
| EscrowUpkeep.FirstRecordWaits | ads-bot/internal/tgbot/lockrental.go:228-275 | a recorded reward carries the price the join was checked with and waits for a day |
| EscrowUpkeep.NotPaidWithinADay | ads-bot/internal/tgbot/lockrental.go:228-399 | no run whose scans come less than a day after it was recorded credits a reward |
| EscrowStore.Store.ReversePendingRewardByUser | ads-bot/internal/store/store.go:378-394 | the loop reverses the queried rows one by one |
| EscrowStore.ReversalClearsUser | ads-bot/internal/tgbot/lockrental.go:214-222 | afterwards exactly the user's pending rewards for the channel are reversed, every other row unchanged |
| EscrowStore.Store.SettleDueRewards | ads-bot/internal/tgbot/lockrental.go:366-399 | each due row is credited and marked, left pending when the credit fails, or credited and left pending when its answer is lost or the mark fails |
| EscrowStore.PassIsItsEvents | ads-bot/internal/tgbot/lockrental.go:366-399 | undisturbed, the loop does what its statements, failing ones included, do as events of the interleaved machine |
| EscrowStore.PassHandlesTheDue | ads-bot/internal/store/store.go:336-353 | a pass settles, leaves or pays each due reward as its two calls end, touches no other row, and takes all that are due unless there are two hundred |
| EscrowStore.Store.CheckExpiredRentals | ads-bot/internal/tgbot/lockrental.go:355-364 | the loop checks every rental past its end date |
| EscrowStore.ScanFinishesExpired | ads-bot/internal/store/store.go:442-453 | the scan finishes exactly the active rentals whose end date has come and changes no other |
| EscrowStore.Store.AssignSlotsToRental | ads-bot/internal/store/store.go:553-573 | the first free slots, at most count, go to the rental |
| EscrowStore.AssignmentTakesFreeSlots | ads-bot/internal/store/store.go:536-573 | only free slots are taken, rented ones keep their rental, and fewer than asked are taken only when none is left free |
| EscrowStore.Store.PayFreeBotOwners | ads-bot/internal/tgbot/lockrental.go:442-491 | the pool leaves the budget at once and each known owner not yet rewarded gets an equal share |
| EscrowStore.SharesWithinPool | ads-bot/internal/tgbot/lockrental.go:442-491 | what the owners are promised lies between zero and the pool |
| EscrowStore.OwnersGetShares | ads-bot/internal/tgbot/lockrental.go:442-491 | each known owner of a taken slot without a share gets exactly one of the promised size, nobody else any, earlier shares stay |
| Schedule.RotationIndex | admanager-bot/internal/models/schedule.go:63-75 | always an index of an ad when there are ads, for negative elapsed times too |
| Schedule.WindowMeansBounds | admanager-bot/internal/models/schedule.go:18-60 | an instant is in the daily window if and only if it lies in the bounds of its day or of the day before |
| Schedule.CurrentStartIsTheIntervals | admanager-bot/internal/models/schedule.go:34-60 | the current start is that of the one interval, over all days, holding the instant, and 0 to 1439 minutes have elapsed |
| Schedule.RotationIsFair | admanager-bot/internal/models/schedule.go:63-75 | each aligned block of ads times rotation minutes shows each ad exactly rotation minutes |
| Schedule.RotationKeepsOrder | admanager-bot/internal/models/schedule.go:63-75 | in every round the ads have their shares in their order |
| Schedule.RotationBeforeStart | admanager-bot/internal/models/schedule.go:63-75 | for negative elapsed minutes the order runs backwards |
| SchedulerLife.SplitReadsBack | admanager-bot/internal/scheduler/scheduler.go:437-447 | a reply payload is split into the ID and index it was built from |
| SchedulerLife.StepKeepsLife | admanager-bot/internal/scheduler/scheduler.go:266-520 | every planner pass, fetch, start and handler keeps the row and job invariant, extends histories only, reopens nothing, and leaves ended cycles ended |
| SchedulerLife.ReservationsAreOrderly | admanager-bot/internal/store/reservation.go:81-190 | in every reachable state each reservation has at most two live messages, all in its history; Sent shows one at least, Expired none; what is in the channel of it was posted for it; IDs are unique; no job was started more than four times |
| SchedulerLife.ReplyIndexIsNatural | admanager-bot/internal/scheduler/scheduler.go:376-447 | no reachable reply job carries a negative index |
| SchedulerLife.EndedStaysEnded | admanager-bot/internal/store/reservation.go:132-142 | however a run goes on, no posted history is rewritten, an expired reservation lists no live message again and what is left in its channel stays as it is, and a copy the table has lost sight of stays unless its ID is posted again |
| SchedulerLife.AllDueAreFetched | admanager-bot/internal/store/job.go:24-36 | a tick takes up exactly the pending jobs that are due, unless there are fifty |
| SchedulerPunctual.PassServesRows | admanager-bot/internal/scheduler/scheduler.go:175-209 | each row a pass adds gets one send job for its campaign, ad and channel, due at its slot, and with a lead one reminder that long before or at once; the pass adds no other job |
| SchedulerPunctual.RunIsOnSlot | admanager-bot/internal/scheduler/scheduler.go:184-193 | in every reachable state each send job is for the campaign, ad and channel of the row its payload names, and is due at that row's slot until it is started |
| SchedulerPunctual.OpenRowsHaveTheirJob | admanager-bot/internal/scheduler/scheduler.go:175-193 | in every reachable state an open row has exactly one send job, waiting or running, or done because no campaign was found |
| SchedulerPunctual.WaitsForNothingIff | admanager-bot/internal/scheduler/scheduler.go:319-331 | a run of the send job leaves the row open with the job done if and only if ad and channel are found and the campaign is not |
| SchedulerPunctual.PostedOnTime | admanager-bot/internal/scheduler/scheduler.go:316-341 | with a forward clock the first message of a row never comes before its slot |
| SchedulerPunctual.FailedTry | admanager-bot/internal/scheduler/scheduler.go:289-305 | a failed try is repeated after 5, 10 and 15 minutes, and the fourth fails the job |
| SchedulerPunctual.FourthTryFailsRow | admanager-bot/internal/scheduler/scheduler.go:299-303 | and with it the reservation that is its payload |
| SchedulerCycle.PostSchedules | admanager-bot/internal/scheduler/scheduler.go:316-370 | a successful send leaves the row showing that message alone, and schedules exactly the safety net where set and, where there are replies, reply 0 one interval later |
| SchedulerCycle.CycleStarts | admanager-bot/internal/scheduler/scheduler.go:343-366 | with nothing else due before a horizon, that begins an undisturbed cycle |
| SchedulerCycle.RepliesGoOut | admanager-bot/internal/scheduler/scheduler.go:376-434 | over the ticks of an undisturbed cycle replies 0, 1, … go out in order, each in place of the one before and for its own minutes, until only the end is due |
| SchedulerCycle.ReplyGoesOut | admanager-bot/internal/scheduler/scheduler.go:376-434 | one tick of it: the row shows main message and this reply alone, the job is done, and the next reply, or the end after the last, is due this reply's minutes later |
| SchedulerCycle.CycleEnds | admanager-bot/internal/scheduler/scheduler.go:449-474 | its last tick expires the row, leaves nothing of it in the channel and no job of it pending |
| SchedulerCarried.PostedRowsAreCarried | admanager-bot/internal/scheduler/scheduler.go:316-474 | in every reachable state of runs that lose no reply, a posted row whose ad has replies has a job waiting or running that sends exactly its next reply, or after the last one ends the cycle |
| SchedulerCarried.CarriedNextIff | admanager-bot/internal/scheduler/scheduler.go:376-434 | one run of any job leaves a posted row without such a job if and only if it is the row's reply and does not find its ad, or fails for the fourth time |
| SchedulerCarried.LostAdStrandsTheCycle | admanager-bot/internal/scheduler/scheduler.go:385-388 | a tick in which the ad is not found changes no row, marks the job done and leaves nothing due |
| SchedulerCarried.RunHasOneReply | admanager-bot/internal/scheduler/scheduler.go:356-420 | in every reachable state there is at most one reply job for each row and index |
| SchedulerCutOff.BelongsExactly | admanager-bot/internal/store/job.go:127 | the prefix test takes in a job if and only if it is for exactly that reservation |
| SchedulerCutOff.EndCycleEndsExactlyIt | admanager-bot/internal/scheduler/scheduler.go:461-474 | the row expires with nothing live, in a channel that is found only unlisted copies are left, exactly its pending jobs are cancelled, every other row and job is unchanged |
| SchedulerCutOff.CutOffClearsIff | admanager-bot/internal/scheduler/scheduler.go:243-262 | no Sent, Pending or Confirmed reservation and no pending job of the campaign is left, other campaigns are unchanged; its channels fall silent if and only if no row of it has an unlisted copy and each row with a message in its channel is Sent and its channel found |
| SchedulerCopies.CarefulCutOffIff | admanager-bot/internal/scheduler/scheduler.go:484-520 | after any run in which channels are found, message IDs are not zero and keep-last ads delete what they repeat, that is: if and only if no Failed row shows a message |
| SchedulerCopies.KeepLastLeavesACopy | admanager-bot/internal/scheduler/scheduler.go:510-518 | a day's run without failures in which a keep-last ad that does not delete its earlier copy leaves it behind past the cut-off |
| SchedulerCopies.LostCopyOutlivesCutOffs | admanager-bot/internal/scheduler/scheduler.go:484-520 | an unlisted copy outlives every cut-off of every continuation, unless its ID is posted for the row again |
| SchedulerCutOff.FailedReminderStrandsThePost | admanager-bot/internal/scheduler/scheduler.go:296-304 | a run of one day from the empty store whose cut-off leaves a message in the channel |
| SchedulerCutOff.FourthStart | admanager-bot/internal/scheduler/scheduler.go:266-304 | a run in which a job with a limit of three attempts is started four times |
| SchedulerPlan.LastIsLatest | admanager-bot/internal/store/reservation.go:193-206 | the value is the latest slot of the pair, present exactly when the pair has a row |
| SchedulerPlan.PassPlansSafely | admanager-bot/internal/scheduler/scheduler.go:105-211 | every row a pass adds lies in its campaign's window, exactly one cycle of the current ad after the pair's latest slot or at the window's start, and at most one reservation a pair stays open |
| SchedulerPlan.RunPlansSafely | admanager-bot/internal/scheduler/scheduler.go:69-211 | the same of every row of every reachable state, with jobs interleaved anywhere |
| SchedulerPlan.SlotsRise | admanager-bot/internal/scheduler/scheduler.go:138-156 | the slots of a pair rise by a minute at least |
| SchedulerService.ServedIff | admanager-bot/internal/scheduler/scheduler.go:105-172 | a pass gives a channel a row if and only if the campaign has not ended and has ads, interval and open window, no row of the pair is pending or confirmed, and its next slot, the window's start or one interval for each post of the current ad after its latest slot, lies in the window and within the lead |
| SchedulerService.ClosedPassIff | admanager-bot/internal/scheduler/scheduler.go:105-121 | outside the window a pass closes every open and posted row and every pending job of a campaign that has not ended, and those only; in every other case it changes no row or job that is there |
| SchedulerService.OverByNextSlotIff | admanager-bot/internal/scheduler/scheduler.go:138-142 | a cycle posted at its slot is over by the pair's next slot if and only if its replies together stay no longer than an interval each |
| SchedulerService.CopiesFollowAd | admanager-bot/internal/scheduler/scheduler.go:484-520 | after a main post each other posted row of that channel whose keep-last copy went out lists that copy alone, its earlier messages deleted or left as set; every other row is unchanged |
| SchedulerService.CopiesFollowReply | admanager-bot/internal/scheduler/scheduler.go:484-520 | the same after a reply |
| SchedulerStarve.ServedNowIff | admanager-bot/internal/scheduler/scheduler.go:105-211 | a pass serves a pair if and only if campaign and window are open, the pair is idle, its due slot lies in the window and has come within the lead |
| SchedulerStarve.ServedSomeTimeIff | admanager-bot/internal/scheduler/scheduler.go:145-172 | a pass at some time serves an idle pair if and only if at some instant of the window the then current ad's cycle leads from the last slot into the window; ads may have any numbers of replies |
| SchedulerStarve.StarvedForever | admanager-bot/internal/scheduler/scheduler.go:154-162 | when it does not, no run with unchanged settings of the campaign ever adds a row for the pair |
| SchedulerStarve.OneHourStarves | admanager-bot/internal/scheduler/scheduler.go:154-162 | the first pass of an hourly campaign open for one hour ends in such a state |
| SchedulerStarve.FirstDayIsTheLast | admanager-bot/internal/scheduler/scheduler.go:154-162 | with no cycle longer than the closed part of the day, all slots a pair ever gets lie within one window length |
| SchedulerStore.Store.CancelReservationJobs | admanager-bot/internal/store/job.go:117-134 | the loop cancels the pending jobs whose payload belongs to the reservation |
| SchedulerStore.Store.CancelCampaignJobs | admanager-bot/internal/store/job.go:92-110 | the loop cancels the campaign's pending jobs |
| SchedulerStore.Store.CancelCampaignReservations | admanager-bot/internal/store/reservation.go:220-244 | the loop cancels the campaign's pending and confirmed rows and no others |
| SchedulerStore.Store.CutOffCampaign | admanager-bot/internal/scheduler/scheduler.go:243-262 | the three loops in a row are the machine's cut-off |
| SchedulerStore.Store.AfterPost | admanager-bot/internal/scheduler/scheduler.go:484-520 | each other live row of the channel whose keep-last copy went out lists only the new message; what it listed before is deleted, or stays in the channel unlisted, as the ad is set |
| SchedulerStore.Store.SetReservationReplyPosted | admanager-bot/internal/store/reservation.go:99-122 | the main message stays, the reply replaces the one before, the history grows |
| SchedulerStore.Store.SendAd | admanager-bot/internal/scheduler/scheduler.go:316-370 | branches, updates and new jobs of the handler are the step that `SchedulerCycle.PostSchedules` and `SchedulerService.CopiesFollowAd` speak of |
| SchedulerStore.Store.SendReply | admanager-bot/internal/scheduler/scheduler.go:376-434 | branches, updates and the next job of the handler are the step that `SchedulerCycle.ReplyGoesOut` and `SchedulerService.CopiesFollowReply` speak of |
| SchedulerStore.Store.EndCycle | admanager-bot/internal/scheduler/scheduler.go:461-474 | the row and its jobs as the machine's step says |
| SchedulerStore.Store.RunJob | admanager-bot/internal/scheduler/scheduler.go:266-309 | dispatch, retry after 5, 10 and 15 minutes, failure that also fails the reservation |
| SchedulerStore.Store.PlanCampaigns | admanager-bot/internal/scheduler/scheduler.go:92-212 | the nested loops with their early exits are the machine's pass |
| SchedulerStore.Store.PlanCampaign | admanager-bot/internal/scheduler/scheduler.go:105-211 | end date, broken settings, closed window, no ads, then every channel with the current ad |
| SchedulerStore.Store.PlanChannel | admanager-bot/internal/scheduler/scheduler.go:145-210 | the guards in order, then the row, its send job and its reminder: the step that `SchedulerService.ServedIff` and `SchedulerPunctual.PassServesRows` speak of |
| SchedulerStore.ResolveChannels | admanager-bot/internal/scheduler/scheduler.go:215-236 | the tags' channels, then the active named ones, each at its first occurrence |
| SchedulerStore.DistinctIsExact | admanager-bot/internal/scheduler/scheduler.go:216-234 | that list holds every channel of the sources and none twice |
| RateLimit.SimpleInMemoryLimiter.Allow | apimanager/internal/middleware/ratelimit.go:55-73 | the filtering loop keeps what is after the cutoff; a refused call stores nothing |
| RateLimit.DecidesAsFullHistory | apimanager/internal/middleware/ratelimit.go:55-73 | with a clock that does not step back, every call is decided as by a limiter that never forgets |
| RateLimit.LetThroughIff | apimanager/internal/middleware/ratelimit.go:55-73 | with a forward clock a call is let through if and only if fewer than the limit of its key's earlier let-through calls lie within the last minute |
| RateLimit.MinuteHoldsAtMostMax | apimanager/internal/middleware/ratelimit.go:63-73 | that reference admits at most maxPerMin calls of a key in any half-open minute |
| RateLimit.LimitHolds | apimanager/internal/middleware/ratelimit.go:55-73 | and so does the pruned limiter |

## Left out

- Consensus.Worker.Verify: no signatures, and the Merkle worker's last hash is not kept; the
  cryptography is one boolean that comes from outside, and writes of records succeed. One
  class stands for the four workers, with the checks of each.
- Consensus.Engine.Verify: one pick per worker models the channel and the deadline; durations,
  the list of votes and the generated ID of a call without one are left out.
- SchedulerLife.StepKeepsLife: handlers and passes are atomic steps; overlapping handlers of one
  reservation are not modelled. Fetching takes due jobs in row order instead of by time.
- SchedulerCycle.RepliesGoOut: asks that the messages' IDs are not zero and differ from the main
  one, that every look-up and copy of the cycle succeeds, and that no other job is due before
  the horizon.
- SchedulerCarried.PostedRowsAreCarried: asks that an ad is looked up alike each time and that
  no reply is lost; `SchedulerCarried.CarriedNextIff` says exactly when one is.
- SchedulerService.OverByNextSlotIff: counts from the slot; a post that goes out late moves its
  cycle by as much.
- WalletEffects.DeductPaysCreditFirst: asks for credit that is not negative, which
  `WalletBooks.RunKeepsBooks` shows of every run.
- EscrowUpkeep.OnlyPoolUsesUp: asks that the check after each join comes, as it does when the
  process is not stopped in between.
- SchedulerStarve.StarvedForever: asks that the campaign's window, interval and ads do not
  change.
- Schedule.WindowMeansBounds: days are 24 hours long; no daylight-saving changes.
- EscrowBounds.OverspendIsBounded: asks for a positive reward, an owner percentage between
  0 and 100 and approvals that write over a status still pending review; amounts are reals,
  so floating-point rounding is not modelled.
- EscrowLatePool.StaysBelowIff: speaks of the same rentals and runs.
- WalletBooks.RunStaysSolvent: integers are unbounded; 64-bit wrap-around is not modelled in
  the wallets (for the ledger `Ledger.RunStaysSolvent` gives the bound).
- SchedulerStore.Store.SendReply: a negative reply index returns quietly where the program
  would stop; `SchedulerLife.ReplyIndexIsNatural` shows that no run gets there.
- SchedulerStore.Store.RunJob: statistics, end-of-campaign and unknown job types are left out.
- SchedulerStore.Store.PlanCampaign: the status change to completed at the end date is left out.
- EscrowStore.Store.SettleDueRewards: one settlement pass at a time, as one process runs it;
  due rows come in row order. A stopped process is the event `Crash` of the machine.
- SQL isolation and row locks: one database transaction is one step. Requests and jobs are
  known by their row number.
- Ledger columns outside the hash (ID, CreatedAt, ref, note) take no part in the chain theorems;
  ledger and wallet runs are separate systems, and `RecordTransfer` looks at no frozen money.
- Settling owner rewards: the same pass as for join rewards.
- Paying the budget when a rental is approved, slot release and admin confirmation.
- Deletions in Telegram succeed when the channel is found. Pinning, choosing which keep-last
  ad was sent again, and channel look-ups by tag come from outside or are left out.
- Telegram handlers, keyboards, web front end, NATS and HTTP wiring, configuration, plain
  record keeping: no property beyond one body.
