# GoLedger: a verified model of the double-entry ledger

This project models GoLedger's ledger core and proves, for all inputs, all runs
and all interleavings, what the repository promises of it.

- **Tables and commands** (`Ledger.dfy`). The five tables as one value, the SQL
  statements as functions on it with the schema's CHECK, unique and foreign-key
  refusals, and each use case as a function that rereads current rows.
- **The code as it runs** (`Database.dfy`, `TransferUseCase.dfy`,
  `HoldUseCase.dfy`). A class whose fields are the tables; methods that lock,
  read each account once, keep it in memory and write absolute values. Any
  statement and the commit may fail at any time. Each method is proved to leave
  exactly what the function in `Ledger.dfy` leaves, or nothing at all, and to fail
  where the function succeeds only if the database did.
- **Runs** (`Projections.dfy`, `Invariants.dfy`, `Reachability.dfy`,
  `Guarantees.dfy`, `Acceptance.dfy`, `Effects.dfy`, `Batches.dfy`,
  `Reversals.dfy`). An invariant kept by every committed step, and what follows
  from it: conservation, double entry, encumbrance, balance policy, hold lifecycle,
  events and reversal chains; exactly which commands are accepted and why the
  others are refused; and row by row what each accepted command leaves.
- **Interleavings** (`Locality.dfy`, `Interleaving.dfy`, `Progress.dfy`,
  `DeadlockFreedom.dfy`, `ClientLinks.dfy`). Transactions that take row locks one at a time, compute from
  the rows as read, and write absolute values at commit. Every sequence of actions
  ends in the tables of a serial run in commit order, a transaction with its locks
  decides as the committed tables would, and somebody can always go on
  while reversal links come in order; exactly that order is what it takes.
- **Readers** (`EntryChain.dfy`, `Reconciliation.dfy`, `HistoricalBalance.dfy`,
  `Pagination.dfy`), on corrupt tables as well as on reachable ones.
- **Publisher** (`EventPublisher.dfy`, `OutboxDrain.dfy`, `PublisherSafety.dfy`,
  `PublishedLedger.dfy`). The loop, how soon it drains the outbox, how often it
  delivers, and the ledger's own guarantees with passes in between.

Amounts are exact integers, counted in the smallest unit in use. Ids are numbers
standing for ULIDs in their order.

What is assumed:

- `FreshRun`: the ids a step draws are in no row yet.
- `World.nextId` and `Tick`: the interleaved model has one id generator whose ids
  rise and one clock that never goes back, shared by all transactions. A ULID
  generator gives that within one process only. Ids and clock readings are drawn
  after the locks, as in the code; from both together `Interleaving.Serializable`
  derives `FreshRun` and the per-account order that historical balances need. The
  results about serial runs ask for `FreshRun`, and for `OrderedRun` where the
  order matters, and for nothing more of ids and clocks.

Where the code and its comments or documents disagree, the model follows the code:

- `UpdateAccountEncumbered` bumps the account version without an entry
  (`internal/infrastructure/postgres/generated/account.sql.go:230-234`), while
  `VerifyEntryChain` expects entry versions contiguous from 1. A chain with an entry
  after a placed or voided hold is therefore reported broken although nothing was
  tampered with: `Guarantees.HonestChainBroken` is such a ledger, and
  `EntryChain.ChainVerdict` says exactly where the breaks are.
- Reconciling an account reads its balance and the sum of its entries in two
  statements outside any transaction. A commit in between makes an honest account
  a discrepancy unless what it posts nets to zero
  (`Reconciliation.ReconciledWhileCommitting`).
- Reconciliation asks for 10000 accounts and gets at most 1000
  (`Reconciliation.ReportCoverage`).
- `CaptureHold` does not compare the target with the hold's account; the transfers
  CHECK (`internal/infrastructure/postgres/migrations/000001_initial.up.sql:24`)
  is what refuses it (`Guarantees.SchemaNeverMet`, `Guarantees.SelfCaptureWouldMint`).
- Sorted account locks do not order the waits on the unique reversal index. A batch
  with at most one link, or with its links in id order, never deadlocks with others
  like it; any other acceptable batch can, with a partner whose links are in order
  (`ClientLinks.LinkOrderDecides`). No HTTP or gRPC request type carries a link, so
  only a Go caller of the use case can send such a batch.

## Model

| member | source | states |
|---|---|---|
| Interleaving.Serializable | internal/usecase/transfer_usecase.go:223-301 | after any sequence of begin, lock, compute, commit, abort and clock actions of any transactions, the committed tables are those of the committed commands run serially in commit order, with fresh ids and per-account order, and satisfy the whole invariant |
| Interleaving.CommitIsApply | internal/infrastructure/postgres/generated/account.sql.go:190-211 | the absolute rows a transaction computed from its earlier reads are, at commit, what the command does to the tables of that moment: no update is lost |
| Interleaving.CommitKeepsOther | internal/infrastructure/postgres/generated/account.sql.go:115-117 | a commit changes no row, sequence number or reversal link that another prepared transaction's outcome rests on |
| Interleaving.InterleavedHistory | internal/infrastructure/postgres/generated/entry.sql.go:67-74 | after any interleaving the queried balance at any time is the sum of the account's entries up to it |
| Interleaving.InterleavedConservation | internal/usecase/ledger_usecase.go:26-46 | after any interleaving every currency sums to zero, every balance is the sum of its entries and every row meets its policy |
| Interleaving.OnlyCommitsShow | internal/usecase/transfer_usecase.go:218-226 | the log of a run is exactly the commits that took place, one for each committed transaction and of its own command; no transaction commits twice |
| Interleaving.EndedForGood | internal/usecase/transfer_usecase.go:218-226 | a transaction that was refused or aborted never commits later |
| Progress.PrepareDecides | internal/usecase/hold_usecase.go:291-320 | after any interleaving a transaction with all its locks succeeds exactly when the command would on the committed tables and no row it locked and found missing has appeared since; otherwise it is refused with the same error |
| Progress.OpenedTooLate | internal/usecase/transfer_usecase.go:228-236 | that second condition can fail: an account opened after its missing row was asked for is not seen |
| Progress.AcceptedCommandsCommit | internal/usecase/hold_usecase.go:271-414 | with no transaction open, every command the committed tables accept begins, locks, computes, commits with its full effect and is logged |
| Locality.ApplyLockstep | internal/usecase/hold_usecase.go:271-390 | a command that succeeds on the rows it locked does the same writes on any tables that agree with those rows and with the few queries it makes without row locks |
| DeadlockFreedom.DeadlockFree | internal/usecase/transfer_usecase.go:139-141 | in every reachable world with an unfinished transaction some transaction can lock, compute or commit, when each batch inserts its reversal links in id order |
| DeadlockFreedom.RunsToCompletion | internal/usecase/hold_usecase.go:277-299 | from every such world all open transactions can be completed without aborting any, within a stated number of steps |
| ClientLinks.LinkOrderDecides | internal/usecase/transfer_usecase.go:77-79 | an acceptable batch, joining transactions whose links are in id order, can deadlock with them if and only if its own links are not in id order |
| ClientLinks.UnorderedLinksDeadlock | internal/infrastructure/postgres/migrations/000007_reversal_unique_index.up.sql:3-4 | from any reachable tables: the partner and the actions after which neither can go on, each acceptable on those very tables |
| ClientLinks.ClientLinksCanDeadlock | internal/adapter/repository/postgres/transfer_repo.go:63-70 | such a world is reached from an empty database |
| TransferUseCase.CollectUniqueAccountIDs | internal/usecase/transfer_usecase.go:513-530 | exactly the endpoints of the transfers, each once |
| TransferUseCase.SortIds | internal/usecase/transfer_usecase.go:139-141 | the same ids, strictly ascending |
| TransferUseCase.ProcessTransfer | internal/usecase/transfer_usecase.go:304-446 | computed from the in-memory accounts it is the transfer computed from current rows, error for error, and after it the in-memory accounts are in step with the rows again |
| TransferUseCase.ProcessAll | internal/usecase/transfer_usecase.go:251-265 | the tables are those of the transfers one after another, the in-memory accounts agree with the rows at the end, and the transfers returned are the ones inserted |
| TransferUseCase.ExecuteTransferTransaction | internal/usecase/transfer_usecase.go:213-301 | commits the whole batch and returns exactly its transfers, or leaves the tables as they were |
| TransferUseCase.ValidateInputs | internal/usecase/transfer_usecase.go:123-136 | passes exactly when every transfer has two different accounts and a positive amount; otherwise the first offending transfer's error |
| TransferUseCase.RetryTransaction | internal/adapter/repository/postgres/retrier.go:41-83 | at most three reruns, each after a deadlock or serialization failure, and none given up but for another error, the fourth failure or the backoff; at most one run commits, and the outcome is the last run's |
| TransferUseCase.CreateBatchTransfer | internal/usecase/transfer_usecase.go:109-167 | the committed batch and exactly its transfers, or the error and no trace |
| TransferUseCase.ReverseTransfer | internal/usecase/transfer_usecase.go:555-585 | commits the swapped transfer linked to its original, or reports why not and changes nothing |
| Databases.Database.CreateTransfer | internal/adapter/repository/postgres/transfer_repo.go:39-73 | appends the row unless the CHECK, the unique reversal index (reported as already reversed) or the reversal foreign key refuses it |
| HoldUseCase.HoldFunds | internal/usecase/hold_usecase.go:49-156 | the hold, the encumbered balance and the event as specified, or no change |
| HoldUseCase.VoidHold | internal/usecase/hold_usecase.go:158-254 | the void as specified, or no change |
| HoldUseCase.CaptureHold | internal/usecase/hold_usecase.go:256-441 | the capture computed from accounts read before either is written, as specified on current rows, or no change |
| HoldUseCase.CreateAccount | internal/usecase/account_usecase.go:48-125 | a new account at balance 0, encumbered 0, version 0, or no change |
| Reachability.ReachableInvariant | internal/usecase/transfer_usecase.go:304-446 | every run with fresh ids ends in tables that satisfy every part of the invariant, for its own history |
| Reachability.PostTransferKeeps | internal/usecase/transfer_usecase.go:358-443 | a transfer keeps the whole invariant and adds one posting to each of its two accounts' histories |
| Reachability.CaptureKeeps | internal/usecase/hold_usecase.go:339-410 | a capture keeps the whole invariant, ending its hold and releasing its amount |
| Guarantees.Conservation | internal/usecase/ledger_usecase.go:32-44 | in every reachable ledger each balance is the sum of its account's entries and each currency's balances sum to zero |
| Guarantees.DoubleEntry | internal/usecase/transfer_usecase.go:358-410 | each transfer has exactly two entries, opposite in amount and on different accounts, and there are no others |
| Guarantees.EncumbranceIsActiveHolds | internal/usecase/hold_usecase.go:196-204 | the encumbered balance is the sum of the account's active holds and covers each of them, so the clamp to zero is never taken |
| Guarantees.VoidRestoresAvailable | internal/usecase/hold_usecase.go:181-204 | an active hold can always be voided, which gives back exactly the available balance it took and leaves the balance alone |
| Guarantees.PolicyEverywhere | internal/infrastructure/postgres/migrations/000008_account_balance_invariants.up.sql:7-9 | every reachable account is within its policy; one that allows neither sign stays at 0/0 |
| Guarantees.SchemaNeverMet | internal/domain/account.go:24-46 | the use cases' own checks suffice: no row update of any command ever meets an accounts CHECK, and the transfers CHECK is met exactly by a capture to the hold's own account |
| Guarantees.SplitCaptureRefused | internal/usecase/hold_usecase.go:357-364 | doing CaptureHold's combined update in two steps would be refused midway exactly when the account disallows negatives and has less available than the hold |
| Guarantees.SplitCaptureReachable | internal/adapter/repository/postgres/account_repo.go:133-139 | such an account and hold are reachable |
| Guarantees.SelfCaptureWouldMint | internal/usecase/hold_usecase.go:361-383 | without the transfers CHECK a capture to the hold's own account would leave the balance above its entries by the amount |
| Guarantees.HonestChainBroken | internal/infrastructure/postgres/generated/account.sql.go:230-234 | a reachable ledger, untampered, whose chain is reported broken: version 3 after version 1 |
| Guarantees.HoldLifecycle | internal/usecase/hold_usecase.go:181-194 | over any run a hold's account and amount never change, and once voided or captured it never changes again |
| Guarantees.CapturesMatchTransfers | internal/usecase/hold_usecase.go:387-410 | a captured hold was captured by exactly one transfer, of its account and amount, and that transfer captured no other hold |
| Guarantees.EveryTransferAnnounced | internal/usecase/transfer_usecase.go:412-443 | every committed transfer is named by exactly one event, in commit order: on its own aggregate, as reversed if it is linked and as created if not, or as the capture of exactly one captured hold of its account and amount |
| Guarantees.EveryHoldStepAnnounced | internal/usecase/hold_usecase.go:104-122 | a hold has exactly one event per committed step of its life, of the right type, and there are no others |
| Guarantees.SequencesAreGapless | internal/infrastructure/postgres/generated/outbox.sql.go:14-22 | each aggregate's events are numbered 1..k in commit order, with k at most 2 |
| Acceptance.TransferAcceptedIff | internal/usecase/transfer_usecase.go:313-356 | a transfer is accepted exactly when its accounts exist, differ and share a currency, the amount is positive, the giver can give, the taker can take and its link is free; otherwise it is refused with the first of the stated errors that applies |
| Acceptance.BatchRefusedFirst | internal/usecase/transfer_usecase.go:123-136 | a batch with inputs that cannot be transfers is refused for the first of them, and one with a missing account for that, before anything is posted |
| Acceptance.ReversalAcceptedIff | internal/usecase/transfer_usecase.go:547-585 | a transfer can be reversed exactly when it exists, is not reversed yet and its receiver can give the amount back to a sender that can take it; with the error of each refusal |
| Acceptance.HoldAcceptedIff | internal/usecase/hold_usecase.go:59-83 | a hold is accepted exactly for a positive amount the account can give; with the error of each refusal |
| Acceptance.VoidAcceptedIff | internal/usecase/hold_usecase.go:176-189 | a hold can be voided exactly when it is active; with the error of each refusal |
| Acceptance.CaptureAcceptedIff | internal/usecase/hold_usecase.go:274-320 | a hold can be captured exactly when it is active and the target is another account of the same currency that can take the amount; with the error of each refusal |
| Acceptance.RefusalIsFinal | internal/adapter/repository/postgres/retrier.go:74-83 | what the tables refuse is never taken for a failure of the database, so it is never run again |
| Effects.OpenEffect | internal/usecase/account_usecase.go:74-92 | an accepted opening adds one account with the currency and policy asked for, at balance, encumbered and version 0, and nothing else |
| Effects.AccountLifecycle | internal/infrastructure/postgres/generated/account.sql.go:190-234 | over any run no account is removed, and id, currency and policy stay as opened |
| Effects.BatchEffect | internal/usecase/transfer_usecase.go:358-443 | an accepted batch appends each transfer as asked, with its debit, its credit and its created or reversed event at the batch's time; each account's balance moves by exactly the inputs' net, its version by its postings, and nothing else changes |
| Effects.ReversalEffect | internal/usecase/transfer_usecase.go:566-579 | an accepted reversal is that batch for the original's amount from its receiver to its sender, linked to it |
| Effects.HoldEffect | internal/usecase/hold_usecase.go:85-122 | an accepted hold is one new active hold of exactly the amount on the account, whose available balance is lower by that much and balance unchanged, and nothing else |
| Effects.VoidEffect | internal/usecase/hold_usecase.go:191-223 | a void ends that hold and releases exactly its amount, and nothing else |
| Effects.CaptureEffect | internal/usecase/hold_usecase.go:339-410 | a capture ends that hold and moves exactly its amount from its account to the target asked for, releasing it, with one transfer, two entries and one event at its time, and nothing else |
| Batches.BatchIsOneByOne | internal/usecase/transfer_usecase.go:109-167 | a batch succeeds exactly when its transfers succeed one at a time in order, and leaves the same rows but for timestamps; once its inputs and accounts are checked it is refused with the same error |
| Reversals.AtMostOneReversal | internal/infrastructure/postgres/migrations/000007_reversal_unique_index.up.sql:3-4 | in every run a transfer has at most one reversal |
| Reversals.ReversalChains | internal/usecase/transfer_usecase.go:566-579 | in serial runs with links made only by ReverseTransfer, reversal paths only lead forward in commit order and a path of k transfers has no net effect when k is even and the original's effect when k is odd |
| Reversals.InterleavedReversalChains | internal/usecase/transfer_usecase.go:555-585 | the same after any interleaving in which clients set no links, the original being read before the reversal's transaction; each reversal undoes a committed transfer and none is reversed twice |
| EntryChain.VerifyEntryChain | internal/usecase/reconciliation_usecase.go:139-187 | on any rows the breaks are exactly those told from the rows' fields, row by row and balance before version; valid exactly when every row links to the one before and the first is version 1 |
| EntryChain.ChainVerdict | internal/usecase/reconciliation_usecase.go:149-184 | on every reachable ledger no balance break is reported, and one version break exactly for each entry that follows encumbrance-only updates; the account's version is its entries plus those updates |
| EntryChain.HoldFreeChainsValid | internal/usecase/reconciliation_usecase.go:133-139 | without placed or voided holds every chain is valid and the version is the entry count |
| EntryChain.OrderedUniquely | internal/infrastructure/postgres/generated/entry.sql.go:130-134 | with strictly increasing versions the ordered query has one possible result |
| EntryChain.ValidChainTelescopes | internal/usecase/reconciliation_usecase.go:133-138 | on rows from anywhere, a valid verdict, a zero start and entries that add up force the last balance to be the sum of the amounts |
| Reconciliation.ReconcileAccount | internal/usecase/reconciliation_usecase.go:48-69 | the balance seen by the first statement, the sum seen by the second, their difference, and reconciled exactly when they agree |
| Reconciliation.ReconciledWhileCommitting | internal/usecase/reconciliation_usecase.go:49-59 | with commits in between, the difference is minus what they posted to the account, so it is reconciled exactly when that nets to zero |
| Reconciliation.ReconcileAllAccounts | internal/usecase/reconciliation_usecase.go:72-90 | one result per listed account, in order, or the error of a missing one |
| Reconciliation.CheckLedgerConsistency | internal/usecase/reconciliation_usecase.go:95-116 | exactly the currency rows whose balance and entries differ |
| Reconciliation.GenerateReconciliationReport | internal/usecase/reconciliation_usecase.go:200-237 | discrepancies are exactly the listed accounts whose readings disagree and chain breaks exactly those whose chain has breaks, each once and in listing order, with the counts and ledger flag to match |
| Reconciliation.ReconciledMeansCurrenciesMatch | internal/infrastructure/postgres/generated/consistency.sql.go:32-50 | on any tables, if every account reconciles then every currency's balance and entry totals match |
| Reconciliation.CurrenciesMatchMeansTotalsMatch | internal/infrastructure/postgres/generated/consistency.sql.go:14-18 | on any tables the currency rows add up to the grand totals, so if all rows match the grand totals match |
| Reconciliation.ConsistencyByRows | internal/usecase/ledger_usecase.go:32-44 | on any tables the coarse check accepts exactly when the currency rows' balances sum to zero and their entries do |
| Reconciliation.TamperedBalances | internal/usecase/ledger_usecase.go:32-44 | tampered balances are noticed exactly when they do not offset each other |
| Reconciliation.TamperedEntry | internal/usecase/ledger_usecase.go:32-44 | one tampered entry is always noticed |
| Reconciliation.ReachableLedgerReconciles | internal/usecase/reconciliation_usecase.go:42-69 | on every reachable ledger every account reconciles, every currency row is zero on both sides and both grand totals are zero |
| Reconciliation.ReachableReport | internal/usecase/reconciliation_usecase.go:200-237 | over a ledger that goes on committing: no discrepancy exactly when what was posted between each account's two readings nets to zero, a consistent ledger, and as broken chains exactly those with an entry after encumbrance-only updates by then |
| Reconciliation.ReportCoverage | internal/usecase/reconciliation_usecase.go:72-75 | the report looks at every account exactly when there are at most 1000 |
| Reconciliation.ValidatePagination | internal/domain/validation.go:154-175 | the size asked for up to 1000, 1000 above, 50 when none is asked for, and an offset that is not negative |
| HistoricalBalance.HistoricalBalanceIsSum | internal/infrastructure/postgres/generated/entry.sql.go:67-74 | the last entry by time and id not after t carries the sum of the account's entries up to t, repeated timestamps included |
| HistoricalBalance.OrderedRunKeepsOrder | internal/usecase/transfer_usecase.go:239-265 | account by account, entry ids increase and times do not decrease along a run whose steps draw them in order |
| Pagination.Walk | internal/usecase/transfer_usecase.go:491-511 | following the cursor while rows are inserted ends, returns ids strictly descending, and misses no transfer of the account that was there at the start |
| Pagination.ShortPageIsAll | internal/infrastructure/postgres/generated/transfer.sql.go:130-136 | a page below the limit holds every row the query selects, so no next cursor means nothing was left |
| Pagination.PageLimit | internal/usecase/transfer_usecase.go:491-500 | 20 when no size is asked for, at most 100 |
| EventPublisher.Publisher.ProcessEvents | internal/infrastructure/eventpublisher/publisher.go:102-136 | exactly the fetched rows are handled, once each, whatever fails; deliveries are logged in order |
| EventPublisher.Publisher.RecordFailure | internal/infrastructure/eventpublisher/publisher.go:141-169 | one more attempt is counted, and the row is dead-lettered when attempts are used up and the write succeeds |
| OutboxDrain.GoodPassDrains | internal/infrastructure/eventpublisher/publisher.go:114-133 | a pass uses up at least as many remaining failures as it fetched events |
| OutboxDrain.DrainBound | internal/infrastructure/eventpublisher/publisher.go:102-169 | n pending events are all published or dead-lettered after floor(m*n/b) + m passes, whatever the receiving side answers |
| PublisherSafety.ReachableSafe | internal/infrastructure/postgres/generated/outbox.sql.go:179-184 | pending, published and dead-lettered split the events; an event is delivered at most once, and is published exactly if it was delivered |
| PublisherSafety.SettledForGood | internal/infrastructure/postgres/generated/outbox.sql.go:254-258 | a published or dead-lettered event is never attempted again and never changes again |
| PublisherSafety.DeadAfterExactly | internal/infrastructure/eventpublisher/publisher.go:141-156 | with store writes succeeding, attempts count the failed deliveries and an event is dead-lettered exactly when m of them have failed |
| PublisherSafety.RowsTellTheirPast | internal/infrastructure/postgres/generated/outbox.sql.go:254-258 | whatever store writes fail, a row's attempts are its recorded failures, it is published exactly if a delivery was marked and dead exactly if a recorded failure, the m-th or later, was marked so; all else is as it arrived |
| PublisherSafety.DeliveryCount | internal/infrastructure/eventpublisher/publisher.go:125-132 | whatever store writes fail, an event was delivered once for each pass that delivered it but failed to mark it, and once more if it is published; so twice only after such a failure |
| PublisherSafety.OldestFirst | internal/infrastructure/postgres/generated/outbox.sql.go:179-184 | a pass delivers oldest first |
| PublishedLedger.PassesUnseen | internal/infrastructure/postgres/generated/outbox.sql.go:14-22 | with publisher passes anywhere between them, ledger steps leave the tables they leave alone, but for delivery bookkeeping |
| PublishedLedger.PublishedSequences | internal/infrastructure/postgres/generated/outbox.sql.go:14-22 | so sequence numbers stay 1..k per aggregate and event ids distinct, which is what the publisher relies on |
| PublishedLedger.PublishedNames | internal/usecase/transfer_usecase.go:412-443 | so each committed transfer is still named by exactly one event, of the right kind |

## Left out

- HTTP and gRPC handlers, routers, converters, CLI, metrics, logging, tracing, configuration: plumbing around the ledger.
- Authentication, roles and user management: separate from the ledger's tables.
- Idempotency middleware and its Redis store: a duplicate that arrives while the first is processing still runs the handler, so this code decides nothing about at-most-once under concurrency.
- Audit rows and the audit hash chain: written beside the ledger and read by no modelled operation. Inserting one takes the single row lock of `audit_log_chain_state` (`internal/infrastructure/postgres/migrations/000012_audit_log_hash_chain.up.sql:68`), in the transactions that create transfers, holds and accounts, after every other lock; being last and one, it adds no deadlock to `DeadlockFreedom.DeadlockFree`.
- Transfer metadata, event_at, payload fields other than the named transfer, account names, updated_at and hold expiry: carried through, decided on by nothing modelled.
- TransferUseCase.ValidateInputs: does not model the refusal of oversized metadata, a single test on a field nothing else decides on.
- HoldUseCase.CreateAccount: does not model the refusal of invalid names and currencies, single tests before the transaction.
- E-mail and password validation: single tests outside the ledger.
- Numeric width: balances are unbounded exact numbers and versions unbounded integers; conversion between decimal and numeric is not modelled.
- ULIDs and text collation: ids are numbers in id order; two ids that compare equal in one order and differ in another are not modelled.
- Ids drawn by attempts that roll back: no row carries them, so the model may draw them again.
- Ambiguous commit results, statement timeouts and cancelled contexts: a commit either happens or fails and leaves what a rollback leaves.
- Interleaving.Serializable: statements between the last lock and the commit are one step, which is sound because they touch only locked rows, private rows and the reversal index modelled as a lock.
- Offset pagination and the account, hold and dead-letter listings: plain filters and sorts.
- DeletePublished: sequence numbers are the maximum plus one over the surviving rows, so the numbering results are about runs without it.
- EventPublisher.Publisher.ProcessEvents: one publisher at a time; two publishers polling the same rows are not modelled.
- Pagination.Walk: one table read per page is taken as a snapshot, as a single SELECT is.
