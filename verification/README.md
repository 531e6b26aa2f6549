# Off-chain settlement: a verified model

The off-chain side keeps balances in memory, records every change in a durable log, cuts that log
into batches a circuit can prove, and settles the batches on chain. This project models that
subsystem in Dafny and proves what its parts promise together.

- **Ledger** (`Text`, `Decimals`, `Types`, `Hashing`, `CanonicalJson`, `StateRoot`, `Ledgers`,
  `LedgerLaws`, `LocalStates`, `OffchainManagers`). Accounts, applied deposit ids, consumed nullifiers
  and the state root. `LocalStates` and `OffchainManagers` are heap objects with real aliasing; their
  methods are proved against the value-level `Apply`, and the laws are proved about that.
- **Log and service** (`SettlementLogs`, `TransitionOrder`, `SettlementModel`, `SettlementOutcomes`,
  `SettlementServices`).
  The row table with its statuses and the cursor, the reordering by root links, and the service calls.
  Each service method is proved to take `View()` where the function of the same name in
  `SettlementModel` takes it; `SettlementOutcomes` says what those functions leave behind.
- **Builders** (`SettlementBuilders`, `Witnesses`, `Commitments`, `CommitmentTwins`,
  `SnapshotBuilders`, `SnapshotSimulation`, `BuildFailures`).
- **Whole runs** (`ChainInvariant`, `PendingBatches`, `SettlementRuns`, `PendingWitnesses`,
  `Settleability`, `EmittedWitnesses`, `NullifierReuse`, `Rehydrations`).
- **Drivers** (`BatchServices`, `SequencerModel`, `Sequencers`, `Draining`, `DrainPlan`,
  `DrainedLogs`, `BusyDrains`, `StalledQueues`).

The main results, each for all inputs, runs or reachable states:

1. Every run keeps the chain: rows read committed, then the rows of one batch that is included or
   was turned down, then pending; adjacent rows meet in a root; the cursor stands where the
   uncommitted part starts; the last root is the manager's (`EveryRunKeepsChain`, `ChainShape`).
2. A build succeeds if and only if the next batch is `Settleable`, a condition on its rows and the
   secrets given (`BuildSucceedsExactly`); what it emits is the longest stretch with one withdrawal.
3. `Drain` always stops, also when any finite number of calls arrives between its passes. With
   ordinary rows and calls and an honest prover and chain it empties the queue, and what it settled
   are the log's operations in order, linked from the committed root to the manager's root; with no
   arrivals in exactly one batch per withdrawal plus one for trailing deposits.
4. A queue stalls if and only if a pass ends with its batch turned down, and it stays stalled if and
   only if nobody commits that batch after all or marks its row included by hand.
5. Roots never repeat along a run, so ordering by root links recovers the application order from any
   listing order; on any table, it succeeds without loss if and only if the rows form one chain.
6. Rehydration restores the lost ledger if and only if every row is still pending.
7. Rolling back to a snapshot erases whatever happened since; the rollback baseline is the ledger at
   the last accepted submit.
8. Equal nullifiers and equal roots mean equal inputs. For commitment preimages the tables that share
   theirs with another table are characterised exactly (`TwinOfSameSizeExactly`, `TwinExactly`).
9. Every call says what it leaves behind, refused or not: which error, each exactly when its check is the
   first to fail, which fields of a row, a request, an update or a response carry which input, and which
   batch numbers are spent (`PendingBuildEnds`, `SnapshotBuildEnds`, `WithdrawalRecorded`, `SubmitBatch`).

## Where the code and its promises part

- **A batch the chain turned down stalls the queue.** `SettleOnce` documents that a failed submit
  reopens the batch (internal/sequencer/settlement_sequencer.go:79-84), but on `accepted = false` the
  batch service has already marked the rows failed (internal/service/batch_service.go:377-386), so the
  reopen that follows finds nothing. A pass stalls the queue exactly when it reports that the batch was
  not accepted (`PassStallsExactly`), and this happens (`TurnedDownReachable`). The stall then lasts
  exactly until the failed batch is committed after all, as by an accepted resubmission, or its row is
  marked included by hand (`StallLastsExactly`); both ways out are shown to put the queue in order
  (`RecommitResumes`, `RemarkAndReopenResumes`).
- **Turning down a settled batch.** Statuses are rewritten by batch id alone, so a settled batch that is
  submitted again and turned down has its rows marked failed (`SettledRowsStayExactly`).
- **The proof guard does not bind the operations.** The guard is documented to reject a proof whose
  public inputs do not bind to the submitted settlement (internal/service/batch_service.go:94-99). It
  compares with commitments that come with the request and never recomputes them from the update: it
  binds the two roots and the four given commitments and nothing else (`GuardBindsExactly`,
  `GuardIgnoresOperations`), and it pins the operations exactly when the commitments are the update's
  own (`GuardPinsOperationsExactly`).
- **The response to a turned-down submit** still reports the batch as accepted and its new root as
  current (internal/service/batch_service.go:389-402); the reported root is the committed one exactly
  when the batch was accepted or the cursor already stood there (`ReportedRootIsCommittedExactly`).
- **Rehydration** is documented as restoring balances, nonces and nullifiers after a restart
  (internal/service/offchain_settlement_service.go:86-94). Committed rows are not replayed, so it does so
  only while every row is pending (`RehydrationRestoresExactly`).
- **Owner spelling.** The ledger trims owners; the witness builder compares raw text with trimmed text.
  A batch with untrimmed owners is rejected unless what it moved under other spellings cancels out
  (`OwnerSettles`, `OwnerSpelled`), and a withdrawal recorded under an untrimmed owner is in no
  account's nonce (`EmittedWithdrawalBound`).
- **Shared secrets.** The nullifier is derived from secret and nonce alone, so two owners with the same
  secret, the default one included, refuse each other's withdrawals
  (`SharedSecretCollides`, `NextWithdrawalSucceedsExactly`).
- **Cyclic roots.** The walk over root links keeps visited entries, so on a cyclic table it returns one
  transition twice and loses another (`CyclicRootsLoseTransitions`). No run of the service fills such a
  table: in a reachable log all starts differ (`RowStartsDistinct`). On any table ordering succeeds
  without loss exactly when the rows form one chain (`OrdersExactly`), for which it is enough that some
  measure of roots grows along every row (`RankedOrdersAll`).
- **Separators in fields.** Fields are joined without escaping. Among tables of one shape the preimage is
  shared exactly when a field holds `|`, in tables of two columns or more, or a `;` stands in a last
  field with a successor or a first field with a predecessor (`TwinOfSameSizeExactly`). The number of
  entries is not bound at all: a table is alone with its preimage only if it is empty, or one row
  without the separator that could split it (`TwinExactly`).
- **The cursor's pending root** is overwritten by a commit and is then the manager's root exactly when
  nothing is left pending (`PendingRootAfterCommit`).

## Assumptions

- SHA-256 is one arbitrary function that is injective and yields `0x`-prefixed non-empty text.
- A pinned genesis root is no root of a non-empty account table (`GenesisApart`); the computed genesis
  root satisfies this (`ComputedGenesisApart`).
- Each service call is one atomic step with no store errors; withdraw ids come fresh from their sequence;
  the chain accepts a batch only if it starts at the chain's current root, which is the cursor's
  committed root, and under the batch's own new root (`Lawful`).
- `created_at` is distinct for every row, so each listing returns its rows in insertion order. One
  insertion-ordered list stands for both tables; the order between the two is visible to the
  specifications alone.
- Balances and nonces are kept as natural numbers where the source keeps their decimal text; printing
  and reading back is proved to be the identity.
- The sequencer runs over one settlement service without state rollback, as the main program wires it.

## Model

| member | source | states |
|---|---|---|
| Text.TrimKeepsMiddle | internal/state/account_state.go:26-36 | trimming removes outer white space and nothing else |
| Text.LessTotal | internal/state/account_state.go:144-158 | the order the accounts are sorted by is total |
| Text.LessFirstDifference | internal/state/account_state.go:144-158 | one text is below another exactly when it is smaller at the first place where they differ, or ends there |
| Decimals.Decimal | internal/state/account_state.go:160-184 | a printed amount is trimmed, all digits, and reads back as the number it was printed from |
| Decimals.ParsesExactly | internal/state/account_state.go:160-184 | text parses as a number exactly when, trimmed, it is digits with that value behind an optional sign, a minus only before zero |
| Hashing.NullifierPreimageInjective | internal/state/nullifier.go:65-84 | the preimage determines secret and nonce even if the secret holds the separator |
| Hashing.NullifiersEqualExactly | internal/state/nullifier.go:65-84 | two nullifiers are equal exactly when trimmed secrets and numeric nonces are |
| Hashing.PreimageText | internal/state/nullifier.go:65-84 | what is hashed, written out: tag, trimmed secret and plain nonce for a nullifier, tag and trimmed address for a destination |
| CanonicalJson.AccountListJsonInjective | internal/state/root.go:21-29 | the JSON of an account list determines the list, whatever characters its fields hold |
| StateRoot.ListingExists | internal/state/account_state.go:144-158 | every account table has a strictly sorted listing |
| StateRoot.ListingUnique | internal/state/account_state.go:144-158 | and only one, so the listing does not depend on map order |
| StateRoot.SortedByOwner | internal/state/account_state.go:144-158 | a listing runs by owner, and within one owner by denom |
| StateRoot.RootText | internal/state/root.go:21-29 | the preimage of a one-account table with plain fields, written out character by character |
| StateRoot.RootInjective | internal/state/root.go:21-29 | equal roots mean equal account tables |
| Ledgers.ApplyExactly | internal/state/withdrawal.go:47-101 | a call succeeds exactly when its fields are valid and id or nullifier, balance and nonce allow it, and then has exactly that move's effect |
| Ledgers.DepositRefused | internal/state/local_state.go:79-98 | which error a deposit gets, each exactly when its own check is the first to fail |
| Ledgers.DepositCredits | internal/state/local_state.go:79-98 | an accepted deposit adds its amount to the trimmed account, and leaves every other balance, every nonce and the nullifiers as they were |
| Ledgers.WithdrawalRefused | internal/state/withdrawal.go:47-101 | which error a withdrawal gets, each exactly when its own check is the first to fail |
| Ledgers.WithdrawalDebits | internal/state/withdrawal.go:47-101 | an accepted withdrawal takes its amount from the trimmed account and steps its nonce, and leaves every other account and the deposits as they were |
| LedgerLaws.BalancesTelescope | internal/state/local_state.go:79-98 | over any run an account gains its deposits, loses its withdrawals, and its nonce counts them |
| LedgerLaws.AnyHistoryBalanced | internal/state/withdrawal.go:47-101 | over any history of calls, failed ones included: balances, nonces, ids, nullifier count and root are what the successful calls make them |
| LedgerLaws.MoveAdvances | internal/state/account_state.go:67-142 | each successful apply strictly raises (nonce, balance) of its account and leaves the others alone |
| LedgerLaws.RootsNeverRepeat | internal/state/withdrawal.go:94-99 | the root never returns to an earlier value along a run |
| LedgerLaws.ComputedGenesisApart | internal/state/local_state.go:33-57 | the computed genesis root is the root of no non-empty table |
| LedgerLaws.CreditCommutes | internal/state/local_state.go:79-98 | a deposit that may follow a move may precede it, with the same ledger |
| LedgerLaws.DepositsFirst | internal/service/offchain_settlement_service.go:96-100 | playing all deposits first, then the withdrawals in order, refuses nothing and reaches the same ledger |
| LedgerLaws.DepositOrderIrrelevant | internal/state/local_state.go:79-98 | permuting deposits with distinct ids gives the same ledger, root included |
| LocalStates.AccountState.Credit | internal/state/account_state.go:67-92 | adds the amount to one account and touches no other; refuses invalid keys and amounts without effect |
| LocalStates.AccountState.Debit | internal/state/account_state.go:106-142 | subtracts the amount and steps the nonce, or changes nothing when the balance is short |
| LocalStates.AccountState.Snapshot | internal/state/account_state.go:144-158 | the insertion loop returns the unique sorted listing |
| LocalStates.CopyIds | internal/state/offchain_manager.go:386-392 | the copy is a fresh object with the same ids |
| LocalStates.LocalState.constructor | internal/state/local_state.go:33-57 | a new state is the genesis ledger, with the pinned or the computed root |
| LocalStates.LocalState.ApplyDeposit | internal/state/local_state.go:79-98 | moves the heap state to the applied ledger, or reports the reason and changes nothing |
| LocalStates.LocalState.ApplyWithdrawal | internal/state/withdrawal.go:47-101 | the same for withdrawals, with the source's order of checks |
| OffchainManagers.BuiltRequestApplies | internal/state/withdraw_request.go:61-110 | a request built from the live ledger is refused by it only for a blank id or a spent or blank nullifier |
| OffchainManagers.BuiltRequestIsAsked | internal/state/withdraw_request.go:61-110 | a built request has the trimmed owner, denom and destination of its intent, the same amount, the given id and the next nonce of the account it debits |
| OffchainManagers.OffchainStateManager.BuildWithdrawRequest | internal/state/offchain_manager.go:87-99 | reads the live account under the request's trimmed key and changes nothing; a built request carries the intent's own owner, denom, destination and amount, and an intent is refused exactly for a bad field or a low balance |
| OffchainManagers.OffchainStateManager.ApplyDeposit | internal/state/offchain_manager.go:111-121 | the ledger's outcome, with the generation stepped on success only |
| OffchainManagers.OffchainStateManager.ApplyWithdrawRequest | internal/state/offchain_manager.go:138-148 | the ledger's outcome, with the generation stepped on success only |
| OffchainManagers.OffchainStateManager.Snapshot | internal/state/offchain_manager.go:162-186 | the snapshot equals the ledger and owns only objects that did not exist before |
| OffchainManagers.OffchainStateManager.Rollback | internal/state/offchain_manager.go:206-212 | the manager becomes the snapshot's ledger on fresh objects and the generation steps |
| OffchainManagers.RollbackErasesHistory | internal/state/offchain_manager.go:188-212 | after any lost calls, rolling back (twice) makes later calls behave as issued at the snapshot |
| SettlementBuilders.BatchIdInjective | internal/batch/builder.go:182-187 | distinct counters give distinct batch ids |
| SettlementBuilders.SettlementUpdateBuilder.Build | internal/batch/builder.go:100-193 | accepts exactly the acceptable inputs and takes a number only then; roots, ids, owners, denoms, destinations, hashes and nullifiers are carried over entry by entry, and amounts as the same numbers in plain notation |
| Witnesses.WitnessBuilder.SumDeposits | internal/batch/witness.go:110-121 | sums the deposits recorded under exactly this owner, failing exactly on an amount that does not parse |
| Witnesses.WitnessBuilder.SumWithdrawals | internal/batch/witness.go:123-138 | the same for withdrawals, with the last nonce and the owner's withdrawals |
| Witnesses.WitnessBuilder.Rederive | internal/batch/witness.go:159-182 | true exactly when every nullifier derives from the secret and its own nonce |
| Witnesses.WitnessBuilder.Build | internal/batch/witness.go:84-215 | accepts exactly when every account is well formed, moves something, balances and re-derives its nullifiers; each account carries its trimmed texts, the same balances, and the nonce of its owner's last withdrawal, "0" without one; the state path is handed through |
| Commitments.BuildCommitments | internal/batch/commitments.go:41-114 | the four buffer loops hash the four tagged tables of the update |
| Commitments.RootTexts | internal/batch/commitments.go:50-114 | the four preimages of one entry, written out: tag, fields in order, bars and closing semicolon |
| Commitments.EntriesInjective | internal/batch/commitments.go:50-114 | separator-free entries are uniquely decodable |
| Commitments.PreimageDecodable | internal/batch/commitments.go:50-114 | equal preimages under one tag carry the same entries, field by field |
| Commitments.PreimagesOfDifferentRootsDiffer | internal/batch/commitments.go:14-39 | preimages under two of the four tags never coincide |
| Commitments.SeparatorInFieldCollides | internal/batch/commitments.go:50-65 | two concrete deposit lists with one preimage, an instance of the exact condition below |
| CommitmentTwins.TwinOfSameSizeExactly | internal/batch/commitments.go:50-114 | among tables of the same arity and length, a table shares its preimage if and only if a field holds a bar (two columns or more) or a `;` stands next to a boundary between rows |
| CommitmentTwins.TwinExactly | internal/batch/commitments.go:50-114 | among all tables of its arity, a table is alone with its preimage if and only if it is empty or one row without the separator that could split it |
| CommitmentTwins.DepositsSharedExactly | internal/batch/commitments.go:50-65 | the same condition for lists of deposits under the deposits root |
| CommitmentTwins.WithdrawalsSharedExactly | internal/batch/commitments.go:67-88 | the same condition for lists of withdrawals under the withdrawals root |
| Commitments.PublicInputsBind | internal/batch/public_inputs.go:103-134 | equal public inputs of separator-free updates mean equal updates, up to the batch id |
| Commitments.PublicInputsExactly | internal/batch/public_inputs.go:34-134 | the six public inputs in order, given exactly when all are hex and the two roots differ |
| SettlementLogs.OffchainSettlementRepository.SavePending | internal/repository/offchain_settlement_repository.go:171-316 | the row under this key is replaced in its place, or the row is appended; every other row stays as and where it was |
| SettlementLogs.UpsertKeepsOnePerKey | internal/repository/offchain_settlement_repository.go:171-316 | in a table with one row per key, afterwards the key holds exactly the saved row and all other rows are still there |
| SettlementLogs.LastUpsertWins | internal/repository/offchain_settlement_repository.go:171-316 | saving a key twice leaves what saving the later row alone leaves |
| SettlementLogs.OffchainSettlementRepository.ListPendingDeposits | internal/repository/offchain_settlement_repository.go:318-381 | exactly the pending deposits in order |
| SettlementLogs.OffchainSettlementRepository.ListPendingWithdrawals | internal/repository/offchain_settlement_repository.go:383-456 | exactly the pending withdrawals in order |
| SettlementLogs.OffchainSettlementRepository.MarkIncluded | internal/repository/offchain_settlement_repository.go:458-517 | marks all named rows with the batch and keeps the rest of each, or marks none when an id is unknown; no other row changes |
| SettlementLogs.OffchainSettlementRepository.MarkByBatch | internal/repository/offchain_settlement_repository.go:535-591 | the rows of this batch, whatever their status, change in their mark alone and keep their batch id; no other row changes |
| SettlementLogs.LastStatusWins | internal/repository/offchain_settlement_repository.go:535-591 | a later answer for a batch leaves no trace of an earlier one, failed or committed |
| SettlementLogs.StatusesOfTwoBatchesCommute | internal/repository/offchain_settlement_repository.go:535-591 | answers for two batches may arrive in either order |
| SettlementLogs.OffchainSettlementRepository.ReopenIncluded | internal/repository/offchain_settlement_repository.go:593-651 | returns the batch's included rows to pending without batch and hash, under the reason, or reports that there are none; no other row changes |
| TransitionOrder.OrderPendingSettlementTransitions | internal/service/offchain_settlement_service.go:583-681 | the indexing and walking loops compute the root walk of full length, or fail |
| TransitionOrder.IndexAllExactly | internal/service/offchain_settlement_service.go:648-681 | indexing succeeds exactly when no root is blank and all starts differ |
| TransitionOrder.OrderSound | internal/service/offchain_settlement_service.go:583-646 | a successful ordering is a linked walk from the committed root, of full length, over listed rows |
| TransitionOrder.OrderRecovers | internal/service/offchain_settlement_service.go:583-646 | from any listing order of a chain it returns exactly the chain |
| TransitionOrder.OrdersExactly | internal/service/offchain_settlement_service.go:583-646 | ordering succeeds and returns a permutation of its input if and only if the input can be arranged as one chain from the committed root with distinct starts |
| TransitionOrder.RankedOrdersAll | internal/service/offchain_settlement_service.go:583-646 | where some measure of roots grows along every listed row, a successful ordering is a permutation |
| TransitionOrder.OrderPermutesExactly | internal/service/offchain_settlement_service.go:625-643 | a successful result is a permutation of the input exactly when it never returns to a root |
| TransitionOrder.CyclicRootsLoseTransitions | internal/service/offchain_settlement_service.go:625-643 | a concrete cyclic table on which a transition is returned twice and another lost |
| TransitionOrder.BoundSingleWithdrawalPrefix | internal/service/offchain_settlement_service.go:574-581 | the longest prefix with no withdrawal before its last row |
| SettlementServices.BuildWitnessAccounts | internal/service/offchain_settlement_service.go:691-755 | one account per owner in order of first appearance, with first old and last new balance |
| SettlementOutcomes.GroupsExactly | internal/service/offchain_settlement_service.go:691-755 | in a successful grouping every owner has one group, in order of first appearance, with the balance before its first row and after its last |
| SettlementOutcomes.GroupingFailsExactly | internal/service/offchain_settlement_service.go:691-755 | grouping succeeds exactly when no owner or denom is blank and no owner appears with two denoms |
| SettlementOutcomes.IndexSecretsExactly | internal/service/offchain_settlement_service.go:757-782 | secrets are indexed exactly when none is blank and no trimmed owner comes twice, and the index holds those pairs and no other |
| SettlementOutcomes.AccountSecrets | internal/service/offchain_settlement_service.go:691-755 | an account gets the secret given for its owner, and the default one only when none is given |
| SettlementServices.OffchainSettlementService.ApplyIndexedDeposit | internal/service/offchain_settlement_service.go:155-202 | ledger, log and cursor move together: the cursor's pending root becomes the manager's root after the deposit and its other fields stay; a refused deposit leaves ledger and log alone |
| SettlementServices.OffchainSettlementService.ApplyWithdrawRequest | internal/service/offchain_settlement_service.go:204-271 | the same for withdrawals; the row is pending and holds the request, the nullifier of the user's own secret (the default one only for a blank secret) and the hash of its destination |
| SettlementOutcomes.DepositRecorded | internal/service/offchain_settlement_service.go:155-202 | a deposit is recorded exactly when the ledger takes it, with the roots and balances around it; refused, only the cursor may be set up |
| SettlementOutcomes.WithdrawalRecorded | internal/service/offchain_settlement_service.go:204-271 | a request is recorded exactly when nullifier and hash derive and the ledger takes it, with the roots and balances around it; when they do not derive nothing changes at all |
| SettlementServices.OffchainSettlementService.BuildPendingBatch | internal/service/offchain_settlement_service.go:273-411 | orders, bounds, builds and marks, failing at each stage with what the source leaves behind |
| BuildFailures.PendingBuildEnds | internal/service/offchain_settlement_service.go:273-411 | which error a build ends with, and what it costs: ledger and rows stay, and a batch number is spent exactly once the settlement is accepted, even if the witness then fails |
| SettlementServices.OffchainSettlementService.MarkIncluded | internal/service/offchain_settlement_service.go:433-444 | marks all named rows whatever their status, or none when an id is unknown |
| SettlementServices.OffchainSettlementService.CommitBatch | internal/service/offchain_settlement_service.go:446-470 | commits the batch's rows, sets both roots of the cursor to the new root and records the batch as the last committed one |
| SettlementServices.OffchainSettlementService.FailBatch | internal/service/offchain_settlement_service.go:472-482 | marks the batch's rows failed and keeps the cursor |
| SettlementServices.OffchainSettlementService.CancelIncludedBatch | internal/service/offchain_settlement_service.go:484-494 | reopens the batch's included rows |
| SettlementServices.OffchainSettlementService.RehydrateFromStore | internal/service/offchain_settlement_service.go:101-153 | replays pending deposits then pending withdrawals, counts the calls of each kind that fail, and writes nothing to the store |
| ChainInvariant.ChainShape | internal/service/offchain_settlement_service.go:155-494 | the invariant in the log's terms: statuses in order, linked roots, cursor at the frontier, last root the manager's |
| ChainInvariant.DepositKeeps | internal/service/offchain_settlement_service.go:155-202 | a deposit keeps the chain and its frontiers |
| ChainInvariant.WithdrawalKeeps | internal/service/offchain_settlement_service.go:204-271 | a withdrawal with a fresh id keeps the chain and its frontiers |
| ChainInvariant.CommitKeeps | internal/service/offchain_settlement_service.go:446-470 | a commit moves the committed frontier past the rows of the batch between the frontiers, included or turned down before |
| ChainInvariant.FailHalts | internal/service/offchain_settlement_service.go:472-482 | a batch turned down, once or again, stays between the frontiers as failed |
| ChainInvariant.ReopenKeeps | internal/service/offchain_settlement_service.go:484-494 | a reopen moves the included frontier back, or finds nothing |
| PendingBatches.PlansNextBatch | internal/service/offchain_settlement_service.go:281-365 | with no batch outstanding a build plans exactly the next rows of the log |
| PendingBatches.RowStartsDistinct | internal/service/offchain_settlement_service.go:625-643 | in a reachable log no two rows start at the same root |
| PendingBatches.PlansNothingWhileOutstanding | internal/service/offchain_settlement_service.go:631-639 | with a batch outstanding nothing can be planned |
| PendingBatches.IncludePhased | internal/repository/offchain_settlement_repository.go:458-517 | marking a batch turns exactly its rows from pending into that batch |
| SettlementRuns.BuildEmitsNextBatch | internal/service/offchain_settlement_service.go:273-411 | in a reachable state a build emits the next rows under the next number, or changes no row; it emits nothing while a batch is outstanding |
| SettlementRuns.BuildKeeps | internal/service/offchain_settlement_service.go:273-411 | a build, successful or not, keeps the chain |
| SettlementRuns.StepKeeps | internal/service/offchain_settlement_service.go:155-494 | every allowed call keeps the chain, and the committed frontier never moves back |
| SettlementRuns.MarkKeeps | internal/service/offchain_settlement_service.go:433-444 | marking the turned-down rows included by hand, under their own id, makes their batch outstanding again |
| SettlementRuns.ContinuesIsNext | internal/service/offchain_settlement_service.go:446-470 | the one batch that continues the committed root is the batch between the frontiers |
| SettlementRuns.EveryRunKeepsChain | internal/service/offchain_settlement_service.go:155-494 | every state reachable by allowed calls, turned-down batches and their later commits included, satisfies the chain invariant |
| SettlementRuns.PendingRootAfterCommit | internal/service/offchain_settlement_service.go:465-467 | after a commit the pending root is the manager's root exactly when nothing is pending |
| SettlementRuns.ReopenUndoesBuild | internal/repository/offchain_settlement_repository.go:593-651 | build then reopen leaves ledger, order, statuses and batch ids as before |
| PendingWitnesses.StretchFlows | internal/service/offchain_settlement_service.go:691-755 | over any stretch of the log in one denom every balance moves by inflow minus outflow |
| PendingWitnesses.StretchGroups | internal/service/offchain_settlement_service.go:691-755 | grouping a stretch succeeds, names exactly its owners and holds their true balances before and after |
| Settleability.AcceptableExactly | internal/batch/builder.go:100-193 | the settlement builder accepts a stretch of the log exactly when ids are present and one trimmed denom is used |
| Settleability.WitnessExactly | internal/batch/witness.go:110-182 | the witness builder accepts a stretch exactly when each of its owners settles |
| Settleability.BuildSucceedsExactly | internal/service/offchain_settlement_service.go:273-411 | with work pending and no batch outstanding, a build succeeds if and only if the next batch is settleable |
| Settleability.TrimmedBatchSettles | internal/batch/witness.go:110-182 | one denom, trimmed owners and the secrets of the requests are enough |
| Settleability.NextBatchHasOneWithdrawal | internal/service/offchain_settlement_service.go:566-581 | a batch holds at most one withdrawal, as its last row, and stops short of the log only after one |
| Settleability.WitnessBindsWithdrawal | internal/batch/witness.go:184-212 | the owner's witness secret and nonce derive the nullifier exactly when the owner was recorded trimmed |
| EmittedWitnesses.EmittedWithdrawalBound | internal/service/offchain_settlement_service.go:315-411 | the binding for every emitted batch: the account exists, and is bound exactly when the owner was recorded trimmed |
| NullifierReuse.SharedSecretCollides | internal/state/nullifier.go:65-84 | owners who share a secret refuse each other's withdrawals at the same nonce |
| NullifierReuse.ConsumedAreRecorded | internal/state/withdrawal.go:94-99 | the consumed nullifiers are exactly those of the recorded withdrawals |
| NullifierReuse.NextWithdrawalSucceedsExactly | internal/service/offchain_settlement_service.go:204-271 | a request built from the live ledger succeeds if and only if no recorded withdrawal carries its nullifier |
| Rehydrations.RehydrationRestoresExactly | internal/service/offchain_settlement_service.go:101-153 | rehydrating from genesis restores the ledger if and only if every row is pending, and then skips nothing |
| Rehydrations.RehydrationIsIdempotent | internal/service/offchain_settlement_service.go:101-153 | over the live ledger every replayed call is refused and nothing changes |
| SnapshotBuilders.CollectParticipants | internal/batch/local_builder.go:319-351 | the trimmed owners once each, in order of first appearance, or the first blank field refused |
| SnapshotSimulation.ParticipantsExactly | internal/batch/local_builder.go:319-351 | participants are collected exactly from non-blank names: every owner once, in order of first appearance, with the denom it was first named with |
| SnapshotBuilders.SnapshotBuilder.Build | internal/batch/snapshot_builder.go:52-162 | simulates on a fresh copy: the manager is unchanged and the result is the value-level build's |
| SnapshotSimulation.SimulationIsTheRun | internal/batch/snapshot_builder.go:66-118 | the simulation goes through exactly when the manager would skip nothing, and ends where the manager would |
| SnapshotSimulation.SnapshotBuildIsTheRun | internal/batch/snapshot_builder.go:118-155 | new root and witness balances of a successful build are those of the manager after the same calls |
| SnapshotSimulation.SnapshotBuildSucceedsExactly | internal/batch/snapshot_builder.go:52-162 | a snapshot build succeeds if and only if secrets index, no name is blank, the root is hex, the simulation goes through, the settlement is acceptable and every owner is spelled out |
| BuildFailures.SnapshotBuildEnds | internal/batch/snapshot_builder.go:52-162 | which error a snapshot build ends with, in the order of the checks, and that a batch number is spent exactly when the simulation makes an acceptable settlement |
| BuildFailures.RequestsFailAt | internal/batch/snapshot_builder.go:83-116 | the simulation of requests fails at one request that cannot follow the ones before it, and reports a low balance exactly when that was why |
| SnapshotSimulation.SnapshotWitnessExactly | internal/batch/snapshot_builder.go:127-153 | after the settlement builder accepts, the witness builder accepts if and only if every owner is spelled out |
| SnapshotSimulation.TrimmedNeverFailsWitness | internal/batch/snapshot_builder.go:127-153 | with trimmed owners the witness builder never rejects |
| BatchServices.BatchService.GuardProofContract | internal/service/batch_service.go:100-138 | passes exactly the pinned key with exactly this settlement's public inputs |
| BatchServices.BatchService.SetStateRollback | internal/service/batch_service.go:145-153 | the baseline is the manager's state at wiring and shares nothing with it; unwiring keeps the baseline |
| BatchServices.BatchService.CommitStateBaseline | internal/service/batch_service.go:157-165 | the baseline becomes the manager's state on fresh objects |
| BatchServices.BatchService.RollbackStateToBaseline | internal/service/batch_service.go:169-176 | the manager becomes the baseline on fresh objects, and the baseline stays |
| BatchServices.BatchService.SubmitBatch | internal/service/batch_service.go:309-403 | without a proof that stands the submit fails, the relayer is not reached, and record, rows and cursor stay; otherwise the relayer is asked, every answer is saved and reported, and in pending mode the batch's rows and the cursor follow the answer; an accepted batch moves the baseline to the manager, any other end the manager to the baseline |
| BatchServices.ReportedRootIsCommittedExactly | internal/service/batch_service.go:389-402 | the root the response calls current is the committed one exactly when the batch was accepted or the cursor stood there |
| BatchServices.ManualRun | internal/service/batch_service.go:145-176 | manager and baseline objects follow the books through any mix of calls and submits |
| BatchServices.BaselineIsLastAccepted | internal/service/batch_service.go:145-176 | the baseline is the ledger right after the last accepted submit, or at wiring; after a rejected submit the ledger is the baseline |
| BatchServices.GuardBindsExactly | internal/service/batch_service.go:100-138 | a bundle that passed for one update and its commitments passes for another pair exactly when roots and commitments are the same |
| BatchServices.GuardIgnoresOperations | internal/service/batch_service.go:100-138 | the guard accepts any operations and batch id beside given roots and commitments |
| BatchServices.GuardPinsOperationsExactly | internal/service/batch_service.go:100-138 | beside an update with its own commitments, a second separator-free update with the same bundle has the same operations exactly when it came with its own commitments |
| BatchServices.GuardBindsOneBatch | internal/service/batch_service.go:100-138 | if every submit carries the commitments of its own update, one bundle passes for one separator-free batch only |
| Draining.FailedPassIsRetried | internal/sequencer/settlement_sequencer.go:85-135 | after a failed pass the next build emits the same batch under the next number |
| DrainPlan.BatchCount | internal/service/offchain_settlement_service.go:574-581 | one batch per withdrawal, and one more if the log ends in a deposit |
| DrainPlan.BatchesCoverLog | internal/sequencer/settlement_sequencer.go:162-176 | the batches' operations, one after another, are the log's operations in order |
| DrainPlan.BatchesChain | internal/sequencer/settlement_sequencer.go:162-176 | the batches' old and new roots chain from end to end |
| DrainPlan.CommittedPass | internal/sequencer/settlement_sequencer.go:85-122 | build and commit emit exactly the next rows and move the frontier past them |
| SequencerModel.FailedPassRestoresExactly | internal/sequencer/settlement_sequencer.go:85-135 | a failed pass restores every row's status, batch id and order exactly when the chain did not turn the batch down |
| SequencerModel.EndMeans | internal/sequencer/settlement_sequencer.go:85-135 | how a pass ends, told by prover, guard, verifier and chain: each end exactly when its stage is the first to fail |
| SequencerModel.ReopenAfterFailFindsNothing | internal/service/batch_service.go:377-386 | a reopen after the rows were marked failed changes nothing and reports no rows |
| SequencerModel.IdleMeansNothingPending | internal/sequencer/settlement_sequencer.go:86-92 | a pass is idle only when nothing is pending |
| SequencerModel.PassProgress | internal/sequencer/settlement_sequencer.go:85-122 | a pass settles the next batch and shortens the queue, or ends the drain |
| SequencerModel.OrdinaryPassSucceeds | internal/sequencer/settlement_sequencer.go:85-122 | over ordinary rows with an honest prover and chain no pass fails |
| SequencerModel.OrdinaryPassEnds | internal/sequencer/settlement_sequencer.go:85-122 | over ordinary rows with an honest prover the chain's answer alone decides how a pass ends |
| SequencerModel.HonestProverExists | internal/service/batch_service.go:100-138 | the honest answers that the drain theorem asks for exist for every configured key, whatever the chain answers |
| StalledQueues.PassStallsExactly | internal/sequencer/settlement_sequencer.go:85-122 | a pass over a queue in order stalls it if and only if it reports that its batch was not accepted |
| StalledQueues.StallEndsExactly | internal/service/offchain_settlement_service.go:433-494 | one call ends the stall if and only if it commits the stalled batch or marks its row included |
| StalledQueues.StallLastsExactly | internal/service/offchain_settlement_service.go:155-494 | over any run of calls the queue stays stalled if and only if no call does so, and no build of a stalled queue succeeds |
| StalledQueues.RecommitResumes | internal/service/batch_service.go:368-376 | committing the turned-down batch under its own id and root is lawful and puts the queue in order |
| StalledQueues.RemarkAndReopenResumes | internal/service/offchain_settlement_service.go:433-444 | marking the turned-down rows by hand and reopening them puts the queue in order with the same rows pending |
| StalledQueues.TurnedDownReachable | internal/sequencer/settlement_sequencer.go:115-118 | a run of one deposit and a chain that answers no end in a turned-down batch |
| StalledQueues.SettledRowsStayExactly | internal/repository/offchain_settlement_repository.go:535-591 | settled rows survive a turned-down answer exactly when none of them is in that batch |
| Sequencers.SettlementSequencer.SettleOnce | internal/sequencer/settlement_sequencer.go:85-122 | one pass over the heap objects is the value-level pass, reopening included |
| Sequencers.SettlementSequencer.Drain | internal/sequencer/settlement_sequencer.go:162-176 | always stops, also with finitely many calls between its passes; settles the log's operations up to some row, all of them when idle; ends idle over ordinary rows and calls with an honest prover and chain; without arrivals settles exactly the log's batches |
| BusyDrains.SettlingServes | internal/service/offchain_settlement_service.go:155-271 | a call between two passes appends at most its own row and leaves what was settled as it is |
| BusyDrains.SettlingStep | internal/sequencer/settlement_sequencer.go:85-122 | a pass that settles takes the next batch of the log as it is by then |
| BusyDrains.IdleSettlesEverything | internal/sequencer/settlement_sequencer.go:162-176 | at an idle end everything that arrived is settled in the order it was applied, up to the manager's root |
| BusyDrains.LaterRowCutsAnew | internal/service/offchain_settlement_service.go:574-581 | settled trailing deposits are not a batch of the log that grew past them, so only operations, not batches, are a prefix |
| DrainedLogs.DrainSettlesTheLog | internal/sequencer/settlement_sequencer.go:162-176 | an emptied queue: all rows committed, operations in log order, count, numbering, chained roots, cursor at the manager's root |
| DrainedLogs.OrdinaryRunDrains | internal/sequencer/settlement_sequencer.go:162-176 | every run of ordinary calls with no batch outstanding leaves a log the drain must empty |

## Left out

- LocalBuilder: starts every batch from an empty state; the snapshot builder is the harder variant of the same loop.
- DepositPoller, the indexer and the Tendermint client: a cursor over a transaction feed with no law beyond deposit idempotence.
- HTTP handlers, router, environment wiring, the memory store and its dashboard balances.
- SQL text, transaction rollback on store errors, the unique index on nullifiers, saved batch builds, the read model behind saved submits, and lookups by batch id.
- Calls to prover, verifier and relayer: represented by their answers. A submit that the chain accepted but whose store update failed is not modelled.
- Goroutine interleavings inside a call or between the stages of a pass, mutexes, the ticker of the sequencer and context cancellation.
- Restarts: batch numbers restart from one in a new process, so runs are within one process lifetime, but for the rehydration of a pending log.
- 64-bit wrap-around of the batch counter and the generation: both are natural numbers.
- Services wired without recovery driver or repository: the sequencer is modelled as the main program wires it.
- Deposit fields that no law reads (transaction hash, height, processed flag) and the unused status `claimed`.
- Text of error messages: each sentinel is one constructor. Invalid UTF-8 and its replacement in JSON are not part of this model.
- SHA-256 itself: any injective digest function.
- SettlementRuns.EveryRunKeepsChain: a settled batch that is turned down again, and rows marked by hand other than turned-down ones, are outside its runs; `SettledRowsStayExactly` and `StallLastsExactly` say what they do.
- Commitments.PreimageDecodable: two tables without separators; what happens with separators is stated by `TwinOfSameSizeExactly` and `TwinExactly`.
- BatchServices.ManualRun: manual mode; rollback wired together with pending mode is covered one submit at a time by `SubmitBatch`.
- Sequencers.SettlementSequencer.Drain: calls get in between two passes, not between the stages of one pass.
- LocalStates.AccountState.Snapshot: the source sorts with the library sort; the model inserts each account into place, with the same unique result.
