# SplitNaira: a verified model

SplitNaira splits royalties. A Soroban contract holds deposits per project and pays them out to
collaborators by basis points; a TypeScript backend mirrors amounts, exports and payment status.
This project models the contract as a state machine and the backend's exact-arithmetic and
printing helpers, and proves what they promise, over every input and every run.

`dafny verify dfyconfig.toml` checks everything.

## How it is laid out

The contract (`contracts/lib.rs`):

- `SplitTypes`, `Options`, `Arithmetic`: records, error codes, outcomes, integer bounds, product laws.
- `ProjectIndex`: the bucketed ID index with the legacy flat list beside it; appending, migrating, paging.
- `Shares`: validating a split and dividing a balance by it.
- `Sums`: totals over maps and over an ID walk.
- `Protocol`: every entry point as a function from a store to a store and an outcome, the token
  ledger, and `Step` and `Run`, which add the host's commit or rollback.
- `Payments`, `Invariant`, `Preservation`: the payment loop in closed form, the invariant, and the
  proof that every call and every environment step keeps it.
- `Runs`, `Redemption`, `Supply`, `Settings`: the theorems over runs, about redeeming and withdrawing,
  about token supply, and about the admin's settings and the token allowlist.
- `Outcomes`, `Control`: for every call, exactly when it succeeds, what it leaves and which error answers
  otherwise; and what no run can do without the admin's or the owner's signature.
- `Contract`: the class with the storage as fields and the original's loops; each method is proved
  to do what its function in `Protocol` says.
- `Witnesses`: runs from an empty store in which a documented promise fails, one for each such promise
  (and, for the mixed index layout, a legacy store).

The backend: `DecimalAmounts`, `ProRata`, `Csv`, `CanonicalJson`, `PaymentStatus`. `Lifecycle` joins the
two sides: what the state shown for a project says about the contract's money.

## Modelling choices

- **Traps and errors.** An unchecked overflow (the release profile sets `overflow-checks`), a failed
  transfer or a missing signature is `Trap`; a returned error is `Err`. The host undoes both for a
  top-level call. It does not undo an `Err` that `batch_distribute` gets from its inner
  `distribute`, so the functions also say what had been written at that point, and
  `Preservation.FailedDistributeWritesNothing` proves that it is nothing.
- **Integers.** i128 and u32 are unbounded integers with explicit range checks where the original
  can overflow, saturate or return an overflow error.
- **Tokens.** A transfer moves exactly the amount or traps: for lack of funds, for lack of room at
  the receiver, or because the token refuses the receiver. Other people's token movements are one
  step, `OutsideTransfers`, which may do anything except lower what the contract holds.
- **Signatures.** A call carries the addresses that signed it; the contract never signs. A
  collaborator may be the contract itself, as the code allows.
- **Settings.** Admin rotation, pausing, the collaborator cap and the allowlist are calls of the run
  like any other. The one step of a run that is not a call is `OutsideTransfers`.
- **Start states.** Runs start from any good state, that is, any that satisfies `Invariant.Inv`. An empty store does, and
  so does a store without the accounting cache carrying any mix of flat and bucketed index
  (`Invariant.LegacyStoreStarts`).
- **JSON.** Texts are UTF-16 code units. A number is carried by the text it prints as.
- **Addresses in payment records** are compared after an arbitrary normalisation function, which
  stands for trimming and upper-casing.

## Where code and documentation disagree

- `contracts/README.md` (lines 183-186) says ownership is transferred only while a project is unlocked.
  The code does not check the lock: `Runs.LockedOwnershipMoves` says exactly when a locked project
  changes hands, `Witnesses.LockedProjectChangesHands` is a run in which it does.
- `docs/contract-distribution-remainder-accounting.md` says a distribution never changes the
  unallocated balance. It raises it when the contract itself is a paid collaborator:
  `Redemption.DistributionAndUnallocated` gives the exact condition, `Witnesses.UnallocatedCanRise` a case.
- The comments in `contracts/lib.rs` say a deposit opens a fresh claim window for everyone. The epoch
  counter saturates, so this holds exactly below 2^32 - 1: `Runs.DepositReopens`, `Witnesses.WindowCanStayShut`.
  There one epoch no longer bounds a claim either: `Runs.EpochBoundsClaims`, `Witnesses.CeilingLosesBound`.
- A page read is documented to return a window, empty past the end. With more than 4,294,967,200 projects a
  page past the end traps on a u32 multiplication: `ProjectIndex.PageTrapsIff`, `Witnesses.PageCanTrap`.
  A flat list beside the buckets is hidden from pages, and without buckets every page is the whole flat
  list: `ProjectIndex.PagesShowAllIff`, `Witnesses.PageCanHide`. From the first creation or migration
  on neither can happen: `Runs.PagesOverRuns`.
- The allowlist count is documented as the number of allowed tokens. It saturates, so this holds exactly
  while there are at most 2^32 - 1: `Settings.AllowlistOverRuns`. Beyond that the list can end up
  non-empty with every token passing: `Witnesses.AllowlistCanOpen`.
- The comments in `backend/src/lib/split-lifecycle.ts` (lines 94-97) say a settled split has paid something
  out. A locked split without a balance is settled too: `Lifecycle.SettledHasPaidIff`,
  `Witnesses.SettledWithoutPayment`.
- Status and time of a participant do not depend on record order; the round shown does, unless all
  best records name one round: `PaymentStatus.RoundOrderIndependentIff`, `PaymentStatus.RoundCanDependOnOrder`.

## Model

| member | source | states |
|---|---|---|
| Runs.SolventOverRuns | contracts/lib.rs:629-1142 | after any run the contract holds, of every token, at least the sum of the balances of all projects using it; a cached total is exactly that sum, and the unallocated amount is the difference |
| Runs.ConservedOverRuns | contracts/lib.rs:629-937 | over any run, successful deposits into a project equal the growth of its balance plus its total distributed, and total distributed equals the project's whole claimed ledger, whoever the collaborators were |
| Runs.PermanentOverRuns | contracts/lib.rs:432-621 | over any run a project stays, keeps its token and a valid split; once locked it keeps split, title, type and lock; and the ID sequence only grows at its end |
| Runs.LockIsFinal | contracts/lib.rs:597-621 | after a successful lock, no later call by anyone, after any run, edits the split or metadata or locks again |
| Runs.LockedOwnershipMoves | contracts/lib.rs:1316-1343 | after a successful lock and any run, ownership moves exactly when the named owner is the current one and signs, and then nothing but the owner changes |
| Runs.ClaimsAtRisingEpochs | contracts/lib.rs:847-937 | two paying claims by one collaborator on one project are at strictly increasing epochs, with a successful deposit or distribution of that project strictly between them |
| Runs.ClaimWithinEpoch | contracts/lib.rs:886-899 | with no deposit or distribution since a state, a paying claim pays the floor of the claimer's share of what is left, at most that share of the state's balance |
| Runs.EpochBoundsClaims | contracts/lib.rs:881-899 | within one epoch below the ceiling, a claim pays at most the claimer's share of the balance at any earlier moment of that epoch |
| Runs.EpochCounts | contracts/lib.rs:1413-1433 | after any run the epoch is the starting epoch plus the number of successful deposits and distributions of the project, capped at 2^32 - 1 |
| Runs.PagesOverRuns | contracts/lib.rs:471-515 | from the first successful creation or migration on, for the rest of every run, the buckets hold the whole project sequence and every page that does not trap is its window |
| Runs.UntouchedBalance | contracts/lib.rs:847-937 | while nothing is deposited or distributed the balance only falls, and never from positive to zero |
| Runs.SameEpochUntouched | contracts/lib.rs:1413-1433 | below the counter's ceiling an unchanged epoch over a run means no deposit or distribution of the project succeeded in it |
| Runs.SaturatedEpochGrows | contracts/lib.rs:1423-1433 | a deposit leaves the epoch unchanged exactly when it is at the ceiling, while the balance still grows by the amount |
| Runs.DepositReopens | contracts/lib.rs:660-662 | after a deposit a collaborator may claim exactly if they could before or the epoch was below its ceiling |
| Runs.StepHasEffect | contracts/lib.rs:232-1343 | one step, of any kind, keeps each project's worth up to what it deposits, raises its epoch by one exactly when it deposits into or distributes it, and extends the ID sequence |
| Outcomes.ClaimPaysIff | contracts/lib.rs:847-937 | in a good state a claim pays an amount exactly when the claimer signs, nothing is paused, the claimer is a collaborator with an open window, and the amount is the positive floor of the share, with products, counters and receiver in range; then every record of the payout is as stated |
| Outcomes.ClaimOfZeroIff | contracts/lib.rs:892-899 | a claim answers zero, changing nothing, exactly when the claimer may claim and the share of the balance is below one unit |
| Outcomes.ClaimGuards | contracts/lib.rs:848-884 | each refusal of a claim has its own error under its exact condition: paused, not found, not a collaborator, already claimed; unsigned is a trap |
| Outcomes.DepositSucceedsIff | contracts/lib.rs:629-676 | a deposit succeeds exactly when positive, for an existing project, signed and held by the payer, with room at the contract; the two errors have their exact conditions |
| Outcomes.WithdrawSucceedsIff | contracts/lib.rs:1089-1142 | a withdrawal succeeds exactly for the stored admin signing, a positive amount within holding minus what all projects are owed, and another receiver who can take it; then only that amount moves; each error has its exact condition |
| Outcomes.CreateSucceedsIff | contracts/lib.rs:432-470 | a creation succeeds exactly for a signing owner, an unused ID, an allowed token, a valid split within the cap and fewer than 2^32 - 1 projects; each error has its exact condition |
| Outcomes.CreateLeaves | contracts/lib.rs:471-528 | a creation stores the record as given, unlocked and unpaid, a zero balance, and one more ID at the end |
| Outcomes.UpdateCollaboratorsOutcome | contracts/lib.rs:537-582 | exactly for the signing owner of an unlocked project and a valid split within the cap, the given split is stored and nothing else changes; each error has its exact condition |
| Outcomes.LockOutcome | contracts/lib.rs:597-621 | exactly for the signing owner of an unlocked project, the lock is set and nothing else changes |
| Outcomes.UpdateMetadataOutcome | contracts/lib.rs:1269-1300 | exactly for the signing owner of an unlocked project, the given title and type are stored and nothing else changes |
| Outcomes.TransferOwnershipOutcome | contracts/lib.rs:1316-1343 | exactly for the signing owner, the new owner is stored and nothing else changes |
| Outcomes.SetAdminOutcome | contracts/lib.rs:232-245 | exactly when the current admin signs, or the new one while there is none, the new admin is stored and nothing else changes |
| Outcomes.SetPausedOutcome | contracts/lib.rs:248-275 | exactly for the signing admin the flag is as given and nothing else changes |
| Outcomes.SetMaxCollaboratorsOutcome | contracts/lib.rs:303-320 | exactly for the signing admin and a value from 2 to 200, later splits are limited to that many and nothing else changes |
| Outcomes.AllowTokenOutcome | contracts/lib.rs:332-367 | exactly for the signing admin, the allowed tokens are the old ones and the given one |
| Outcomes.DisallowTokenOutcome | contracts/lib.rs:370-407 | exactly for the signing admin, the allowed tokens are the old ones without the given one |
| Outcomes.MigrateOutcome | contracts/lib.rs:1227-1231 | exactly for the signing admin, the index is migrated with its sequence kept and nothing else changes |
| Outcomes.PauseRefuses | contracts/lib.rs:702-712 | while paused, a distribution and a batch are refused |
| Control.UnallocatedOverRuns | contracts/lib.rs:1067-1142 | over any run a token's unallocated amount falls by what was withdrawn, at most |
| Control.UnallocatedIsSafe | contracts/lib.rs:1089-1106 | over a run in which the admin signs nothing, no token's unallocated amount falls |
| Control.OnlyOwnerChanges | contracts/lib.rs:537-621 | a step changes the terms of a project only if its owner signs it |
| Control.TermsStay | contracts/lib.rs:537-621 | over a run in which a project's owner signs nothing, its owner, split, token, title, type and lock all stay |
| Preservation.StepKeepsInv | contracts/lib.rs:232-1343 | every call, successful or rolled back, and every environment step keeps the invariant |
| Preservation.RunKeepsInv | contracts/lib.rs:232-1343 | every state reachable from a good state is good |
| Preservation.FailedDistributeWritesNothing | contracts/lib.rs:702-800 | in a good state `distribute` returns an error exactly when a guard refuses it, only pause, not-found or no-balance, and then has written nothing |
| Preservation.BatchIsSequential | contracts/lib.rs:810-839 | a batch is the left-to-right run of its entries with one report row each; a trap in one entry fails the whole batch |
| Preservation.RepeatHasNoBalance | contracts/lib.rs:823-836 | an entry repeated after it was paid reports NoBalance |
| Preservation.DistributeExact | contracts/lib.rs:721-790 | past its guards `distribute` pays every collaborator and settles in full, or traps |
| Preservation.DepositExact | contracts/lib.rs:629-676 | a deposit whose transfer goes through always succeeds: neither the balance nor the cache can overflow |
| Preservation.ClaimAmount | contracts/lib.rs:861-899 | a paying claim pays the floor of the claimer's share, which is positive and less than the balance |
| Preservation.UnallocatedExact | contracts/lib.rs:1067-1084 | in a good state the unallocated amount is the holding minus the live total; the overflow error and the clamp are unreachable |
| Redemption.DistributionIsExact | contracts/lib.rs:734-790 | a successful distribution raises each collaborator's claimed ledger and token balance by exactly their payout, no one else's, empties the balance, adds it to the total and adds one round |
| Redemption.DistributionSucceedsIff | contracts/lib.rs:702-790 | in a good state a distribution succeeds exactly when its guards pass, its products and counters fit and its receivers can take their payouts; the contract's funds are never the obstacle |
| Redemption.RedeemableOverRuns | contracts/lib.rs:702-800 | after any run an unpaused project with one unit a collaborator, a balance within (2^127 - 1) / 9999, room in its counters and payable receivers is paid out in full |
| Redemption.WithdrawalIsExact | contracts/lib.rs:1089-1142 | a withdrawal lowers that token's unallocated amount by exactly the amount, no other token's, and touches no project |
| Redemption.DistributionAndUnallocated | contracts/lib.rs:737-780 | a distribution changes the unallocated amount by what the contract itself is paid, so not at all exactly when it is due nothing |
| Supply.StepConservesTokens | contracts/lib.rs:629-1142 | no call creates or destroys tokens: every token's total over all holders is unchanged |
| Settings.OnlyAdminChanges | contracts/lib.rs:232-407 | the settings change only by a settings call the current admin signs, or by the first admin taking the role |
| Settings.SettingsStay | contracts/lib.rs:1435-1448 | over a run in which the admin signs nothing, every setting stays |
| Settings.AllowlistMeaning | contracts/lib.rs:1450-1470 | with a sound allowlist, an empty list admits every token and any other list exactly its members |
| Settings.AllowlistStep | contracts/lib.rs:332-407 | a call keeps the list free of repeats, equal to the stored keys and counted exactly, if and only if the list stays within 2^32 - 1 tokens |
| Settings.AllowlistOverRuns | contracts/lib.rs:332-407 | the allowlist is sound all along a run exactly when no moment of it lists more than 2^32 - 1 tokens |
| Witnesses.UnallocatedCanRise | contracts/lib.rs:737-780 | from an empty store: create, ten deposits, and a distribution to the contract itself turns 5 of 10 units into unallocated funds |
| Witnesses.WindowCanStayShut | contracts/lib.rs:1423-1433 | from an empty store: create, 2^32 - 1 deposits, a claim, a further deposit, and the claimer's next claim is refused |
| Witnesses.CeilingLosesBound | contracts/lib.rs:1423-1433 | from an empty store: at the ceiling a deposit leaves the epoch unchanged, and the next claim exceeds the claimer's share of the balance before it |
| Witnesses.LockedProjectChangesHands | contracts/lib.rs:1316-1343 | from an empty store: create, lock and transfer all succeed |
| Witnesses.PageCanTrap | contracts/lib.rs:1533-1536 | from an empty store: after 4,294,967,201 creations under distinct IDs the page that asks for everything traps |
| Witnesses.PageCanHide | contracts/lib.rs:1510-1557 | a good store with one bucketed and one flat-only project, whose page shows the first and hides the second |
| Witnesses.AllowlistCanOpen | contracts/lib.rs:350-357 | from an empty store: after allowing 2^32 tokens and disallowing all but one, the list names one token and every token passes |
| Witnesses.SettledWithoutPayment | backend/src/lib/split-lifecycle.ts:122-124 | from an empty store: a project created and locked shows as settled with nothing ever paid in or out |
| Lifecycle.StateOverRuns | backend/src/lib/split-lifecycle.ts:101-129 | for a project created in a run: settled exactly when all deposits were paid out and there were some or it is locked, draft exactly when unlocked with none, distributing or active exactly when some are not yet paid out |
| Lifecycle.SettledHasPaidIff | backend/src/lib/split-lifecycle.ts:94-124 | a settled project has paid something out, except exactly when it is locked and nothing was ever deposited |
| Lifecycle.LockedStates | backend/src/lib/split-lifecycle.ts:122-124 | once locked, a project is distributing or settled for the rest of every run |
| Invariant.EmptyStoreStarts | contracts/lib.rs:219-220 | an empty store satisfies the invariant |
| Invariant.LegacyStoreStarts | contracts/lib.rs:1559-1687 | a store without the cache, with flat, bucketed or mixed index, satisfies the invariant once its records are sound and backed |
| Invariant.AdjustExact | contracts/lib.rs:1663-1687 | after a balance write the cache adjustment succeeds and stores the live total, whether it adds the change or seeds a missing entry |
| Sums.IndexWalkIsMapTotal | contracts/lib.rs:1689-1713 | walking an index that lists each project once sums exactly the balances of the projects using the token |
| Shares.ValidationIsExact | contracts/lib.rs:1472-1506 | validation accepts exactly the lists of two or more distinct collaborators within the cap with positive shares summing to 10,000 |
| Shares.ValidationErrorIs | contracts/lib.rs:1472-1506 | the error reported is the size error, else that of the first faulty position (zero share, overflow, repeated address, in this order), else the wrong total |
| Shares.PayoutsExact | contracts/lib.rs:734-744 | payouts sum to the balance; all but the last get the floor of their share; the last gets at least 1 and its own floor, at most n - 1 more |
| Payments.LoopPaysAll | contracts/lib.rs:734-773 | the loop that carries `total_sent` pays every position its closed-form payout and sends the whole balance, unless a product overflows |
| Payments.PayAllEffect | contracts/lib.rs:737-773 | the effect of the payments on every ledger entry: the payees' by their payouts, the contract's by what leaves it, nothing else |
| ProjectIndex.MergeKeepsOrder | contracts/lib.rs:1562-1576 | the merged sequence is the bucketed IDs, then the flat ones that are new when they come up, in their order |
| ProjectIndex.MigrationPreservesIndex | contracts/lib.rs:1633-1650 | after migration the buckets hold, as a sequence, what the merged index listed before; dense, flat list gone, and a second migration changes nothing |
| ProjectIndex.AppendPathsAgree | contracts/lib.rs:489-515 | the bucket `create_project` picks from the project count is the one the append helper picks, and both write the same index |
| ProjectIndex.CreateGrowsAtEnd | contracts/lib.rs:471-515 | creating a project, with any pending migration, adds its ID at the end of the sequence and nothing else |
| ProjectIndex.DenseLength | contracts/lib.rs:1599-1628 | a dense index of n IDs has exactly n / 100 buckets, rounded up |
| ProjectIndex.PageTrapsIff | contracts/lib.rs:1510-1557 | on a dense index a page is the plain window of the bucketed sequence, except that it traps exactly when it reaches past more than 4,294,967,200 IDs |
| ProjectIndex.PagesShowAllIff | contracts/lib.rs:1510-1557 | pages are windows of the merged sequence exactly when each flat ID is already bucketed or every page past the buckets traps; without buckets, exactly when the flat list is empty |
| ProjectIndex.PagesConcatenate | contracts/lib.rs:1222-1224 | however a stretch of the index is cut into consecutive pages, they join into the one page of that stretch, and one of them traps exactly when it does |
| ProjectIndex.PageWalkReadsAll | contracts/lib.rs:1222-1224 | pages of any one size above zero, read in order, concatenate to the whole index, except that the last one traps exactly when it is short and the index has more than 4,294,967,200 and fewer than 2^32 - 1 IDs |
| Contract.SplitNaira.constructor | contracts/lib.rs:219-220 | a new contract has an empty store, which satisfies the invariant |
| Contract.SplitNaira.Invoke | contracts/lib.rs:219-1345 | one outside call does exactly what `Step` says, keeping writes on success only, and preserves the invariant |
| Contract.SplitNaira.CreateProject | contracts/lib.rs:432-528 | guards in order, then record, zero balance, count and index, as the transition function says |
| Contract.SplitNaira.UpdateCollaborators | contracts/lib.rs:537-582 | replaces a valid split of an unlocked project for its signing owner |
| Contract.SplitNaira.LockProject | contracts/lib.rs:597-621 | locks for the signing owner, once |
| Contract.SplitNaira.UpdateMetadata | contracts/lib.rs:1269-1300 | replaces title and type of an unlocked project for its signing owner |
| Contract.SplitNaira.TransferOwnership | contracts/lib.rs:1316-1343 | changes the owner for the signing owner, locked or not |
| Contract.SplitNaira.Deposit | contracts/lib.rs:629-676 | moves the tokens in, credits the project, adjusts the cache and opens an epoch, with the original's errors and traps |
| Contract.SplitNaira.PayCollaborators | contracts/lib.rs:734-773 | the payment loop computes the recursive payment function from any state |
| Contract.SplitNaira.Distribute | contracts/lib.rs:702-800 | the whole of `distribute`, including what is written when a late error is returned |
| Contract.SplitNaira.BatchDistribute | contracts/lib.rs:810-839 | the batch loop over inner distributions that are not rolled back |
| Contract.SplitNaira.Claim | contracts/lib.rs:847-937 | guards, the amount due, and the payout with all its records |
| Contract.SplitNaira.GetUnallocated | contracts/lib.rs:1067-1084 | cached or walked total against the holding; in a good state exactly their difference |
| Contract.SplitNaira.WithdrawUnallocated | contracts/lib.rs:1089-1142 | admin-only transfer out of the unallocated amount |
| Contract.SplitNaira.SetAdmin | contracts/lib.rs:232-245 | sets the admin, signed by the current one or, while there is none, by the new one |
| Contract.SplitNaira.SetPaused | contracts/lib.rs:248-275 | admin-only switch of the pause flag |
| Contract.SplitNaira.SetMaxCollaborators | contracts/lib.rs:303-320 | admin-only cap between 2 and 200 |
| Contract.SplitNaira.AllowToken | contracts/lib.rs:332-367 | admin-only; a new token joins keys and list, and the count rises, saturating |
| Contract.SplitNaira.DisallowToken | contracts/lib.rs:370-407 | admin-only; a known token leaves keys and list by the filter loop, and the count falls, saturating |
| Contract.SplitNaira.MigrateFlatToBuckets | contracts/lib.rs:1227-1231 | admin-only migration |
| Contract.SplitNaira.MigrateFlatIndex | contracts/lib.rs:1633-1650 | the migration loop computes the fold that preserves the sequence |
| Contract.SplitNaira.AppendToBuckets | contracts/lib.rs:1599-1628 | appends to the last bucket or opens a new one |
| Contract.SplitNaira.GetBucketedIds | contracts/lib.rs:1578-1596 | the nested loop concatenates the buckets |
| Contract.SplitNaira.GetAllIds | contracts/lib.rs:1562-1576 | bucketed IDs followed by the flat ones not yet seen |
| Contract.SplitNaira.GetProjectIds | contracts/lib.rs:1510-1557 | on every index, dense or not, the loops compute the recursive bucket walk that `ProjectIndex.PageTrapsIff` characterises, or the flat list when there are no buckets |
| Contract.SplitNaira.ListProjects | contracts/lib.rs:1017-1030 | in a good state the records of the page, position for position |
| Contract.SplitNaira.SumBalances | contracts/lib.rs:1689-1713 | the checked sum over the merged index, or an error at the first overflow |
| Contract.SplitNaira.AdjustAccounted | contracts/lib.rs:1663-1687 | adds to or seeds the cached total, or reports overflow with nothing written |
| Contract.SplitNaira.BumpClaimEpoch | contracts/lib.rs:1423-1433 | saturating increment of the project's epoch |
| Contract.SplitNaira.ValidateCollaborators | contracts/lib.rs:1472-1506 | the first error in scan order, and none exactly for a valid split within the cap |
| DecimalAmounts.PrintThenParse | backend/src/lib/decimal-amounts.ts:57-91 | every unit count in range prints to a string the pattern accepts and parses back to itself |
| DecimalAmounts.PatternIff | backend/src/lib/decimal-amounts.ts:37-58 | splitting at the first point accepts exactly the strings of the form `whole` or `whole.fraction` that the pattern describes |
| DecimalAmounts.AcceptedIff | backend/src/lib/decimal-amounts.ts:51-73 | a string is accepted exactly when it has the pattern and denotes at most 2^127 - 1, and parses to the number it denotes |
| DecimalAmounts.NormalizeCanonical | backend/src/lib/decimal-amounts.ts:96-98 | normalising keeps the number, is idempotent, gives the shortest string for the number, changes nothing exactly on canonical strings, and two accepted strings normalise alike exactly when they denote the same number |
| DecimalAmounts.PrintsCanonical | backend/src/lib/decimal-amounts.ts:76-91 | every printed amount has no fraction, or one that does not end in zero |
| DecimalAmounts.CanonicalIsShortest | backend/src/lib/decimal-amounts.ts:93-98 | a canonical string is the shortest accepted form of its number and the only canonical one |
| DecimalAmounts.ArithmeticIsExact | backend/src/lib/decimal-amounts.ts:101-125 | on all strings: addition, subtraction and comparison succeed exactly on accepted strings with the result in range, and are those of the real numbers denoted, printed in canonical form; comparison is -1, 0 or 1 |
| DecimalAmounts.MultiplyByRatio | backend/src/lib/decimal-amounts.ts:140-161 | the product correctly rounded down, up or half up, and an error exactly when the rounded product is out of range or the inputs are invalid |
| DecimalAmounts.SumAmounts | backend/src/lib/decimal-amounts.ts:232-241 | the exact sum; succeeds exactly when all entries are valid and the whole sum is in range |
| ProRata.AllocateProRata | backend/src/lib/decimal-amounts.ts:190-226 | succeeds exactly when an allocation exists, echoes keys in order, sums exactly to the total and is the fair allocation |
| ProRata.FairInPlainTerms | backend/src/lib/decimal-amounts.ts:205-223 | without quotients: the units sum to the total, nobody is a whole unit off their exact share, and whoever is rounded up lost a larger remainder than whoever is not, or the same one earlier in the input |
| ProRata.FairAllocationUnique | backend/src/lib/decimal-amounts.ts:205-223 | exact sum, floor or floor plus one, and extras by largest remainder then input order determine the allocation |
| ProRata.ZeroWeightGetsNothing | backend/src/lib/decimal-amounts.ts:182-223 | a share of weight zero receives 0 |
| ProRata.LargerWeightNeverLess | backend/src/lib/decimal-amounts.ts:205-223 | a larger weight never receives less |
| ProRata.LeftoverSmall | backend/src/lib/decimal-amounts.ts:205-207 | the leftover is zero or smaller than the number of non-zero remainders |
| ProRata.HandOutLeftover | backend/src/lib/decimal-amounts.ts:217-221 | the leftover loop gives one unit to each of the first positions of the order and never wraps |
| Csv.RowsReadBack | backend/src/lib/csv.ts:25-39 | reading the concatenated rows by the grammar of section 2 of RFC 4180 returns exactly the neutralised cells; a row without cells reads back as one empty field |
| Csv.ValuesAreSafe | backend/src/lib/csv.ts:21-29 | no value read back starts with a formula trigger; it is the raw text unchanged unless that starts with one, and then the raw text behind one apostrophe |
| Csv.QuotedIff | backend/src/lib/csv.ts:31-34 | a cell is quoted exactly when its value holds a comma, a quote or a line break |
| Csv.SameTextSameValues | backend/src/lib/csv.ts:25-39 | two exports have the same text exactly when they carry the same values |
| CanonicalJson.SameTextIff | backend/src/middleware/idempotency.ts:35-45 | two JSON values print the same text exactly when they are equal up to object key order at every depth |
| CanonicalJson.StableReadsBack | backend/src/middleware/idempotency.ts:35-45 | the printed text reads back as the value with its keys sorted at every depth |
| CanonicalJson.LessIff | backend/src/middleware/idempotency.ts:41 | keys are ordered by the first code unit where they differ, a prefix first |
| CanonicalJson.KeysAscend | backend/src/middleware/idempotency.ts:39-43 | the keys of a printed object are those of the value, ascending in that order |
| CanonicalJson.EscapedUnitByUnit | backend/src/middleware/idempotency.ts:42-44 | scanning a string for surrogate pairs escapes each unit by itself and its neighbours alone: halves of pairs are kept |
| CanonicalJson.UnitForm | backend/src/middleware/idempotency.ts:42-44 | which units print as themselves, which as a two-unit escape, and which as six units with lower-case digits |
| CanonicalJson.CanonicalIff | backend/src/middleware/idempotency.ts:39-43 | sorted-key values are equal exactly when the values are equivalent |
| PaymentStatus.DeriveStatuses | backend/src/lib/split-lifecycle.ts:232-285 | each participant shows the best of their records by status then time, or nothing when they have none |
| PaymentStatus.StatusFromRecords | backend/src/lib/split-lifecycle.ts:222-285 | from the records alone: paid exactly when one is completed, pending exactly when none is and one is pending, failed exactly when all there are failed, unpaid exactly when there are none, with the latest time of that status |
| PaymentStatus.WinnerIsShown | backend/src/lib/split-lifecycle.ts:256-283 | the record shown is the one of highest status, then latest, then first in the list |
| PaymentStatus.OrderIndependent | backend/src/lib/split-lifecycle.ts:256-283 | status and time are the same for every order of the records |
| PaymentStatus.RoundOrderIndependentIff | backend/src/lib/split-lifecycle.ts:265-281 | the round shown is the same for every order exactly when all best records name one round |
| PaymentStatus.RoundCanDependOnOrder | backend/src/lib/split-lifecycle.ts:265-281 | two records whose order decides the round shown |
| PaymentStatus.NeverDowngraded | backend/src/lib/split-lifecycle.ts:221-285 | appending records never lowers a status nor moves its time back |
| PaymentStatus.CompletionAddsUp | backend/src/lib/split-lifecycle.ts:306-325 | paid plus outstanding points make the total, all-paid means participants exist and each is paid, new records never undo either, and the state has its exact condition for each value and does not depend on the records |

## Left out

- Storage lifetime (TTL extension and archival): host behaviour with no effect on stored values.
- Events: output only; their payloads follow from the state changes.
- Single-entry reads (`get_project`, `get_claimed`, `get_claimable`, `get_balance` and the like): lookups.
- `list_project_summaries`: the same walk as `list_projects`.
- The u32 bound on the bucket count: out of reach while the number of IDs is itself a u32 (`ProjectIndex.DenseLength`).
- Soroban resource limits and re-entrancy through a token: outside the model.
- CSV number cells: taken as the text they print as.
- JSON numbers: taken as the text they print as; `undefined` and values outside JSON are not modelled.
- Non-finite timestamps in payment records: timestamps are integers.
- The lifecycle action table: a finite case table settled by reading the branches. Snapshot amounts are integers and deadlines are times.
- The idempotency request gate: it rests on a store and response events that are not part of this model.
- Keyset cursors, error translation, rate limits, authentication, SQL, the frontend: library plumbing and I/O.
