/**
 What holds over every run: theorems about any sequence of calls, by anyone,
 in any order, mixed with outside token movements and changes of settings.
 */
module Runs {
  import opened Options
  import opened Arithmetic
  import opened SplitTypes
  import opened ProjectIndex
  import opened Shares
  import opened Sums
  import opened Protocol
  import opened Invariant
  import opened Preservation

  // ---------- solvency and the cache ----------

  /** In every reachable state each token's holding covers all projects using it, and a cached total is that sum. */
  lemma SolventOverRuns(s: Store, run: seq<Invocation>, token: Address)
    requires Inv(s)
    ensures var end := Run(s, run);
            var owed := MapTotal(BalancesUsing(end.projects, end.balances, token));
            && Holding(end, token) >= owed
            && (token in end.accounted ==> end.accounted[token] == owed)
            && Unallocated(end, token) == Some(Holding(end, token) - owed)
  {
    hide Run, MapTotal, BalancesUsing, BalanceTotal, AllIds, Distinct;
    RunKeepsInv(s, run);
    var end := Run(s, run);
    IdsDistinct(end);
    IndexWalkIsMapTotal(AllIds(end.index), end.projects, end.balances, token);
    UnallocatedExact(end, token);
  }

  // ---------- what a step may do to one project ----------

  /** Balance plus everything paid out so far. */
  function Worth(s: Store, id: Symbol): int {
    if id in s.projects then Balance(s, id) + s.projects[id].totalDistributed else 0
  }

  /** The project stays, keeps its token, and once locked keeps its split and its descriptions. */
  ghost predicate Continues(s: Store, s': Store, id: Symbol) {
    id in s.projects ==>
      && id in s'.projects
      && s'.projects[id].token == s.projects[id].token
      && (s.projects[id].locked ==>
            var p, p' := s.projects[id], s'.projects[id];
            p'.locked && p'.collaborators == p.collaborators && p'.title == p.title && p'.projectType == p.projectType)
  }

  ghost function LastClaim(s: Store, id: Symbol, who: Address): int {
    if (id, who) in s.lastClaimEpoch then s.lastClaimEpoch[(id, who)] else -1
  }

  /** Distributions keep records, worth and claim marks; one that pays empties the balance and opens one epoch. */
  ghost predicate PaidOut(s: Store, s': Store, id: Symbol, paid: bool) {
    && Continues(s, s', id) && Worth(s', id) == Worth(s, id)
    && Epoch(s', id) == (if paid then NextEpoch(Epoch(s, id)) else Epoch(s, id))
    && Balance(s', id) == (if paid then 0 else Balance(s, id)) <= Balance(s, id)
    && s'.lastClaimEpoch == s.lastClaimEpoch
    && (id in s'.projects ==> id in s.projects)
  }

  lemma DistributePaidOut(s: Store, id: Symbol, x: Symbol)
    requires Inv(s) && Distribute(s, id).1.Ok?
    ensures PaidOut(s, Distribute(s, id).0, x, x == id)
    ensures Balance(s, id) > 0
  {
    hide Distribute, LiveTotal, ClaimedTotal, Inv;
    DistributeLedgers(s, id);
  }

  /** Some row of the report says that `x` was paid. */
  ghost predicate RowPaid(rows: seq<BatchRow>, ids: seq<Symbol>, x: Symbol)
    requires |rows| == |ids|
  {
    exists i :: 0 <= i < |ids| && ids[i] == x && rows[i].error.None?
  }

  /** A project is paid at most once in a batch: after that it has no balance. */
  lemma {:induction false} SequentiallyPaidOut(s: Store, ids: seq<Symbol>, x: Symbol)
    requires Inv(s) && Sequentially(s, ids).Some?
    ensures |Rows(s, ids)| == |ids|
    ensures PaidOut(s, Sequentially(s, ids).value, x, RowPaid(Rows(s, ids), ids, x))
    decreases |ids|
  {
    hide Inv, Distribute, Continues, Worth;
    if ids == [] {
      Unmoved(s, x);
    } else {
      var init, last := ids[..|ids| - 1], ids[|ids| - 1];
      SequentiallyPaidOut(s, init, x);
      SequentiallySteady(s, init);
      var mid := Sequentially(s, init).value;
      var rows, rows' := Rows(s, init), Rows(s, ids);
      assert forall i :: 0 <= i < |init| ==> rows'[i] == rows[i] && ids[i] == init[i];
      if Distribute(mid, last).1.Ok? {
        DistributePaidOut(mid, last, x);
        ContinuesTrans(s, mid, Sequentially(s, ids).value, x);
        if x == last {
          assert rows'[|ids| - 1].error.None?;
        }
      }
    }
  }

  lemma Unmoved(s: Store, x: Symbol)
    ensures PaidOut(s, s, x, false)
  {
  }

  lemma ContinuesTrans(a: Store, b: Store, c: Store, x: Symbol)
    requires Continues(a, b, x) && Continues(b, c, x)
    ensures Continues(a, c, x)
  {
  }

  /** A deposit into the project, or a distribution of it, succeeded in this step. */
  ghost predicate Touched(s: Store, inv: Invocation, id: Symbol) {
    var r := Step(s, inv).1;
    && r.Ok?
    && match inv.call
       case CallDeposit(x, _, _) => x == id
       case CallDistribute(x) => x == id
       case CallBatchDistribute(ids) =>
         r.reply.Report? && |r.reply.rows| == |ids| && RowPaid(r.reply.rows, ids, id)
       case _ => false
  }

  /** What this step pays into the project. */
  ghost function PaidIn(s: Store, inv: Invocation, id: Symbol): int {
    if inv.call.CallDeposit? && inv.call.id == id && Step(s, inv).1.Ok? then inv.call.amount else 0
  }

  ghost predicate StepEffect(s: Store, inv: Invocation, id: Symbol) {
    var s' := Step(s, inv).0;
    && Continues(s, s', id)
    && Worth(s', id) == Worth(s, id) + PaidIn(s, inv, id)
    && Epoch(s', id) == (if Touched(s, inv, id) then NextEpoch(Epoch(s, id)) else Epoch(s, id))
    && (!Touched(s, inv, id) ==> Balance(s', id) <= Balance(s, id))
    && (!Touched(s, inv, id) && id in s.projects && Balance(s, id) > 0 ==> Balance(s', id) > 0)
    && AllIds(s.index) <= AllIds(s'.index) && (s.index.flat.None? ==> s'.index.flat.None?)
  }

  lemma DepositStep(s: Store, inv: Invocation, id: Symbol)
    requires Inv(s) && inv.call.CallDeposit? && Step(s, inv).1.Ok?
    ensures StepEffect(s, inv, id)
  {
    hide LiveTotal, Transfer, AllIds, Inv, Adjust, CreateProject, UpdateCollaborators, LockProject, UpdateMetadata,
      TransferOwnership, Distribute, BatchDistribute, Claim, WithdrawUnallocated, MigrateFlatToBuckets, OutsideOk,
      ExecuteSetting;
    var CallDeposit(x, from, amount) := inv.call;
    DepositExact(s, inv.auth, x, from, amount);
  }

  lemma DistributeStep(s: Store, inv: Invocation, id: Symbol)
    requires Inv(s) && inv.call.CallDistribute? && Step(s, inv).1.Ok?
    ensures StepEffect(s, inv, id)
  {
    hide Distribute, AllIds, Inv, LiveTotal, ClaimedTotal, CreateProject, UpdateCollaborators, LockProject,
      UpdateMetadata, TransferOwnership, Deposit, BatchDistribute, Claim, WithdrawUnallocated, MigrateFlatToBuckets,
      OutsideOk, ExecuteSetting;
    var x := inv.call.id;
    DistributePaidOut(s, x, id);
    DistributeLedgers(s, x);
  }

  lemma BatchStep(s: Store, inv: Invocation, id: Symbol)
    requires Inv(s) && inv.call.CallBatchDistribute? && Step(s, inv).1.Ok?
    ensures StepEffect(s, inv, id)
  {
    hide BatchFrom, Sequentially, Rows, RowPaid, AllIds, Inv, CreateProject, UpdateCollaborators, LockProject,
      UpdateMetadata, TransferOwnership, Deposit, Distribute, Claim, WithdrawUnallocated, MigrateFlatToBuckets,
      OutsideOk, ExecuteSetting;
    var ids := inv.call.ids;
    BatchIsSequential(s, ids);
    SequentiallyPaidOut(s, ids, id);
    SequentiallySteady(s, ids);
  }

  lemma ClaimStep(s: Store, inv: Invocation, id: Symbol)
    requires Inv(s) && inv.call.CallClaim? && Step(s, inv).1.Ok?
    ensures StepEffect(s, inv, id)
    ensures forall x, a :: LastClaim(s, x, a) <= LastClaim(Step(s, inv).0, x, a)
    ensures Step(s, inv).1.reply != Amount(0) ==>
      LastClaim(s, inv.call.id, inv.call.claimer) < Epoch(s, inv.call.id) == LastClaim(Step(s, inv).0, inv.call.id, inv.call.claimer)
  {
    hide Claim, AllIds, LiveTotal, SharePoints, Transfer, Portion, ProjectsOk, IndexOk, CacheOk, Solvent, ClaimsOk,
      EpochsOk, BankOk, CreateProject, UpdateCollaborators, LockProject, UpdateMetadata, TransferOwnership, Deposit,
      Distribute, BatchDistribute, WithdrawUnallocated, MigrateFlatToBuckets, OutsideOk, ExecuteSetting;
    var CallClaim(x, who) := inv.call;
    if Claim(s, inv.auth, x, who).1.reply == Amount(0) {
      ClaimOfNothing(s, inv.auth, x, who);
    } else {
      ClaimAmount(s, inv.auth, x, who);
      ClaimExact(s, inv.auth, x, who);
      ClaimWindow(s, inv.auth, x, who);
    }
  }

  lemma ClaimWindow(s: Store, auth: set<Address>, id: Symbol, who: Address)
    requires EpochsOk(s) && Claim(s, auth, id, who).1.Ok?
    ensures LastClaim(s, id, who) < Epoch(s, id)
  {
    hide PayClaim, SharePoints, Portion, FitsI128, Balance;
  }

  lemma CreateStep(s: Store, inv: Invocation, id: Symbol)
    requires Inv(s) && inv.call.CallCreateProject? && Step(s, inv).1.Ok?
    ensures StepEffect(s, inv, id)
  {
    hide AllIds, Validate, ValidSplit, Migrate, AppendByCount, BucketedIds, Dense, Distinct, LiveTotal, ClaimedTotal,
      UpdateCollaborators, LockProject, UpdateMetadata, TransferOwnership, Deposit, Distribute, BatchDistribute, Claim,
      WithdrawUnallocated, MigrateFlatToBuckets, OutsideOk, ExecuteSetting;
    CreateIndex(s, inv.call.id);
  }

  lemma OwnerStep(s: Store, inv: Invocation, id: Symbol)
    requires OwnerCall(inv.call) && Step(s, inv).1.Ok?
    ensures StepEffect(s, inv, id)
    ensures Step(s, inv).0.lastClaimEpoch == s.lastClaimEpoch
  {
    hide AllIds, Execute, ValidSplit;
    OwnerCallEdits(s, inv);
  }

  predicate SettingCall(call: Call) {
    call.CallWithdrawUnallocated? || call.CallMigrateFlatToBuckets? || ConfigCall(call) || call.OutsideTransfers?
  }

  lemma MigrateDue(s: Store, auth: set<Address>, admin: Address)
    requires MigrateFlatToBuckets(s, auth, admin).1.Ok?
    ensures MigrateFlatToBuckets(s, auth, admin).0 == s.(index := Migrate(s.index))
  {
    hide Migrate, Signed;
  }

  /** Records, balances, claims and epochs are as they were, and so is the index up to migration. */
  ghost predicate Unaltered(s: Store, s': Store) {
    s' == s.(bank := s'.bank, index := s'.index, config := s'.config) && (s'.index == s.index || s'.index == Migrate(s.index))
  }

  lemma SettingsAlone(s: Store, bank: Bank, config: Config)
    ensures Unaltered(s, s.(bank := bank)) && Unaltered(s, s.(config := config)) && Unaltered(s, s.(index := Migrate(s.index)))
  {
    hide Migrate;
  }

  /** Withdrawals, migrations, settings and outside transfers leave every record, balance and epoch alone. */
  lemma SettingFrame(s: Store, inv: Invocation)
    requires SettingCall(inv.call) && Step(s, inv).1.Ok?
    ensures Unaltered(s, Step(s, inv).0)
  {
    hide Unaltered, Migrate, Transfer, OutsideOk, Unallocated, CreateProject, UpdateCollaborators, LockProject,
      UpdateMetadata, TransferOwnership, Deposit, Distribute, BatchDistribute, Claim, WithdrawUnallocated,
      MigrateFlatToBuckets, ExecuteSetting;
    if ConfigCall(inv.call) {
      SettingFrameOnly(s, inv);
      SettingsAlone(s, s.bank, ExecuteSetting(s, inv).0.config);
    } else {
      match inv.call
      case CallWithdrawUnallocated(admin, token, to, amount) =>
        WithdrawDue(s, inv.auth, admin, token, to, amount);
        SettingsAlone(s, Transfer(s.bank, token, s.self, to, amount).value, s.config);
      case CallMigrateFlatToBuckets(admin) =>
        MigrateDue(s, inv.auth, admin);
        SettingsAlone(s, s.bank, s.config);
      case OutsideTransfers(bank) => SettingsAlone(s, bank, s.config);
    }
  }

  lemma SettingStep(s: Store, inv: Invocation, id: Symbol)
    requires Inv(s) && SettingCall(inv.call) && Step(s, inv).1.Ok?
    ensures StepEffect(s, inv, id)
    ensures Step(s, inv).0.lastClaimEpoch == s.lastClaimEpoch
  {
    hide AllIds, Migrate, Step, Inv;
    SettingFrame(s, inv);
    MigratedIds(s);
  }

  lemma MigratedIds(s: Store)
    requires Inv(s)
    ensures AllIds(Migrate(s.index)) == AllIds(s.index) && Migrate(s.index).flat.None?
  {
    MigrationPreservesIndex(s.index);
  }

  lemma StepHasEffect(s: Store, inv: Invocation, id: Symbol)
    requires Inv(s)
    ensures StepEffect(s, inv, id)
  {
    hide Inv, StepEffect, Step;
    if !Step(s, inv).1.Ok? {
      RolledBack(s, inv, id);
    } else if inv.call.CallDeposit? {
      DepositStep(s, inv, id);
    } else if inv.call.CallDistribute? {
      DistributeStep(s, inv, id);
    } else if inv.call.CallBatchDistribute? {
      BatchStep(s, inv, id);
    } else if inv.call.CallClaim? {
      ClaimStep(s, inv, id);
    } else if inv.call.CallCreateProject? {
      CreateStep(s, inv, id);
    } else if OwnerCall(inv.call) {
      OwnerStep(s, inv, id);
    } else {
      SettingStep(s, inv, id);
    }
  }

  lemma RolledBack(s: Store, inv: Invocation, id: Symbol)
    requires !Step(s, inv).1.Ok?
    ensures StepEffect(s, inv, id)
  {
    hide Execute, AllIds;
  }

  // ---------- conservation ----------

  ghost function Deposited(s: Store, run: seq<Invocation>, id: Symbol): int {
    if run == [] then 0
    else Deposited(s, run[..|run| - 1], id) + PaidIn(Run(s, run[..|run| - 1]), run[|run| - 1], id)
  }

  /** What the successful deposits of a run paid in is in the balance or was paid out, and every payout is on someone's claimed ledger. */
  lemma {:induction false} ConservedOverRuns(s: Store, run: seq<Invocation>, id: Symbol)
    requires Inv(s)
    ensures var end := Run(s, run);
            && Worth(end, id) == Worth(s, id) + Deposited(s, run, id)
            && (id in end.projects ==> end.projects[id].totalDistributed == ClaimedTotal(end.claimed, id))
            && (id !in s.projects && id in end.projects ==>
                  Deposited(s, run, id) == Balance(end, id) + ClaimedTotal(end.claimed, id))
    decreases |run|
  {
    hide Step, Inv, ClaimedTotal, Continues, Touched, PaidIn;
    RunKeepsInv(s, run);
    LedgerMatches(Run(s, run), id);
    if run != [] {
      var init := run[..|run| - 1];
      ConservedOverRuns(s, init, id);
      RunKeepsInv(s, init);
      StepHasEffect(Run(s, init), run[|run| - 1], id);
    }
  }

  lemma LedgerMatches(s: Store, id: Symbol)
    requires Inv(s)
    ensures id in s.projects ==> s.projects[id].totalDistributed == ClaimedTotal(s.claimed, id)
  {
  }

  // ---------- permanence ----------

  /**
   A project's token never changes, a locked project's split, title, type and
   lock never change, and the merged ID sequence only grows at its end.
   */
  lemma {:induction false} PermanentOverRuns(s: Store, run: seq<Invocation>, id: Symbol)
    requires Inv(s)
    ensures var end := Run(s, run);
            && Continues(s, end, id)
            && AllIds(s.index) <= AllIds(end.index)
            && (id in end.projects ==> ValidSplit(end.projects[id].collaborators))
    decreases |run|
  {
    hide Step, Inv, Continues, Touched, AllIds, ValidSplit, Worth, PaidIn;
    RunKeepsInv(s, run);
    if id in Run(s, run).projects {
      StoredSplit(Run(s, run), id);
    }
    if run == [] {
      ContinuesRefl(s, id);
    } else {
      var init := run[..|run| - 1];
      PermanentOverRuns(s, init, id);
      RunKeepsInv(s, init);
      StepHasEffect(Run(s, init), run[|run| - 1], id);
      ContinuesTrans(s, Run(s, init), Run(s, run), id);
    }
  }

  /** Once `lock_project` succeeds, no later call of anyone edits the split or the descriptions, or locks again. */
  lemma LockIsFinal(s: Store, auth: set<Address>, id: Symbol, owner: Address, run: seq<Invocation>, later: Invocation)
    requires Inv(s) && LockProject(s, auth, id, owner).1.Ok?
    requires later.call.CallUpdateCollaborators? || later.call.CallUpdateMetadata? || later.call.CallLockProject?
    requires later.call.id == id
    ensures !Step(Run(LockProject(s, auth, id, owner).0, run), later).1.Ok?
  {
    hide Inv, Run, Validate, ValidSplit, AllIds;
    var inv := Invocation(CallLockProject(id, owner), auth);
    var locked := LockProject(s, auth, id, owner).0;
    StepKeepsInv(s, inv);
    assert Step(s, inv).0 == locked;
    PermanentOverRuns(locked, run, id);
  }

  /**
   The lock does not hold the owner: after a successful lock and any run,
   ownership moves exactly when the named owner is the current one and signs,
   and then nothing but the owner changes.
   */
  lemma LockedOwnershipMoves(s: Store, auth: set<Address>, id: Symbol, owner: Address, run: seq<Invocation>, later: Invocation)
    requires Inv(s) && LockProject(s, auth, id, owner).1.Ok?
    requires later.call.CallTransferOwnership? && later.call.id == id
    ensures var end := Run(LockProject(s, auth, id, owner).0, run);
            && id in end.projects && end.projects[id].locked
            && (Step(end, later).1.Ok? <==> later.call.owner == end.projects[id].owner && Signed(end, later.auth, later.call.owner))
            && (Step(end, later).1.Ok? ==>
                  Step(end, later).0 == SetProject(end, id, end.projects[id].(owner := later.call.newOwner)))
  {
    hide Inv, Run, Validate, ValidSplit, AllIds, Signed;
    var inv := Invocation(CallLockProject(id, owner), auth);
    var locked := LockProject(s, auth, id, owner).0;
    StepKeepsInv(s, inv);
    assert Step(s, inv).0 == locked;
    PermanentOverRuns(locked, run, id);
  }

  // ---------- pages ----------

  lemma {:induction false} FlatStaysGone(s: Store, run: seq<Invocation>)
    requires Inv(s) && s.index.flat.None?
    ensures Run(s, run).index.flat.None?
    decreases |run|
  {
    hide Step, Inv, Touched, Continues, Worth, AllIds, PaidIn;
    if run != [] {
      var init := run[..|run| - 1];
      FlatStaysGone(s, init);
      RunKeepsInv(s, init);
      StepHasEffect(Run(s, init), run[|run| - 1], Symbol(""));
    }
  }

  lemma CreateOrMigrateClears(s: Store, inv: Invocation)
    requires Inv(s) && (inv.call.CallCreateProject? || inv.call.CallMigrateFlatToBuckets?) && Step(s, inv).1.Ok?
    ensures Step(s, inv).0.index.flat.None?
  {
    hide AllIds, Validate, ValidSplit, Migrate, AppendByCount, BucketedIds, Dense, Distinct, LiveTotal, ClaimedTotal,
      Inv, UpdateCollaborators, LockProject, UpdateMetadata, TransferOwnership, Deposit, Distribute, BatchDistribute,
      Claim, WithdrawUnallocated, OutsideOk, ExecuteSetting;
    if inv.call.CallCreateProject? {
      CreateIndex(s, inv.call.id);
    } else {
      MigratedIds(s);
    }
  }

  /** From the first successful creation or migration on, pages are windows of the whole project sequence, for the rest of every run. */
  lemma PagesOverRuns(s: Store, inv: Invocation, run: seq<Invocation>)
    requires Inv(s) && (inv.call.CallCreateProject? || inv.call.CallMigrateFlatToBuckets?) && Step(s, inv).1.Ok?
    ensures var end := Run(Step(s, inv).0, run);
            PagesShowAll(end.index) && AllIds(end.index) == BucketedIds(end.index)
  {
    hide Step, Inv, Run, Dense, PagesShowAll, BucketedIds;
    CreateOrMigrateClears(s, inv);
    StepKeepsInv(s, inv);
    FlatStaysGone(Step(s, inv).0, run);
    RunKeepsInv(Step(s, inv).0, run);
    DenseIndex(Run(Step(s, inv).0, run));
    PagesShowAllIff(Run(Step(s, inv).0, run).index);
  }

  lemma DenseIndex(s: Store)
    requires Inv(s)
    ensures Dense(s.index)
  {
  }

  lemma ContinuesRefl(s: Store, id: Symbol)
    ensures Continues(s, s, id)
  {
  }

  // ---------- claims and epochs ----------

  /** How many calls of the run deposited into the project or distributed it. */
  ghost function Touches(s: Store, run: seq<Invocation>, id: Symbol): nat {
    if run == [] then 0
    else
      var init := run[..|run| - 1];
      Touches(s, init, id) + if Touched(Run(s, init), run[|run| - 1], id) then 1 else 0
  }

  /** The epoch counts the successful deposits and distributions of the project, up to its ceiling. */
  lemma {:induction false} EpochCounts(s: Store, run: seq<Invocation>, id: Symbol)
    requires Inv(s)
    ensures Epoch(Run(s, run), id) == Min(Epoch(s, id) + Touches(s, run, id), U32_MAX)
    decreases |run|
  {
    hide Step, Inv, Touched, Continues, Worth, AllIds, PaidIn, Epoch;
    if run == [] {
      EpochInRange(s, id);
    } else {
      var init := run[..|run| - 1];
      EpochCounts(s, init, id);
      RunKeepsInv(s, init);
      StepHasEffect(Run(s, init), run[|run| - 1], id);
    }
  }

  lemma EpochInRange(s: Store, id: Symbol)
    requires Inv(s)
    ensures 0 <= Epoch(s, id) <= U32_MAX
  {
  }

  /** The `i`-th call of the run is a claim that paid something. */
  ghost predicate PaidClaim(s: Store, run: seq<Invocation>, i: nat, id: Symbol, who: Address)
    requires i < |run|
  {
    && run[i].call == CallClaim(id, who)
    && Step(Run(s, run[..i]), run[i]).1.Ok?
    && Step(Run(s, run[..i]), run[i]).1.reply != Amount(0)
  }

  lemma LastClaimRises(s: Store, inv: Invocation, id: Symbol, who: Address)
    requires Inv(s)
    ensures LastClaim(s, id, who) <= LastClaim(Step(s, inv).0, id, who)
  {
    hide Inv, Distribute, BatchFrom, Claim, Deposit, CreateProject, AllIds, Execute;
    if !Step(s, inv).1.Ok? {
    } else if inv.call.CallClaim? {
      ClaimStep(s, inv, id);
    } else if OwnerCall(inv.call) {
      OwnerStep(s, inv, id);
    } else if SettingCall(inv.call) {
      SettingStep(s, inv, id);
    } else {
      MoneyKeepsMarks(s, inv, id);
    }
  }

  lemma MoneyKeepsMarks(s: Store, inv: Invocation, id: Symbol)
    requires Inv(s) && Step(s, inv).1.Ok?
    requires inv.call.CallDeposit? || inv.call.CallDistribute? || inv.call.CallBatchDistribute? || inv.call.CallCreateProject?
    ensures Step(s, inv).0.lastClaimEpoch == s.lastClaimEpoch
  {
    hide Inv, Distribute, BatchFrom, Validate, AppendByCount, Migrate, Transfer, Adjust, LiveTotal, Sequentially, Rows,
      Continues, Worth;
    if inv.call.CallDeposit? {
      DepositExact(s, inv.auth, inv.call.id, inv.call.from, inv.call.amount);
    } else if inv.call.CallDistribute? {
      DistributePaidOut(s, inv.call.id, id);
    } else if inv.call.CallBatchDistribute? {
      BatchIsSequential(s, inv.call.ids);
      SequentiallyPaidOut(s, inv.call.ids, id);
    }
  }

  /** Between two points of a run the claim mark never falls, and the epoch never falls. */
  lemma {:induction false} MarksRise(s: Store, run: seq<Invocation>, i: nat, j: nat, id: Symbol, who: Address)
    requires Inv(s) && i <= j <= |run|
    ensures LastClaim(Run(s, run[..i]), id, who) <= LastClaim(Run(s, run[..j]), id, who)
    ensures Epoch(Run(s, run[..i]), id) <= Epoch(Run(s, run[..j]), id)
    ensures Epoch(Run(s, run[..i]), id) < Epoch(Run(s, run[..j]), id) ==>
      exists k :: i <= k < j && Touched(Run(s, run[..k]), run[k], id)
    decreases j
  {
    hide Step, Inv, LastClaim, Epoch, Touched, Continues, Worth, AllIds, PaidIn;
    if i < j {
      MarksRise(s, run, i, j - 1, id, who);
      assert run[..j][..j - 1] == run[..j - 1];
      var mid := Run(s, run[..j - 1]);
      RunKeepsInv(s, run[..j - 1]);
      StepHasEffect(mid, run[j - 1], id);
      LastClaimRises(mid, run[j - 1], id, who);
    }
  }

  /**
   Two paying claims of one collaborator on one project happen at strictly
   increasing epochs, and a deposit into or distribution of that project lies
   strictly between them.
   */
  lemma ClaimsAtRisingEpochs(s: Store, run: seq<Invocation>, i: nat, j: nat, id: Symbol, who: Address)
    requires Inv(s) && i < j < |run|
    ensures PaidClaim(s, run, i, id, who) && PaidClaim(s, run, j, id, who) ==>
      && Epoch(Run(s, run[..i]), id) < Epoch(Run(s, run[..j]), id)
      && exists k :: i < k < j && Touched(Run(s, run[..k]), run[k], id)
  {
    hide Step, Inv, LastClaim, Epoch, Touched, Continues, Worth, AllIds, PaidIn;
    if PaidClaim(s, run, i, id, who) && PaidClaim(s, run, j, id, who) {
      var before := Run(s, run[..i]);
      RunKeepsInv(s, run[..i]);
      RunKeepsInv(s, run[..j]);
      assert run[..i + 1][..i] == run[..i];
      ClaimStep(before, run[i], id);
      NotTouchedByClaim(before, run[i], id);
      MarksRise(s, run, i + 1, j, id, who);
      ClaimStep(Run(s, run[..j]), run[j], id);
    }
  }

  lemma NotTouchedByClaim(s: Store, inv: Invocation, id: Symbol)
    requires inv.call.CallClaim?
    ensures !Touched(s, inv, id)
  {
  }

  /** The claimer may claim in the current epoch. */
  predicate WindowOpen(s: Store, id: Symbol, who: Address) {
    !((id, who) in s.lastClaimEpoch && s.lastClaimEpoch[(id, who)] == Epoch(s, id))
  }

  /**
   A deposit reopens the window of someone who has claimed exactly while the
   epoch counter can still rise; at 2^32 - 1 it sticks and the window stays shut.
   */
  lemma DepositReopens(s: Store, auth: set<Address>, id: Symbol, from: Address, amount: int, who: Address)
    requires Inv(s) && Deposit(s, auth, id, from, amount).1.Ok?
    ensures WindowOpen(Deposit(s, auth, id, from, amount).0, id, who) <==> WindowOpen(s, id, who) || Epoch(s, id) < U32_MAX
  {
    hide LiveTotal, Transfer, AllIds, Dense, Distinct, BucketedIds, ClaimedTotal, ValidSplit;
    DepositExact(s, auth, id, from, amount);
  }

  ghost predicate Untouched(s: Store, run: seq<Invocation>, id: Symbol) {
    forall k :: 0 <= k < |run| ==> !Touched(Run(s, run[..k]), run[k], id)
  }

  /** While no deposit or distribution touches a project its balance only falls, and never from positive to zero. */
  lemma {:induction false} UntouchedBalance(s: Store, run: seq<Invocation>, id: Symbol)
    requires Inv(s) && id in s.projects && Untouched(s, run, id)
    ensures var end := Run(s, run);
            id in end.projects && Balance(end, id) <= Balance(s, id) && (Balance(s, id) > 0 ==> Balance(end, id) > 0)
    decreases |run|
  {
    hide Step, Inv, Touched, Worth, AllIds, PaidIn, Balance;
    if run != [] {
      var init, n := run[..|run| - 1], |run|;
      forall k | 0 <= k < |init| ensures !Touched(Run(s, init[..k]), init[k], id) {
        assert init[..k] == run[..k];
        assert !Touched(Run(s, run[..k]), run[k], id);
      }
      assert !Touched(Run(s, run[..n - 1]), run[n - 1], id);
      UntouchedBalance(s, init, id);
      RunKeepsInv(s, init);
      StepHasEffect(Run(s, init), run[n - 1], id);
    }
  }

  /** Since the state `s`, nothing was deposited or distributed, and now a claim of `who` pays. */
  ghost predicate ClaimsLater(s: Store, run: seq<Invocation>, auth: set<Address>, id: Symbol, who: Address) {
    var r := Claim(Run(s, run), auth, id, who).1;
    id in s.projects && Untouched(s, run, id) && r.Ok? && r.reply != Amount(0)
  }

  /** A claim pays at most the claimer's current share of the balance the epoch opened with. */
  lemma ClaimWithinEpoch(s: Store, run: seq<Invocation>, auth: set<Address>, id: Symbol, who: Address)
    requires Inv(s)
    ensures ClaimsLater(s, run, auth, id, who) ==>
      && id in Run(s, run).projects
      && var end := Run(s, run);
         var bps := SharePoints(end.projects[id].collaborators, who);
         bps.Some? && Claim(end, auth, id, who).1.reply == Amount(Portion(Balance(end, id), bps.value))
         && Portion(Balance(end, id), bps.value) <= Portion(Balance(s, id), bps.value)
  {
    hide Claim, Run, Untouched, Inv, SharePoints, Portion;
    if ClaimsLater(s, run, auth, id, who) {
      var end := Run(s, run);
      RunKeepsInv(s, run);
      UntouchedBalance(s, run, id);
      GoodProjects(end);
      ClaimAmount(end, auth, id, who);
      LargerShare(Balance(end, id), Balance(s, id), SharePoints(end.projects[id].collaborators, who).value);
    }
  }

  lemma GoodProjects(s: Store)
    requires Inv(s)
    ensures ProjectsOk(s)
  {
  }

  lemma LargerShare(a: int, b: int, bps: nat)
    requires a <= b
    ensures Portion(a, bps) <= Portion(b, bps)
  {
    assert (b - a) * bps >= 0;
    DivideMonotone(a * bps, b * bps);
  }

  lemma DivideMonotone(x: int, y: int)
    requires x <= y
    ensures x / TOTAL_BPS <= y / TOTAL_BPS
  {
  }

  /** Below the counter's ceiling an unchanged epoch means that nothing touched the project. */
  lemma SameEpochUntouched(s: Store, run: seq<Invocation>, id: Symbol)
    requires Inv(s) && Epoch(Run(s, run), id) == Epoch(s, id) < U32_MAX
    ensures Untouched(s, run, id)
  {
    hide Step, Inv, Epoch, Touched, Continues, Worth, AllIds, PaidIn, LastClaim;
    var n, who := |run|, s.self;
    assert run[..n] == run && run[..0] == [];
    forall k | 0 <= k < n ensures !Touched(Run(s, run[..k]), run[k], id) {
      MarksRise(s, run, 0, k, id, who);
      MarksRise(s, run, k + 1, n, id, who);
      assert run[..k + 1][..k] == run[..k];
      RunKeepsInv(s, run[..k]);
      StepHasEffect(Run(s, run[..k]), run[k], id);
    }
  }

  /**
   While the epoch stays the same, and below its ceiling, no claim pays more
   than the claimer's share of the balance that the epoch had at any earlier
   moment.
   */
  lemma EpochBoundsClaims(s: Store, run: seq<Invocation>, auth: set<Address>, id: Symbol, who: Address)
    requires Inv(s) && id in s.projects
    requires Epoch(Run(s, run), id) == Epoch(s, id) < U32_MAX
    requires Claim(Run(s, run), auth, id, who).1.Ok?
    ensures var end, r := Run(s, run), Claim(Run(s, run), auth, id, who).1;
            && id in end.projects && r.reply.Amount?
            && var bps := SharePoints(end.projects[id].collaborators, who);
               bps.Some? && 0 <= r.reply.value <= Portion(Balance(s, id), bps.value)
  {
    hide Claim, Run, Untouched, Inv, SharePoints, Portion, Epoch;
    var end := Run(s, run);
    SameEpochUntouched(s, run, id);
    RunKeepsInv(s, run);
    UntouchedBalance(s, run, id);
    ClaimReplies(end, auth, id, who);
    if Claim(end, auth, id, who).1.reply == Amount(0) {
      BalanceInRange(s, id);
      ShareOfNothing(SharePoints(end.projects[id].collaborators, who).value);
      LargerShare(0, Balance(s, id), SharePoints(end.projects[id].collaborators, who).value);
    } else {
      ClaimWithinEpoch(s, run, auth, id, who);
      GoodProjects(end);
      ClaimAmount(end, auth, id, who);
    }
  }

  /** Who may claim, and that every successful claim answers with an amount. */
  lemma ClaimReplies(s: Store, auth: set<Address>, id: Symbol, who: Address)
    requires Claim(s, auth, id, who).1.Ok?
    ensures id in s.projects && SharePoints(s.projects[id].collaborators, who).Some? && Claim(s, auth, id, who).1.reply.Amount?
  {
    hide PayClaim, SharePoints, Portion, FitsI128, Epoch, Balance;
    forall amount | id in s.projects && PayClaim(s, id, who, amount).1.Ok?
      ensures PayClaim(s, id, who, amount).1.reply == Amount(amount)
    {
      PayClaimReply(s, id, who, amount);
    }
  }

  lemma ShareOfNothing(bps: nat)
    ensures Portion(0, bps) == 0
  {
  }

  lemma BalanceInRange(s: Store, id: Symbol)
    requires Inv(s)
    ensures Balance(s, id) >= 0
  {
  }

  /** At the ceiling the epoch stands still while deposits still arrive, so there that bound is lost. */
  lemma SaturatedEpochGrows(s: Store, auth: set<Address>, id: Symbol, from: Address, amount: int)
    requires Inv(s) && Deposit(s, auth, id, from, amount).1.Ok?
    ensures var s' := Deposit(s, auth, id, from, amount).0;
            Balance(s', id) == Balance(s, id) + amount > Balance(s, id) && (Epoch(s', id) == Epoch(s, id) <==> Epoch(s, id) >= U32_MAX)
  {
    hide LiveTotal, Transfer, AllIds, Inv;
    DepositExact(s, auth, id, from, amount);
  }
}
