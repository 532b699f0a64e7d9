/**
 What cannot happen over a run without the right signature: unallocated funds
 leave only by the admin, and a project's terms change only by its owner.
 */
module Control {
  import opened Options
  import opened SplitTypes
  import opened ProjectIndex
  import opened Shares
  import opened Sums
  import opened Protocol
  import opened Payments
  import opened Invariant
  import opened Preservation
  import opened Redemption
  import opened Settings
  import opened Runs

  // ---------- unallocated funds ----------

  /** What the contract holds of a token beyond what its projects are owed. */
  ghost function Spare(s: Store, token: Address): int {
    Holding(s, token) - LiveTotal(s, token)
  }

  lemma SpareIsUnallocated(s: Store, token: Address)
    requires Inv(s)
    ensures Unallocated(s, token) == Some(Spare(s, token))
  {
    hide LiveTotal, Inv, Unallocated;
    UnallocatedExact(s, token);
  }

  /** What this step withdraws of the token. */
  ghost function TakenOut(s: Store, inv: Invocation, token: Address): int {
    if inv.call.CallWithdrawUnallocated? && inv.call.token == token && Step(s, inv).1.Ok? then inv.call.amount else 0
  }

  lemma DepositSpare(s: Store, auth: set<Address>, id: Symbol, from: Address, amount: int, t: Address)
    requires Inv(s) && Deposit(s, auth, id, from, amount).1.Ok?
    ensures Spare(Deposit(s, auth, id, from, amount).0, t) == Spare(s, t)
  {
    hide Deposit, Transfer, AllIds, BalanceTotal, ProjectsOk, CacheOk, Solvent, ClaimsOk, EpochsOk, Dense, Distinct,
      BucketedIds;
    DepositDue(s, auth, id, from, amount);
    DepositExact(s, auth, id, from, amount);
    TransferEffect(s.bank, s.projects[id].token, from, s.self, amount);
    LiveTotalSet(s, id, Balance(s, id) + amount, t);
  }

  lemma DistributeSpare(s: Store, id: Symbol, t: Address)
    requires Inv(s) && Distribute(s, id).1.Ok?
    ensures Spare(Distribute(s, id).0, t) >= Spare(s, t)
  {
    hide Inv, Distribute, LiveTotal, ClaimedTotal;
    DistributeLedgers(s, id);
    SettledLive(s, Distribute(s, id).0, id, t);
  }

  lemma {:induction false} SequentiallySpare(s: Store, ids: seq<Symbol>, t: Address)
    requires Inv(s) && Sequentially(s, ids).Some?
    ensures Spare(Sequentially(s, ids).value, t) >= Spare(s, t)
    decreases |ids|
  {
    hide Inv, Distribute, Spare;
    if ids != [] {
      var init, last := ids[..|ids| - 1], ids[|ids| - 1];
      SequentiallySpare(s, init, t);
      SequentiallySteady(s, init);
      if Distribute(Sequentially(s, init).value, last).1.Ok? {
        DistributeSpare(Sequentially(s, init).value, last, t);
      }
    }
  }

  lemma ClaimSpare(s: Store, auth: set<Address>, id: Symbol, who: Address, t: Address)
    requires Inv(s) && Claim(s, auth, id, who).1.Ok?
    ensures Spare(Claim(s, auth, id, who).0, t) == Spare(s, t)
  {
    hide Inv, Claim, PaidClaimState, Spare, SharePoints, Portion;
    if Claim(s, auth, id, who).1.reply == Amount(0) {
      ClaimOfNothing(s, auth, id, who);
    } else {
      GoodProjects(s);
      ClaimAmount(s, auth, id, who);
      ClaimExact(s, auth, id, who);
      PaidClaimSpare(s, Claim(s, auth, id, who).0, id, who, Claim(s, auth, id, who).1.reply.value, t);
    }
  }

  lemma PaidClaimSpare(s: Store, s': Store, id: Symbol, who: Address, amount: nat, t: Address)
    requires Inv(s) && id in s.projects && who != s.self && PaidClaimState(s, s', id, who, amount)
    ensures Spare(s', t) == Spare(s, t)
  {
    hide AllIds, BalanceTotal, ProjectsOk, CacheOk, Solvent, ClaimsOk, EpochsOk, Dense, Distinct, BucketedIds,
      Transfer, ClaimedBy, Epoch, ClaimedTotal, ClaimedNonNegative;
    PaidClaimLedgers(s, s', id, who, amount);
    LiveTotalSet(s, id, Balance(s, id) - amount, t);
    LiveTotalRecord(s.(balances := s'.balances), id, s'.projects[id], t);
  }

  lemma WithdrawSpare(s: Store, auth: set<Address>, admin: Address, token: Address, to: Address, amount: int, t: Address)
    requires Inv(s) && WithdrawUnallocated(s, auth, admin, token, to, amount).1.Ok?
    ensures Spare(WithdrawUnallocated(s, auth, admin, token, to, amount).0, t) == Spare(s, t) - if t == token then amount else 0
  {
    hide Inv, WithdrawUnallocated, LiveTotal, Unallocated, Held;
    WithdrawMoves(s, auth, admin, token, to, amount);
    SameLive(s, WithdrawUnallocated(s, auth, admin, token, to, amount).0, t);
  }

  lemma CreateSpare(s: Store, auth: set<Address>, owner: Address, id: Symbol, title: string, kind: string, token: Address,
                    cs: seq<Collaborator>, t: Address)
    requires Inv(s) && CreateProject(s, auth, owner, id, title, kind, token, cs).1.Ok?
    ensures Spare(CreateProject(s, auth, owner, id, title, kind, token, cs).0, t) == Spare(s, t)
  {
    hide Inv, AllIds, BucketedIds, Dense, Distinct, Migrate, AppendByCount, Validate, LiveTotal, Signed;
    CreateIndex(s, id);
    CreateLiveTotal(s, CreateProject(s, auth, owner, id, title, kind, token, cs).0, id, t);
  }

  lemma EditSpare(s: Store, s': Store, id: Symbol, t: Address)
    requires Edited(s, s', id)
    ensures Spare(s', t) == Spare(s, t)
  {
    hide LiveTotal, ValidSplit;
    LiveTotalRecord(s, id, s'.projects[id], t);
  }

  /** Migration, settings and outside transfers: the projects are owed the same, and the holding does not fall. */
  lemma SettingSpare(s: Store, inv: Invocation, t: Address)
    requires Inv(s) && SettingCall(inv.call) && !inv.call.CallWithdrawUnallocated? && Step(s, inv).1.Ok?
    ensures Spare(Step(s, inv).0, t) >= Spare(s, t)
  {
    hide Inv, Step, AllIds, BalanceTotal, Migrate;
    SettingFrame(s, inv);
    MigratedIds(s);
    SettingHolding(s, inv, t);
  }

  lemma SettingHolding(s: Store, inv: Invocation, t: Address)
    requires SettingCall(inv.call) && !inv.call.CallWithdrawUnallocated? && Step(s, inv).1.Ok?
    ensures Holding(Step(s, inv).0, t) >= Holding(s, t)
  {
    hide CreateProject, UpdateCollaborators, LockProject, UpdateMetadata, TransferOwnership, Deposit, Distribute,
      BatchDistribute, Claim, WithdrawUnallocated, ExecuteSetting, Migrate, AdminGuard, BankOk;
    if ConfigCall(inv.call) {
      SettingFrameOnly(s, inv);
    }
  }

  /** One step lowers the unallocated amount by what it withdraws, at most. */
  lemma SpareStep(s: Store, inv: Invocation, t: Address)
    requires Inv(s)
    ensures Spare(Step(s, inv).0, t) >= Spare(s, t) - TakenOut(s, inv, t)
  {
    hide Inv, Spare, Edited, Sequentially, Rows, CreateProject, UpdateCollaborators, LockProject, UpdateMetadata,
      TransferOwnership, Deposit, Distribute, BatchDistribute, Claim, WithdrawUnallocated, MigrateFlatToBuckets,
      ExecuteSetting, OutsideOk;
    if Step(s, inv).1.Ok? {
      if OwnerCall(inv.call) {
        OwnerCallEdits(s, inv);
        EditSpare(s, Step(s, inv).0, inv.call.id, t);
      } else if SettingCall(inv.call) && !inv.call.CallWithdrawUnallocated? {
        SettingSpare(s, inv, t);
      } else {
        match inv.call
        case CallCreateProject(owner, id, title, kind, token, cs) => CreateSpare(s, inv.auth, owner, id, title, kind, token, cs, t);
        case CallDeposit(id, from, amount) => DepositSpare(s, inv.auth, id, from, amount, t);
        case CallDistribute(id) => DistributeSpare(s, id, t);
        case CallBatchDistribute(ids) =>
          BatchNotPaused(s, ids);
          BatchIsSequential(s, ids);
          SequentiallySpare(s, ids, t);
        case CallClaim(id, who) => ClaimSpare(s, inv.auth, id, who, t);
        case CallWithdrawUnallocated(admin, token, to, amount) => WithdrawSpare(s, inv.auth, admin, token, to, amount, t);
      }
    }
  }

  /** What the successful withdrawals of a run took of the token. */
  ghost function Withdrawn(s: Store, run: seq<Invocation>, token: Address): int {
    if run == [] then 0
    else
      var init := run[..|run| - 1];
      Withdrawn(s, init, token) + TakenOut(Run(s, init), run[|run| - 1], token)
  }

  /** Over any run the unallocated amount falls by what was withdrawn, at most. */
  lemma {:induction false} UnallocatedOverRuns(s: Store, run: seq<Invocation>, token: Address)
    requires Inv(s)
    ensures Unallocated(s, token).Some? && Unallocated(Run(s, run), token).Some?
    ensures Unallocated(Run(s, run), token).value >= Unallocated(s, token).value - Withdrawn(s, run, token)
    decreases |run|
  {
    hide Inv, Step, Unallocated, Spare, TakenOut;
    SpareIsUnallocated(s, token);
    RunKeepsInv(s, run);
    SpareIsUnallocated(Run(s, run), token);
    if run != [] {
      var init := run[..|run| - 1];
      UnallocatedOverRuns(s, init, token);
      RunKeepsInv(s, init);
      SpareIsUnallocated(Run(s, init), token);
      SpareStep(Run(s, init), run[|run| - 1], token);
    }
  }

  lemma WithdrawalSigned(s: Store, auth: set<Address>, admin: Address, token: Address, to: Address, amount: int)
    requires WithdrawUnallocated(s, auth, admin, token, to, amount).1.Ok?
    ensures s.config.admin == Some(admin) && admin in auth
  {
    hide Unallocated, Transfer;
  }

  lemma UnsignedTakesNothing(s: Store, inv: Invocation, token: Address, admin: Address)
    requires s.config.admin == Some(admin) && admin !in inv.auth
    ensures TakenOut(s, inv, token) == 0
  {
    hide CreateProject, UpdateCollaborators, LockProject, UpdateMetadata, TransferOwnership, Deposit, Distribute,
      BatchDistribute, Claim, WithdrawUnallocated, MigrateFlatToBuckets, ExecuteSetting, OutsideOk;
    if inv.call.CallWithdrawUnallocated? && Step(s, inv).1.Ok? {
      WithdrawalSigned(s, inv.auth, inv.call.admin, inv.call.token, inv.call.to, inv.call.amount);
    }
  }

  lemma {:induction false} NothingWithdrawn(s: Store, run: seq<Invocation>, token: Address, admin: Address)
    requires Inv(s) && s.config.admin == Some(admin)
    requires forall k :: 0 <= k < |run| ==> admin !in run[k].auth
    ensures Withdrawn(s, run, token) == 0
    decreases |run|
  {
    hide Inv, Step, TakenOut;
    if run != [] {
      var init := run[..|run| - 1];
      NothingWithdrawn(s, init, token, admin);
      SettingsStay(s, init, admin);
      UnsignedTakesNothing(Run(s, init), run[|run| - 1], token, admin);
    }
  }

  /** Over a run in which the admin signs nothing, no token's unallocated amount falls. */
  lemma UnallocatedIsSafe(s: Store, run: seq<Invocation>, token: Address, admin: Address)
    requires Inv(s) && s.config.admin == Some(admin)
    requires forall k :: 0 <= k < |run| ==> admin !in run[k].auth
    ensures Unallocated(s, token).Some? && Unallocated(Run(s, run), token).Some?
    ensures Unallocated(Run(s, run), token).value >= Unallocated(s, token).value
  {
    hide Inv, Run, Unallocated, Withdrawn;
    UnallocatedOverRuns(s, run, token);
    NothingWithdrawn(s, run, token, admin);
  }

  // ---------- a project's terms ----------

  /** The record is as it was but for its payout counters. */
  ghost predicate SameTerms(s: Store, s': Store, id: Symbol) {
    id in s.projects ==>
      && id in s'.projects
      && s'.projects[id] == s.projects[id].(totalDistributed := s'.projects[id].totalDistributed,
                                            distributionRound := s'.projects[id].distributionRound)
  }

  lemma SameTermsTrans(a: Store, b: Store, c: Store, id: Symbol)
    requires SameTerms(a, b, id) && SameTerms(b, c, id)
    ensures SameTerms(a, c, id)
  {
  }

  lemma DistributeTerms(s: Store, id: Symbol, x: Symbol)
    requires Inv(s) && Distribute(s, id).1.Ok?
    ensures SameTerms(s, Distribute(s, id).0, x)
  {
    hide Inv, Distribute, LiveTotal, ClaimedTotal;
    DistributeLedgers(s, id);
  }

  lemma {:induction false} SequentiallyTerms(s: Store, ids: seq<Symbol>, x: Symbol)
    requires Inv(s) && Sequentially(s, ids).Some?
    ensures SameTerms(s, Sequentially(s, ids).value, x)
    decreases |ids|
  {
    hide Inv, Distribute;
    if ids != [] {
      var init, last := ids[..|ids| - 1], ids[|ids| - 1];
      SequentiallyTerms(s, init, x);
      SequentiallySteady(s, init);
      var mid := Sequentially(s, init).value;
      if Distribute(mid, last).1.Ok? {
        DistributeTerms(mid, last, x);
        SameTermsTrans(s, mid, Sequentially(s, ids).value, x);
      }
    }
  }

  lemma MoneyKeepsTerms(s: Store, inv: Invocation, x: Symbol)
    requires Inv(s) && Step(s, inv).1.Ok?
    requires inv.call.CallDeposit? || inv.call.CallDistribute? || inv.call.CallBatchDistribute? || inv.call.CallClaim?
    ensures SameTerms(s, Step(s, inv).0, x)
  {
    hide Inv, Deposit, Distribute, BatchDistribute, Claim, CreateProject, UpdateCollaborators, LockProject,
      UpdateMetadata, TransferOwnership, WithdrawUnallocated, MigrateFlatToBuckets, OutsideOk, ExecuteSetting,
      Transfer, LiveTotal, Sequentially, Rows;
    match inv.call
    case CallDeposit(id, from, amount) =>
      DepositDue(s, inv.auth, id, from, amount);
      DepositExact(s, inv.auth, id, from, amount);
    case CallDistribute(id) => DistributeTerms(s, id, x);
    case CallBatchDistribute(ids) =>
      BatchNotPaused(s, ids);
      BatchIsSequential(s, ids);
      SequentiallyTerms(s, ids, x);
    case CallClaim(id, who) =>
      if Claim(s, inv.auth, id, who).1.reply == Amount(0) {
        ClaimOfNothing(s, inv.auth, id, who);
      } else {
        ClaimExact(s, inv.auth, id, who);
      }
  }

  lemma CreateTerms(s: Store, auth: set<Address>, owner: Address, id: Symbol, title: string, kind: string, token: Address,
                    cs: seq<Collaborator>, x: Symbol)
    requires CreateProject(s, auth, owner, id, title, kind, token, cs).1.Ok?
    ensures SameTerms(s, CreateProject(s, auth, owner, id, title, kind, token, cs).0, x)
  {
    hide Migrate, AppendByCount, Validate, Signed;
  }

  /** An owner call changes only the project it names, and only when its stored owner signs. */
  lemma OwnerCallSigned(s: Store, inv: Invocation)
    requires OwnerCall(inv.call) && Execute(s, inv).1.Ok?
    ensures inv.call.id in s.projects && s.projects[inv.call.id].owner in inv.auth
  {
    hide Validate, Deposit, Distribute, BatchDistribute, Claim, CreateProject, WithdrawUnallocated,
      MigrateFlatToBuckets, OutsideOk, ExecuteSetting;
  }

  /** A step changes the terms of a project only when the owner it then has signs it. */
  lemma OnlyOwnerChanges(s: Store, inv: Invocation, id: Symbol)
    requires Inv(s) && id in s.projects && s.projects[id].owner !in inv.auth
    ensures SameTerms(s, Step(s, inv).0, id)
  {
    hide Inv, SameTerms, Execute, AllIds, ValidSplit;
    if !Step(s, inv).1.Ok? {
      Unchanged(s, id);
    } else if OwnerCall(inv.call) {
      OwnerCallSigned(s, inv);
      OwnerCallEdits(s, inv);
      EditTerms(s, Step(s, inv).0, inv.call.id, id);
    } else if SettingCall(inv.call) {
      SettingFrame(s, inv);
      UnalteredTerms(s, Step(s, inv).0, id);
    } else if inv.call.CallCreateProject? {
      CreateStepTerms(s, inv, id);
    } else {
      MoneyKeepsTerms(s, inv, id);
    }
  }

  lemma Unchanged(s: Store, id: Symbol)
    ensures SameTerms(s, s, id)
  {
  }

  lemma EditTerms(s: Store, s': Store, edited: Symbol, id: Symbol)
    requires Edited(s, s', edited) && id != edited
    ensures SameTerms(s, s', id)
  {
    hide ValidSplit;
  }

  lemma UnalteredTerms(s: Store, s': Store, id: Symbol)
    requires Unaltered(s, s')
    ensures SameTerms(s, s', id)
  {
  }

  lemma CreateStepTerms(s: Store, inv: Invocation, id: Symbol)
    requires inv.call.CallCreateProject? && Step(s, inv).1.Ok?
    ensures SameTerms(s, Step(s, inv).0, id)
  {
    hide SameTerms, Deposit, Distribute, BatchDistribute, Claim, CreateProject, UpdateCollaborators, LockProject,
      UpdateMetadata, TransferOwnership, WithdrawUnallocated, MigrateFlatToBuckets, OutsideOk, ExecuteSetting;
    var CallCreateProject(owner, x, title, kind, token, cs) := inv.call;
    CreateTerms(s, inv.auth, owner, x, title, kind, token, cs, id);
  }

  /** Over a run in which a project's owner signs nothing, its owner, split, token, title, type and lock all stay. */
  lemma {:induction false} TermsStay(s: Store, run: seq<Invocation>, id: Symbol)
    requires Inv(s) && id in s.projects
    requires forall k :: 0 <= k < |run| ==> s.projects[id].owner !in run[k].auth
    ensures SameTerms(s, Run(s, run), id)
    decreases |run|
  {
    hide Inv, Step;
    if run != [] {
      var init, last := run[..|run| - 1], run[|run| - 1];
      TermsStay(s, init, id);
      RunKeepsInv(s, init);
      OnlyOwnerChanges(Run(s, init), last, id);
      SameTermsTrans(s, Run(s, init), Run(s, run), id);
    }
  }
}
