/**
 No call of the contract creates or destroys tokens: the total over all holders
 of any token is what it was, whatever the call does or fails to do.
 */
module Supply {
  import opened SplitTypes
  import opened ProjectIndex
  import opened Shares
  import opened Sums
  import opened Protocol
  import opened Payments
  import opened Invariant
  import opened Preservation

  ghost function HoldersOf(bank: Bank, token: Address): map<(Address, Address), int> {
    map k | k in bank.ledger && k.0 == token :: bank.ledger[k]
  }

  ghost function TokenTotal(bank: Bank, token: Address): int {
    MapTotal(HoldersOf(bank, token))
  }

  /** Setting one holder's balance moves that token's total by the difference. */
  lemma HoldingSet(bank: Bank, token: Address, who: Address, v: int, t: Address)
    ensures TokenTotal(bank.(ledger := bank.ledger[(token, who) := v]), t) ==
            TokenTotal(bank, t) + if t == token then v - Held(bank, token, who) else 0
  {
    hide MapTotal;
    var after := bank.(ledger := bank.ledger[(token, who) := v]);
    if t == token {
      MapTotalUpdate(HoldersOf(bank, t), (token, who), v);
      assert HoldersOf(after, t) == HoldersOf(bank, t)[(token, who) := v];
    } else {
      assert HoldersOf(after, t) == HoldersOf(bank, t);
    }
  }

  lemma TransferConserves(bank: Bank, token: Address, from: Address, to: Address, amount: int, t: Address)
    requires Transfer(bank, token, from, to, amount).Some?
    ensures TokenTotal(Transfer(bank, token, from, to, amount).value, t) == TokenTotal(bank, t)
  {
    hide TokenTotal;
    var debited := bank.(ledger := bank.ledger[(token, from) := Held(bank, token, from) - amount]);
    HoldingSet(bank, token, from, Held(bank, token, from) - amount, t);
    HoldingSet(debited, token, to, Held(debited, token, to) + amount, t);
  }

  lemma {:induction false} PayAllConserves(s: Store, id: Symbol, p: SplitProject, balance: nat, i: nat, t: Address)
    requires i <= |p.collaborators| && PayAll(s, id, p, balance, i).Some?
    ensures TokenTotal(PayAll(s, id, p, balance, i).value.bank, t) == TokenTotal(s.bank, t)
    decreases |p.collaborators| - i
  {
    hide TokenTotal, Transfer, Payout;
    if i < |p.collaborators| {
      var amount, to := Payout(balance, p.collaborators, i), p.collaborators[i].address;
      if amount > 0 {
        TransferConserves(s.bank, p.token, s.self, to, amount, t);
        PayAllConserves(PayOne(s, id, p.token, to, amount).value, id, p, balance, i + 1, t);
      } else {
        PayAllConserves(s, id, p, balance, i + 1, t);
      }
    }
  }

  lemma DistributeConserves(s: Store, id: Symbol, t: Address)
    requires Inv(s) && Distribute(s, id).1.Ok?
    ensures TokenTotal(Distribute(s, id).0.bank, t) == TokenTotal(s.bank, t)
  {
    hide TokenTotal, Distribute, PayAll, Inv, LiveTotal, LoopEffect, ClaimedTotal;
    DistributeOk(s, id);
    PayAllConserves(s, id, s.projects[id], Balance(s, id), 0, t);
  }

  lemma {:induction false} SequentiallyConserves(s: Store, ids: seq<Symbol>, t: Address)
    requires Inv(s) && Sequentially(s, ids).Some?
    ensures TokenTotal(Sequentially(s, ids).value.bank, t) == TokenTotal(s.bank, t)
    decreases |ids|
  {
    hide TokenTotal, Distribute, Inv;
    if ids != [] {
      var init, last := ids[..|ids| - 1], ids[|ids| - 1];
      SequentiallyConserves(s, init, t);
      SequentiallySteady(s, init);
      if Distribute(Sequentially(s, init).value, last).1.Ok? {
        DistributeConserves(Sequentially(s, init).value, last, t);
      }
    }
  }

  lemma BatchConserves(s: Store, ids: seq<Symbol>, t: Address)
    requires Inv(s) && BatchDistribute(s, ids).1.Ok?
    ensures TokenTotal(BatchDistribute(s, ids).0.bank, t) == TokenTotal(s.bank, t)
  {
    hide TokenTotal, Distribute, Inv, Sequentially, Rows;
    BatchIsSequential(s, ids);
    SequentiallyConserves(s, ids, t);
  }

  lemma DepositConserves(s: Store, auth: set<Address>, id: Symbol, from: Address, amount: int, t: Address)
    requires Inv(s) && Deposit(s, auth, id, from, amount).1.Ok?
    ensures TokenTotal(Deposit(s, auth, id, from, amount).0.bank, t) == TokenTotal(s.bank, t)
  {
    hide TokenTotal, Inv, Transfer, Adjust, LiveTotal, BumpEpoch;
    DepositExact(s, auth, id, from, amount);
    TransferConserves(s.bank, s.projects[id].token, from, s.self, amount, t);
  }

  /** Every step but the outside world's own keeps every token's total. */
  lemma StepConservesTokens(s: Store, inv: Invocation, t: Address)
    requires Inv(s) && !inv.call.OutsideTransfers?
    ensures TokenTotal(Step(s, inv).0.bank, t) == TokenTotal(s.bank, t)
  {
    hide TokenTotal, Inv, Transfer, Unallocated, Distribute, Claim, BatchDistribute, WithdrawUnallocated,
      CreateProject, UpdateCollaborators, LockProject, UpdateMetadata, TransferOwnership, Deposit,
      MigrateFlatToBuckets, OutsideOk, ExecuteSetting;
    if Step(s, inv).1.Ok? {
      match inv.call
      case CallDeposit(id, from, amount) =>
        DepositConserves(s, inv.auth, id, from, amount, t);
      case CallDistribute(id) => DistributeConserves(s, id, t);
      case CallBatchDistribute(ids) =>
        BatchConserves(s, ids, t);
      case CallClaim(id, who) => ClaimConserves(s, inv.auth, id, who, t);
      case CallWithdrawUnallocated(admin, token, to, amount) =>
        WithdrawDue(s, inv.auth, admin, token, to, amount);
        TransferConserves(s.bank, token, s.self, to, amount, t);
      case _ => RecordCallsKeepBank(s, inv);
    }
  }

  lemma RecordCallsKeepBank(s: Store, inv: Invocation)
    requires inv.call.CallCreateProject? || inv.call.CallUpdateCollaborators? || inv.call.CallLockProject? || inv.call.CallUpdateMetadata?
             || inv.call.CallTransferOwnership? || inv.call.CallMigrateFlatToBuckets? || ConfigCall(inv.call)
    ensures Step(s, inv).0.bank == s.bank
  {
    hide Deposit, Distribute, BatchDistribute, Claim, WithdrawUnallocated, OutsideOk, Validate, Migrate, AppendByCount,
      Signed, Cap, ExecuteSetting;
    if ConfigCall(inv.call) {
      SettingFrameOnly(s, inv);
    }
  }

  lemma ClaimConserves(s: Store, auth: set<Address>, id: Symbol, who: Address, t: Address)
    requires Inv(s) && Claim(s, auth, id, who).1.Ok?
    ensures TokenTotal(Claim(s, auth, id, who).0.bank, t) == TokenTotal(s.bank, t)
  {
    hide TokenTotal, Claim, Transfer, Inv, LiveTotal, ClaimedBy, Epoch;
    if Claim(s, auth, id, who).1.reply == Amount(0) {
      ClaimOfNothing(s, auth, id, who);
    } else {
      ClaimExact(s, auth, id, who);
      TransferConserves(s.bank, s.projects[id].token, s.self, who, Claim(s, auth, id, who).1.reply.value, t);
    }
  }
}
