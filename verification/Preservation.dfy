/**
 Every call keeps the invariant, and a distribution that fails inside a batch
 has written nothing.
 */
module Preservation {
  import opened Options
  import opened SplitTypes
  import opened ProjectIndex
  import opened Shares
  import opened Sums
  import opened Protocol
  import opened Payments
  import opened Invariant

  // ---------- distribute ----------

  /** The guards that `distribute` checks before it pays anyone. */
  predicate Payable(s: Store, id: Symbol) {
    !s.config.paused && id in s.projects && 0 < Balance(s, id) && |s.projects[id].collaborators| <= Balance(s, id)
  }

  /** Room in the project's own counters for paying out its whole balance. */
  predicate CountersFit(s: Store, id: Symbol)
    requires id in s.projects
  {
    s.projects[id].totalDistributed + Balance(s, id) <= I128_MAX && s.projects[id].distributionRound < U32_MAX
  }

  /** The store after paying out `id` in full, given the store `paid` that the payments left. */
  ghost function Settled(s: Store, paid: Store, id: Symbol): Store
    requires id in s.projects
  {
    var p := s.projects[id];
    var t := p.token;
    paid.(balances := s.balances[id := 0],
          accounted := s.accounted[t := LiveTotal(s.(balances := s.balances[id := 0]), t)],
          claimEpoch := s.claimEpoch[id := NextEpoch(Epoch(s, id))],
          projects := s.projects[id := p.(totalDistributed := p.totalDistributed + Balance(s, id),
                                          distributionRound := p.distributionRound + 1)])
  }

  lemma ZeroingFits(s: Store, id: Symbol)
    requires Inv(s) && id in s.projects
    ensures Balance(s, id) <= I128_MAX
    ensures var t := s.projects[id].token; 0 <= LiveTotal(s.(balances := s.balances[id := 0]), t) <= I128_MAX
  {
    LiveTotalBounds(s, s.projects[id].token);
    LiveTotalSet(s, id, 0, s.projects[id].token);
  }

  /** The bookkeeping after the payments cannot report an error: the cache adjustment always fits. */
  lemma SettleExact(s: Store, paid: Store, id: Symbol)
    requires Inv(s) && id in s.projects && OnlyPaid(s, paid)
    ensures var r := Settle(paid, id, s.projects[id], Balance(s, id), Balance(s, id));
            if CountersFit(s, id) then r == (Settled(s, paid, id), Ok(Done)) else r.1 == Trap
  {
    hide BalanceTotal, CheckedTotal, AllIds, BucketedIds, Dense, Distinct, ClaimedTotal, ValidSplit, Adjust;
    ZeroingFits(s, id);
    AdjustExact(s, paid.(balances := s.balances[id := 0]), id);
  }

  /** Past its guards, `distribute` pays everyone and settles, or traps. */
  lemma DistributeExact(s: Store, id: Symbol)
    requires Inv(s) && Payable(s, id)
    ensures var p, balance := s.projects[id], Balance(s, id);
            var all := PayAll(s, id, p, balance, 0);
            if all.Some? && ProductsFit(p.collaborators, balance, 0) && CountersFit(s, id)
            then Distribute(s, id) == (Settled(s, all.value, id), Ok(Done))
            else Distribute(s, id).1 == Trap
  {
    hide BalanceTotal, CheckedTotal, AllIds, BucketedIds, Dense, Distinct, ClaimedTotal, ValidSplit;
    var p, balance := s.projects[id], Balance(s, id);
    ZeroingFits(s, id);
    LoopPaysAll(s, id, p, balance, 0);
    var all := PayAll(s, id, p, balance, 0);
    if all.Some? {
      PayAllEffect(s, id, p, balance, 0);
      SettleExact(s, all.value, id);
    }
  }

  /** An error from `distribute` comes from a guard, so nothing was written. */
  lemma FailedDistributeWritesNothing(s: Store, id: Symbol)
    requires Inv(s)
    ensures Distribute(s, id).1.Err? ==> Distribute(s, id).0 == s
    ensures Distribute(s, id).1.Err? <==> !Payable(s, id)
    ensures Distribute(s, id).1.Err? ==> Distribute(s, id).1.error in {DistributionsPaused, NotFound, NoBalance}
  {
    if Payable(s, id) {
      DistributeExact(s, id);
    }
  }

  lemma DistributeOk(s: Store, id: Symbol)
    requires Inv(s) && Distribute(s, id).1.Ok?
    ensures Payable(s, id) && CountersFit(s, id)
    ensures var p, balance := s.projects[id], Balance(s, id);
            var all := PayAll(s, id, p, balance, 0);
            && all.Some? && Distribute(s, id) == (Settled(s, all.value, id), Ok(Done))
            && LoopEffect(s, all.value, id, p, balance, 0)
            && (forall x :: ClaimedTotal(all.value.claimed, x) == ClaimedTotal(s.claimed, x) + if x == id then balance else 0)
  {
    FailedDistributeWritesNothing(s, id);
    DistributeExact(s, id);
    PayAllEffect(s, id, s.projects[id], Balance(s, id), 0);
    forall x ensures ClaimedTotal(PayAll(s, id, s.projects[id], Balance(s, id), 0).value.claimed, x) ==
                     ClaimedTotal(s.claimed, x) + if x == id then Balance(s, id) else 0 {
      PayAllClaims(s, id, s.projects[id], Balance(s, id), 0, x);
    }
  }

  lemma PaidOnlyMore(s: Store, s': Store, id: Symbol, p: SplitProject, balance: nat)
    requires ValidSplit(p.collaborators) && balance > 0 && PaidExactly(s, s', id, p, balance, 0)
    ensures forall x, a :: ClaimedBy(s.claimed, x, a) <= ClaimedBy(s'.claimed, x, a)
  {
    hide Payout, ValidSplit, ClaimedBy, Held, PayoutTotal;
    PayoutsExact(balance, p.collaborators);
    forall x, a ensures ClaimedBy(s.claimed, x, a) <= ClaimedBy(s'.claimed, x, a) {
      if x == id && exists j :: 0 <= j < |p.collaborators| && a == p.collaborators[j].address {
        var j :| 0 <= j < |p.collaborators| && a == p.collaborators[j].address;
        assert Payout(balance, p.collaborators, j) >= 0;
      }
    }
  }

  /** The ledger side of a successful distribution. */
  lemma DistributeLedgers(s: Store, id: Symbol)
    requires Inv(s) && Distribute(s, id).1.Ok?
    ensures id in s.projects && CountersFit(s, id) && Balance(s, id) > 0
    ensures var (s', r) := Distribute(s, id);
            && s' == Settled(s, s', id)
            && BankOk(s'.bank) && ClaimedNonNegative(s'.claimed)
            && (forall k :: k in s'.claimed ==> k in s.claimed || k.0 == id)
            && Holding(s, s.projects[id].token) - Balance(s, id) <= Holding(s', s.projects[id].token)
            && (forall t :: t != s.projects[id].token ==> Holding(s', t) == Holding(s, t))
            && (forall x :: ClaimedTotal(s'.claimed, x) == ClaimedTotal(s.claimed, x) + if x == id then Balance(s, id) else 0)
            && (forall x, a :: ClaimedBy(s.claimed, x, a) <= ClaimedBy(s'.claimed, x, a))
            && s' == s.(bank := s'.bank, claimed := s'.claimed, balances := s'.balances, accounted := s'.accounted,
                        claimEpoch := s'.claimEpoch, projects := s'.projects)
  {
    hide Distribute, PayAll, PaidExactly, LiveTotal, Payout, ValidSplit, ClaimedTotal, Epoch, BankOk,
      ClaimedNonNegative, ClaimedBy, CountersFit, NextEpoch, Solvent, CacheOk, IndexOk, EpochsOk;
    DistributeOk(s, id);
    PaidOnlyMore(s, PayAll(s, id, s.projects[id], Balance(s, id), 0).value, id, s.projects[id], Balance(s, id));
    LeavesBounded(s, s.projects[id], Balance(s, id), 0);
  }

  lemma DistributeKeepsInv(s: Store, id: Symbol)
    requires Inv(s) && Distribute(s, id).1.Ok?
    ensures Inv(Distribute(s, id).0)
  {
    hide BalanceTotal, CheckedTotal, AllIds, BucketedIds, Dense, Distinct, ClaimedTotal, ValidSplit, Distribute,
      LiveTotal;
    DistributeLedgers(s, id);
    var s' := Distribute(s, id).0;
    RecordsMoved(s, s', id, Balance(s, id));
    EpochOpened(s, s', id);
    MoneyMoved(s, s', id);
  }

  // ---------- deposit ----------

  /** A deposit that gets as far as the cache adjustment succeeds. */
  lemma DepositExact(s: Store, auth: set<Address>, id: Symbol, from: Address, amount: int)
    requires Inv(s) && amount > 0 && id in s.projects && Signed(s, auth, from)
    requires Transfer(s.bank, s.projects[id].token, from, s.self, amount).Some?
    ensures var t := s.projects[id].token;
            var b' := s.balances[id := Balance(s, id) + amount];
            Deposit(s, auth, id, from, amount) ==
            (s.(bank := Transfer(s.bank, t, from, s.self, amount).value,
                balances := b',
                accounted := s.accounted[t := LiveTotal(s.(balances := b'), t)],
                claimEpoch := s.claimEpoch[id := NextEpoch(Epoch(s, id))]), Ok(Done))
  {
    hide BalanceTotal, CheckedTotal, AllIds, BucketedIds, Dense, Distinct, ClaimedTotal, ValidSplit, Transfer, Adjust,
      NextEpoch, ProjectsOk, ClaimsOk, EpochsOk;
    var t := s.projects[id].token;
    var bank' := Transfer(s.bank, t, from, s.self, amount).value;
    TransferEffect(s.bank, t, from, s.self, amount);
    LiveTotalBounds(s, t);
    LiveTotalSet(s, id, Balance(s, id) + amount, t);
    assert Held(bank', t, s.self) <= I128_MAX;
    AdjustExact(s, s.(balances := s.balances[id := Balance(s, id) + amount], bank := bank'), id);
  }

  lemma DepositDue(s: Store, auth: set<Address>, id: Symbol, from: Address, amount: int)
    requires Deposit(s, auth, id, from, amount).1.Ok?
    ensures amount > 0 && id in s.projects && Signed(s, auth, from)
    ensures Transfer(s.bank, s.projects[id].token, from, s.self, amount).Some?
  {
    hide Transfer, Adjust, Signed;
  }

  lemma DepositKeepsInv(s: Store, auth: set<Address>, id: Symbol, from: Address, amount: int)
    requires Inv(s) && Deposit(s, auth, id, from, amount).1.Ok?
    ensures Inv(Deposit(s, auth, id, from, amount).0)
  {
    hide BalanceTotal, CheckedTotal, AllIds, BucketedIds, Dense, Distinct, ClaimedTotal, ValidSplit;
    hide Deposit, LiveTotal, Transfer;
    var s' := Deposit(s, auth, id, from, amount).0;
    DepositDue(s, auth, id, from, amount);
    DepositExact(s, auth, id, from, amount);
    TransferEffect(s.bank, s.projects[id].token, from, s.self, amount);
    EpochOpened(s, s', id);
    MoneyMoved(s, s', id);
  }

  // ---------- claim ----------

  lemma {:induction false} SharePointsFound(cs: seq<Collaborator>, who: Address)
    ensures SharePoints(cs, who).Some? ==> exists k :: 0 <= k < |cs| && cs[k] == Collaborator(who, cs[k].alias, SharePoints(cs, who).value)
    ensures SharePoints(cs, who).None? ==> forall k :: 0 <= k < |cs| ==> cs[k].address != who
  {
    if cs != [] && cs[0].address != who {
      SharePointsFound(cs[1..], who);
      if SharePoints(cs, who).Some? {
        var k :| 0 <= k < |cs| - 1 && cs[1..][k] == Collaborator(who, cs[1..][k].alias, SharePoints(cs, who).value);
        assert cs[k + 1] == Collaborator(who, cs[k + 1].alias, SharePoints(cs, who).value);
      }
    }
  }

  lemma PartOfBalance(balance: int, bps: int)
    requires balance > 0 && 0 < bps < TOTAL_BPS
    ensures Portion(balance, bps) < balance
  {
    assert balance * bps < balance * TOTAL_BPS;
  }

  lemma CollaboratorShare(cs: seq<Collaborator>, who: Address)
    requires ValidSplit(cs) && SharePoints(cs, who).Some?
    ensures 0 < SharePoints(cs, who).value < TOTAL_BPS
  {
    SharePointsFound(cs, who);
    var k :| 0 <= k < |cs| && cs[k] == Collaborator(who, cs[k].alias, SharePoints(cs, who).value);
    ShareBelowWhole(cs, k);
  }

  /** What a claim comes to before any money moves. */
  lemma ClaimDue(s: Store, auth: set<Address>, id: Symbol, who: Address)
    requires Claim(s, auth, id, who).1.Ok? && Claim(s, auth, id, who).1.reply != Amount(0)
    ensures id in s.projects && who != s.self && Balance(s, id) > 0
    ensures var bps := SharePoints(s.projects[id].collaborators, who);
            && bps.Some? && Portion(Balance(s, id), bps.value) > 0
            && Claim(s, auth, id, who) == PayClaim(s, id, who, Portion(Balance(s, id), bps.value))
  {
    hide PayClaim, SharePoints, Portion, FitsI128, Epoch, Balance;
  }

  lemma PayClaimReply(s: Store, id: Symbol, who: Address, amount: int)
    requires id in s.projects && PayClaim(s, id, who, amount).1.Ok?
    ensures PayClaim(s, id, who, amount).1.reply == Amount(amount)
  {
    hide Adjust, Transfer, FitsI128, Epoch, ClaimedBy;
  }

  /** A paying claim: what it pays, and that this is less than the balance. */
  lemma ClaimAmount(s: Store, auth: set<Address>, id: Symbol, who: Address)
    requires ProjectsOk(s) && Claim(s, auth, id, who).1.Ok? && Claim(s, auth, id, who).1.reply != Amount(0)
    ensures id in s.projects && who != s.self
    ensures var bps := SharePoints(s.projects[id].collaborators, who);
            && bps.Some? && 0 < bps.value < TOTAL_BPS
            && Claim(s, auth, id, who).1.reply == Amount(Portion(Balance(s, id), bps.value))
            && 0 < Portion(Balance(s, id), bps.value) < Balance(s, id)
  {
    hide ValidSplit, Claim, PayClaim, SharePoints, Portion, Balance;
    ClaimDue(s, auth, id, who);
    var cs := s.projects[id].collaborators;
    CollaboratorShare(cs, who);
    PartOfBalance(Balance(s, id), SharePoints(cs, who).value);
    PayClaimReply(s, id, who, Portion(Balance(s, id), SharePoints(cs, who).value));
  }

  /** The money part of a claim, with the cache adjustment worked out. */
  lemma PayClaimExact(s: Store, id: Symbol, who: Address, amount: int)
    requires Inv(s) && id in s.projects && 0 <= amount <= Balance(s, id) && PayClaim(s, id, who, amount).1.Ok?
    ensures PaidClaimState(s, PayClaim(s, id, who, amount).0, id, who, amount)
  {
    hide BalanceTotal, CheckedTotal, AllIds, BucketedIds, Dense, Distinct, ClaimedTotal, ValidSplit, Adjust, Transfer,
      ClaimedBy, FitsI128, Epoch;
    var t, s1 := s.projects[id].token, s.(balances := s.balances[id := Balance(s, id) - amount]);
    LiveTotalBounds(s, t);
    LiveTotalSet(s, id, Balance(s, id) - amount, t);
    AdjustExact(s, s1, id);
  }

  /** The store after a claim of `amount`. */
  ghost predicate PaidClaimState(s: Store, s': Store, id: Symbol, who: Address, amount: int)
    requires id in s.projects
  {
    var p, t, key := s.projects[id], s.projects[id].token, (id, who);
    var b' := s.balances[id := Balance(s, id) - amount];
    var moved := Transfer(s.bank, t, s.self, who, amount);
    && moved.Some?
    && s' == s.(balances := b',
                accounted := s.accounted[t := LiveTotal(s.(balances := b'), t)],
                projects := s.projects[id := p.(totalDistributed := p.totalDistributed + amount)],
                claimed := s.claimed[key := ClaimedBy(s.claimed, id, who) + amount],
                lastClaimAmount := s.lastClaimAmount[key := amount],
                lastClaimEpoch := s.lastClaimEpoch[key := Epoch(s, id)],
                bank := moved.value)
  }

  lemma ClaimExact(s: Store, auth: set<Address>, id: Symbol, who: Address)
    requires Inv(s) && Claim(s, auth, id, who).1.Ok? && Claim(s, auth, id, who).1.reply != Amount(0)
    ensures id in s.projects && Claim(s, auth, id, who).1.reply.Amount?
    ensures PaidClaimState(s, Claim(s, auth, id, who).0, id, who, Claim(s, auth, id, who).1.reply.value)
  {
    hide Claim, PayClaim, PaidClaimState, Portion, SharePoints, Balance, IndexOk, CacheOk, Solvent, ClaimsOk, EpochsOk,
      BankOk;
    ClaimDue(s, auth, id, who);
    ClaimAmount(s, auth, id, who);
    PayClaimExact(s, id, who, Claim(s, auth, id, who).1.reply.value);
  }

  lemma ClaimOfNothing(s: Store, auth: set<Address>, id: Symbol, who: Address)
    requires Claim(s, auth, id, who).1 == Ok(Amount(0))
    ensures Claim(s, auth, id, who).0 == s
  {
    hide PayClaim, SharePoints, Portion, FitsI128, Epoch;
    forall amount | amount > 0 && id in s.projects && PayClaim(s, id, who, amount).1.Ok?
      ensures PayClaim(s, id, who, amount).1.reply == Amount(amount)
    {
      PayClaimReply(s, id, who, amount);
    }
  }

  /** The ledger side of a paying claim. */
  lemma PaidClaimLedgers(s: Store, s': Store, id: Symbol, who: Address, amount: nat)
    requires Inv(s) && id in s.projects && who != s.self && PaidClaimState(s, s', id, who, amount)
    ensures BankOk(s'.bank) && ClaimedNonNegative(s'.claimed)
    ensures Holding(s', s.projects[id].token) == Holding(s, s.projects[id].token) - amount
    ensures forall t :: t != s.projects[id].token ==> Holding(s', t) == Holding(s, t)
    ensures forall x :: ClaimedTotal(s'.claimed, x) == ClaimedTotal(s.claimed, x) + if x == id then amount else 0
    ensures forall x, a :: ClaimedBy(s'.claimed, x, a) == ClaimedBy(s.claimed, x, a) + if (x, a) == (id, who) then amount else 0
    ensures ClaimedBy(s.claimed, id, who) >= 0
  {
    hide ClaimedTotal, LiveTotal, Transfer, ProjectsOk, IndexOk, CacheOk, Solvent, EpochsOk, Epoch;
    TransferEffect(s.bank, s.projects[id].token, s.self, who, amount);
    forall x ensures ClaimedTotal(s'.claimed, x) == ClaimedTotal(s.claimed, x) + if x == id then amount else 0 {
      ClaimedUpdate(s.claimed, id, who, ClaimedBy(s.claimed, id, who) + amount, x);
    }
  }

  lemma PaidClaimKeepsInv(s: Store, s': Store, id: Symbol, who: Address, amount: nat)
    requires Inv(s) && id in s.projects && who != s.self && 0 < amount <= Balance(s, id) && PaidClaimState(s, s', id, who, amount)
    ensures Inv(s')
  {
    hide BalanceTotal, AllIds, BucketedIds, Dense, Distinct, ClaimedTotal, ValidSplit, LiveTotal, Transfer, Epoch,
      ClaimedBy, BankOk, ClaimedNonNegative;
    PaidClaimLedgers(s, s', id, who, amount);
    RecordsMoved(s, s', id, amount);
    EpochClaimed(s, s', id, who);
    MoneyMoved(s, s', id);
  }

  lemma ClaimKeepsInv(s: Store, auth: set<Address>, id: Symbol, who: Address)
    requires Inv(s) && Claim(s, auth, id, who).1.Ok?
    ensures Inv(Claim(s, auth, id, who).0)
  {
    hide Claim, SharePoints, Portion, PaidClaimState, IndexOk, CacheOk, Solvent, ClaimsOk, EpochsOk, BankOk;
    var (s', r) := Claim(s, auth, id, who);
    if r.reply == Amount(0) {
      ClaimOfNothing(s, auth, id, who);
    } else {
      ClaimAmount(s, auth, id, who);
      ClaimExact(s, auth, id, who);
      PaidClaimKeepsInv(s, s', id, who, r.reply.value);
    }
  }

  // ---------- withdrawing what no project owns ----------

  /** In every good state the reported unallocated amount is holding minus live total; the clamp is never needed. */
  lemma UnallocatedExact(s: Store, token: Address)
    requires Inv(s)
    ensures Unallocated(s, token) == Some(Holding(s, token) - LiveTotal(s, token))
  {
    LiveTotalBounds(s, token);
  }

  /** Any sound bank that still covers every live total may replace the one in place. */
  lemma BankSwapKeepsInv(s: Store, bank: Bank)
    requires Inv(s) && BankOk(bank) && forall t :: Held(bank, t, s.self) >= LiveTotal(s, t)
    ensures Inv(s.(bank := bank))
  {
    hide AllIds, BucketedIds, Dense, Distinct, ClaimedTotal, ValidSplit, BalanceTotal, BankOk;
    assert forall t :: LiveTotal(s.(bank := bank), t) == LiveTotal(s, t);
    assert forall id :: Epoch(s.(bank := bank), id) == Epoch(s, id);
  }

  lemma WithdrawDue(s: Store, auth: set<Address>, admin: Address, token: Address, to: Address, amount: int)
    requires WithdrawUnallocated(s, auth, admin, token, to, amount).1.Ok?
    ensures to != s.self && amount > 0 && Unallocated(s, token).Some? && amount <= Unallocated(s, token).value
    ensures var moved := Transfer(s.bank, token, s.self, to, amount);
            moved.Some? && WithdrawUnallocated(s, auth, admin, token, to, amount).0 == s.(bank := moved.value)
  {
    hide Transfer, Unallocated;
  }

  lemma WithdrawKeepsInv(s: Store, auth: set<Address>, admin: Address, token: Address, to: Address, amount: int)
    requires Inv(s) && WithdrawUnallocated(s, auth, admin, token, to, amount).1.Ok?
    ensures Inv(WithdrawUnallocated(s, auth, admin, token, to, amount).0)
  {
    hide WithdrawUnallocated, Unallocated, Transfer, LiveTotal, ProjectsOk, IndexOk, CacheOk, ClaimsOk, EpochsOk;
    WithdrawDue(s, auth, admin, token, to, amount);
    UnallocatedExact(s, token);
    TransferEffect(s.bank, token, s.self, to, amount);
    BankSwapKeepsInv(s, Transfer(s.bank, token, s.self, to, amount).value);
  }

  // ---------- index and records ----------

  lemma MigrateKeepsInv(s: Store)
    requires Inv(s)
    ensures Inv(s.(index := Migrate(s.index)))
  {
    hide BalanceTotal, CheckedTotal, AllIds, BucketedIds, Dense, Distinct, ClaimedTotal, ValidSplit, Migrate;
    IdsDistinct(s);
    MigrationPreservesIndex(s.index);
    assert forall t :: LiveTotal(s.(index := Migrate(s.index)), t) == LiveTotal(s, t);
  }

  /** A record change that keeps the token and the payout counters. */
  lemma RecordKeepsInv(s: Store, id: Symbol, p: SplitProject)
    requires Inv(s) && id in s.projects && ValidSplit(p.collaborators)
    requires p == s.projects[id].(title := p.title, projectType := p.projectType, owner := p.owner,
                                  collaborators := p.collaborators, locked := p.locked)
    ensures Inv(SetProject(s, id, p))
  {
    hide BalanceTotal, CheckedTotal, AllIds, BucketedIds, Dense, Distinct, ClaimedTotal, ValidSplit;
    forall t ensures LiveTotal(SetProject(s, id, p), t) == LiveTotal(s, t) {
      LiveTotalRecord(s, id, p, t);
    }
  }

  lemma CreateLiveTotal(s: Store, s': Store, id: Symbol, token: Address)
    requires Inv(s) && id !in s.projects && id in s'.projects
    requires s'.projects == s.projects[id := s'.projects[id]] && s'.balances == s.balances[id := 0]
    requires AllIds(s'.index) == AllIds(s.index) + [id]
    ensures LiveTotal(s', token) == LiveTotal(s, token)
  {
    var ids := AllIds(s.index);
    assert id !in ids;
    BalanceTotalFrame(ids, s.projects, s.balances, s'.projects, s'.balances, token);
    assert (ids + [id])[..|ids|] == ids;
  }

  lemma ClaimedNothing(claimed: map<(Symbol, Address), int>, id: Symbol)
    requires forall k :: k in claimed ==> k.0 != id
    ensures ClaimedTotal(claimed, id) == 0
  {
    assert ClaimedFor(claimed, id) == map[];
  }

  lemma CreateIndex(s: Store, id: Symbol)
    requires Inv(s) && id !in s.projects
    ensures var ix := AppendByCount(Migrate(s.index), s.projectCount + 1, id);
            Dense(ix) && ix.flat.None? && AllIds(ix) == BucketedIds(ix) == AllIds(s.index) + [id] && Distinct(AllIds(ix))
  {
    IdsDistinct(s);
    CreateGrowsAtEnd(s.index, s.projectCount + 1, id);
    assert id !in AllIds(s.index);
  }

  lemma CreateKeepsInv(s: Store, auth: set<Address>, owner: Address, id: Symbol, title: string, kind: string,
                       token: Address, cs: seq<Collaborator>)
    requires Inv(s) && CreateProject(s, auth, owner, id, title, kind, token, cs).1.Ok?
    ensures Inv(CreateProject(s, auth, owner, id, title, kind, token, cs).0)
  {
    hide BalanceTotal, CheckedTotal, AllIds, BucketedIds, Dense, Distinct, ClaimedTotal, ValidSplit, Migrate,
      AppendByCount, Validate, LiveTotal;
    var s' := CreateProject(s, auth, owner, id, title, kind, token, cs).0;
    ValidationIsExact(cs, Cap(s.config));
    CreateIndex(s, id);
    ClaimedNothing(s.claimed, id);
    forall t ensures LiveTotal(s', t) == LiveTotal(s, t) {
      CreateLiveTotal(s, s', id, t);
    }
  }

  // ---------- batches ----------

  /** The left-to-right run of `distribute`, errors leaving the state alone; `None` once one traps. */
  ghost function Sequentially(s: Store, ids: seq<Symbol>): Option<Store> {
    if ids == [] then Some(s)
    else
      var before := Sequentially(s, ids[..|ids| - 1]);
      if before.None? then None
      else
        var (s', r) := Distribute(before.value, ids[|ids| - 1]);
        match r case Ok(_) => Some(s') case Err(_) => before case Trap => None
  }

  /** The report of that run: one row an entry, in order. */
  ghost function Rows(s: Store, ids: seq<Symbol>): seq<BatchRow>
    requires Sequentially(s, ids).Some?
  {
    if ids == [] then []
    else
      var init, last := ids[..|ids| - 1], ids[|ids| - 1];
      var r := Distribute(Sequentially(s, init).value, last).1;
      Rows(s, init) + [BatchRow(last, if r.Err? then Some(r.error) else None)]
  }

  /** What a run of distributions never disturbs. */
  ghost predicate Steady(s: Store, s': Store) {
    s'.config == s.config && s'.projects.Keys == s.projects.Keys && s'.self == s.self && s'.index == s.index
    && forall id :: Balance(s', id) == Balance(s, id) || Balance(s', id) == 0
  }

  lemma DistributeSteady(s: Store, id: Symbol)
    requires Inv(s) && Distribute(s, id).1.Ok?
    ensures Inv(Distribute(s, id).0) && Steady(s, Distribute(s, id).0)
    ensures id in s.projects && Balance(Distribute(s, id).0, id) == 0
  {
    hide Inv, Distribute, LiveTotal, ClaimedTotal;
    DistributeKeepsInv(s, id);
    DistributeLedgers(s, id);
  }

  lemma {:induction false} SequentiallySteady(s: Store, ids: seq<Symbol>)
    requires Inv(s) && Sequentially(s, ids).Some?
    ensures Inv(Sequentially(s, ids).value) && Steady(s, Sequentially(s, ids).value)
    decreases |ids|
  {
    hide Inv, Distribute;
    if ids != [] {
      var init, last := ids[..|ids| - 1], ids[|ids| - 1];
      SequentiallySteady(s, init);
      if Distribute(Sequentially(s, init).value, last).1.Ok? {
        DistributeSteady(Sequentially(s, init).value, last);
      }
    }
  }

  lemma {:induction false} BatchLoop(s: Store, ids: seq<Symbol>, k: nat)
    requires Inv(s) && !s.config.paused && k <= |ids|
    requires Sequentially(s, ids[..k]).Some?
    ensures var r := BatchFrom(Sequentially(s, ids[..k]).value, ids[k..], Rows(s, ids[..k]));
            if Sequentially(s, ids).Some? then r == (Sequentially(s, ids).value, Ok(Report(Rows(s, ids)))) else r.1 == Trap
    decreases |ids| - k
  {
    hide Inv, Distribute;
    var sk := Sequentially(s, ids[..k]).value;
    SequentiallySteady(s, ids[..k]);
    if k == |ids| {
      assert ids[..k] == ids;
    } else {
      FailedDistributeWritesNothing(sk, ids[k]);
      NotPausedInside(sk, ids[k]);
      assert ids[..k + 1][..k] == ids[..k] && ids[k..][1..] == ids[k + 1..];
      if Distribute(sk, ids[k]).1.Trap? {
        TrapSticks(s, ids, k + 1);
      } else {
        BatchLoop(s, ids, k + 1);
      }
    }
  }

  lemma NotPausedInside(s: Store, id: Symbol)
    requires Inv(s) && !s.config.paused
    ensures Distribute(s, id).1 != Err(DistributionsPaused)
  {
    hide Inv, Distribute;
    FailedDistributeWritesNothing(s, id);
    if !Payable(s, id) {
      GuardError(s, id);
    }
  }

  /** Which guard answers when `distribute` refuses. */
  lemma GuardError(s: Store, id: Symbol)
    requires !Payable(s, id)
    ensures Distribute(s, id).1 == Err(if s.config.paused then DistributionsPaused else if id !in s.projects then NotFound else NoBalance)
  {
  }

  lemma {:induction false} TrapSticks(s: Store, ids: seq<Symbol>, k: nat)
    requires k <= |ids| && Sequentially(s, ids[..k]).None?
    ensures Sequentially(s, ids).None?
    decreases |ids|
  {
    if k < |ids| {
      assert ids[..|ids| - 1][..k] == ids[..k];
      TrapSticks(s, ids[..|ids| - 1], k);
    } else {
      assert ids[..k] == ids;
    }
  }

  /** A batch is the left-to-right run of its entries, with one row each; a trap in one entry undoes the whole batch. */
  lemma BatchIsSequential(s: Store, ids: seq<Symbol>)
    requires Inv(s) && !s.config.paused
    ensures var r := BatchDistribute(s, ids);
            if Sequentially(s, ids).Some? then r == (Sequentially(s, ids).value, Ok(Report(Rows(s, ids)))) else r.1 == Trap
  {
    hide Inv, Distribute;
    assert ids[..0] == [] && ids[0..] == ids;
    BatchLoop(s, ids, 0);
  }

  lemma {:induction false} RowAt(s: Store, ids: seq<Symbol>, i: nat)
    requires Sequentially(s, ids).Some? && i < |ids|
    ensures |Rows(s, ids)| == |ids| && Sequentially(s, ids[..i]).Some? && Sequentially(s, ids[..i + 1]).Some?
    ensures var r := Distribute(Sequentially(s, ids[..i]).value, ids[i]).1;
            !r.Trap? && Rows(s, ids)[i] == BatchRow(ids[i], if r.Err? then Some(r.error) else None)
    decreases |ids|
  {
    hide Distribute;
    var init := ids[..|ids| - 1];
    if i < |init| {
      RowAt(s, init, i);
      assert init[..i] == ids[..i] && init[..i + 1] == ids[..i + 1];
    } else {
      assert ids[..i + 1] == ids;
    }
    if init != [] {
      RowAt(s, init, 0);
    }
  }

  /** An entry repeated after it was paid always reports NoBalance. */
  lemma RepeatHasNoBalance(s: Store, ids: seq<Symbol>, i: nat, j: nat)
    requires Inv(s) && !s.config.paused && Sequentially(s, ids).Some?
    requires i < j < |ids| && ids[i] == ids[j]
    ensures |Rows(s, ids)| == |ids|
    ensures Rows(s, ids)[i].error.None? ==> Rows(s, ids)[j].error == Some(NoBalance)
  {
    hide Inv, Distribute;
    RowAt(s, ids, i);
    RowAt(s, ids, j);
    if Rows(s, ids)[i].error.None? {
      var before := Sequentially(s, ids[..i]).value;
      SequentiallySteady(s, ids[..i]);
      DistributeSteady(before, ids[i]);
      assert ids[..i + 1][..i] == ids[..i];
      ZeroStays(s, ids, i + 1, j, ids[i]);
      SequentiallySteady(s, ids[..j]);
      GuardError(Sequentially(s, ids[..j]).value, ids[j]);
    }
  }

  lemma {:induction false} ZeroStays(s: Store, ids: seq<Symbol>, k: nat, j: nat, id: Symbol)
    requires Inv(s) && k <= j <= |ids| && Sequentially(s, ids[..j]).Some? && Sequentially(s, ids[..k]).Some?
    requires Balance(Sequentially(s, ids[..k]).value, id) == 0
    ensures Balance(Sequentially(s, ids[..j]).value, id) == 0
    decreases j
  {
    hide Inv, Distribute;
    if k < j {
      assert ids[..j][..j - 1] == ids[..j - 1];
      ZeroStays(s, ids, k, j - 1, id);
      var before := Sequentially(s, ids[..j - 1]).value;
      SequentiallySteady(s, ids[..j - 1]);
      if Distribute(before, ids[j - 1]).1.Ok? {
        DistributeSteady(before, ids[j - 1]);
      }
    }
  }

  // ---------- every step ----------

  /** One record is replaced; token and counters stay, the split stays valid, and a locked record changes only its owner. */
  ghost predicate Edited(s: Store, s': Store, id: Symbol) {
    && id in s.projects && id in s'.projects
    && s' == SetProject(s, id, s'.projects[id])
    && var p, p' := s.projects[id], s'.projects[id];
       && p' == p.(title := p'.title, projectType := p'.projectType, owner := p'.owner, collaborators := p'.collaborators, locked := p'.locked)
       && (ValidSplit(p.collaborators) ==> ValidSplit(p'.collaborators))
       && (p.locked ==> p' == p.(owner := p'.owner))
  }

  lemma UpdateCollaboratorsEdits(s: Store, auth: set<Address>, id: Symbol, owner: Address, cs: seq<Collaborator>)
    requires UpdateCollaborators(s, auth, id, owner, cs).1.Ok?
    ensures Edited(s, UpdateCollaborators(s, auth, id, owner, cs).0, id)
  {
    hide Validate, ValidSplit, Signed;
    ValidationIsExact(cs, Cap(s.config));
  }

  lemma OtherOwnerCallsEdit(s: Store, auth: set<Address>, id: Symbol, owner: Address, newOwner: Address, title: string, kind: string)
    ensures LockProject(s, auth, id, owner).1.Ok? ==> Edited(s, LockProject(s, auth, id, owner).0, id)
    ensures UpdateMetadata(s, auth, id, owner, title, kind).1.Ok? ==> Edited(s, UpdateMetadata(s, auth, id, owner, title, kind).0, id)
    ensures TransferOwnership(s, auth, id, owner, newOwner).1.Ok? ==> Edited(s, TransferOwnership(s, auth, id, owner, newOwner).0, id)
  {
    hide ValidSplit, Signed;
  }

  predicate OwnerCall(call: Call) {
    call.CallUpdateCollaborators? || call.CallLockProject? || call.CallUpdateMetadata? || call.CallTransferOwnership?
  }

  lemma OwnerCallEdits(s: Store, inv: Invocation)
    requires OwnerCall(inv.call) && Execute(s, inv).1.Ok?
    ensures Edited(s, Execute(s, inv).0, inv.call.id)
  {
    hide Edited, UpdateCollaborators, LockProject, UpdateMetadata, TransferOwnership, CreateProject, Deposit,
      Distribute, BatchDistribute, Claim, WithdrawUnallocated, MigrateFlatToBuckets, OutsideOk, ExecuteSetting;
    match inv.call
    case CallUpdateCollaborators(id, owner, cs) => UpdateCollaboratorsEdits(s, inv.auth, id, owner, cs);
    case CallLockProject(id, owner) => OtherOwnerCallsEdit(s, inv.auth, id, owner, owner, "", "");
    case CallUpdateMetadata(id, owner, title, kind) => OtherOwnerCallsEdit(s, inv.auth, id, owner, owner, title, kind);
    case CallTransferOwnership(id, owner, newOwner) => OtherOwnerCallsEdit(s, inv.auth, id, owner, newOwner, "", "");
  }

  lemma OwnerCallKeepsInv(s: Store, inv: Invocation)
    requires Inv(s) && OwnerCall(inv.call) && Execute(s, inv).1.Ok?
    ensures Inv(Execute(s, inv).0)
  {
    hide Inv, ValidSplit, Execute;
    OwnerCallEdits(s, inv);
    StoredSplit(s, inv.call.id);
    RecordKeepsInv(s, inv.call.id, Execute(s, inv).0.projects[inv.call.id]);
  }

  lemma StoredSplit(s: Store, id: Symbol)
    requires Inv(s) && id in s.projects
    ensures ValidSplit(s.projects[id].collaborators)
  {
  }

  lemma OutsideKeepsInv(s: Store, bank: Bank)
    requires Inv(s) && OutsideOk(s, bank)
    ensures Inv(s.(bank := bank))
  {
    hide LiveTotal, ProjectsOk, IndexOk, CacheOk, ClaimsOk, EpochsOk, BankOk;
    BankSwapKeepsInv(s, bank);
  }

  lemma SettingsKeepInv(s: Store, config: Config)
    requires Inv(s)
    ensures Inv(s.(config := config))
  {
    hide AllIds, BucketedIds, Dense, Distinct, ClaimedTotal, ValidSplit, BalanceTotal, BankOk;
    assert forall t :: LiveTotal(s.(config := config), t) == LiveTotal(s, t);
    assert forall id :: Epoch(s.(config := config), id) == Epoch(s, id);
  }

  /** A settings call writes the settings only. */
  lemma SettingFrameOnly(s: Store, inv: Invocation)
    requires ConfigCall(inv.call)
    ensures ExecuteSetting(s, inv).0 == s.(config := ExecuteSetting(s, inv).0.config)
  {
    hide Signed, Allowing, Disallowing;
  }

  lemma SettingKeepsInv(s: Store, inv: Invocation)
    requires Inv(s) && ConfigCall(inv.call)
    ensures Inv(ExecuteSetting(s, inv).0)
  {
    hide Inv, ExecuteSetting;
    SettingFrameOnly(s, inv);
    SettingsKeepInv(s, ExecuteSetting(s, inv).0.config);
  }

  /** No step, successful or not, leaves the invariant. */
  lemma StepKeepsInv(s: Store, inv: Invocation)
    requires Inv(s)
    ensures Inv(Step(s, inv).0)
  {
    hide Inv, Distribute, Claim, Deposit, CreateProject, WithdrawUnallocated, UpdateCollaborators, LockProject,
      UpdateMetadata, TransferOwnership, BatchDistribute, Migrate, ExecuteSetting;
    if Execute(s, inv).1.Ok? {
      match inv.call
      case CallCreateProject(owner, id, title, kind, token, cs) => CreateKeepsInv(s, inv.auth, owner, id, title, kind, token, cs);
      case CallUpdateCollaborators(_, _, _) => OwnerCallKeepsInv(s, inv);
      case CallLockProject(_, _) => OwnerCallKeepsInv(s, inv);
      case CallUpdateMetadata(_, _, _, _) => OwnerCallKeepsInv(s, inv);
      case CallTransferOwnership(_, _, _) => OwnerCallKeepsInv(s, inv);
      case CallDeposit(id, from, amount) => DepositKeepsInv(s, inv.auth, id, from, amount);
      case CallDistribute(id) => DistributeKeepsInv(s, id);
      case CallBatchDistribute(ids) => BatchKeepsInv(s, ids);
      case CallClaim(id, claimer) => ClaimKeepsInv(s, inv.auth, id, claimer);
      case CallWithdrawUnallocated(admin, token, to, amount) => WithdrawKeepsInv(s, inv.auth, admin, token, to, amount);
      case CallMigrateFlatToBuckets(_) => MigrateKeepsInv(s);
      case CallSetAdmin(_) => SettingKeepsInv(s, inv);
      case CallSetPaused(_, _) => SettingKeepsInv(s, inv);
      case CallSetMaxCollaborators(_, _) => SettingKeepsInv(s, inv);
      case CallAllowToken(_, _) => SettingKeepsInv(s, inv);
      case CallDisallowToken(_, _) => SettingKeepsInv(s, inv);
      case OutsideTransfers(bank) => OutsideKeepsInv(s, bank);
    }
  }

  lemma BatchKeepsInv(s: Store, ids: seq<Symbol>)
    requires Inv(s) && BatchDistribute(s, ids).1.Ok?
    ensures Inv(BatchDistribute(s, ids).0)
  {
    hide Inv, Distribute;
    BatchIsSequential(s, ids);
    SequentiallySteady(s, ids);
  }

  lemma {:induction false} RunKeepsInv(s: Store, run: seq<Invocation>)
    requires Inv(s)
    ensures Inv(Run(s, run))
    decreases |run|
  {
    hide Inv, Step;
    if run != [] {
      RunKeepsInv(s, run[..|run| - 1]);
      StepKeepsInv(Run(s, run[..|run| - 1]), run[|run| - 1]);
    }
  }
}
