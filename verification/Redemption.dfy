/**
 Who is paid what by a distribution, when a distribution goes through, and what
 the administrator can take.
 */
module Redemption {
  import opened Arithmetic
  import opened Options
  import opened SplitTypes
  import opened ProjectIndex
  import opened Shares
  import opened Sums
  import opened Protocol
  import opened Payments
  import opened Invariant
  import opened Preservation

  /** A successful distribution, stated from outside: every ledger, in closed form. */
  lemma DistributionIsExact(s: Store, id: Symbol)
    requires Inv(s) && Distribute(s, id).1.Ok?
    ensures id in s.projects && Balance(s, id) > 0
    ensures var s' := Distribute(s, id).0;
            var p, cs, balance := s.projects[id], s.projects[id].collaborators, Balance(s, id);
            && PaidExactly(s, s', id, p, balance, 0)
            && PayoutTotal(balance, cs, |cs|) == balance
            && Balance(s', id) == 0
            && s'.projects[id] == p.(totalDistributed := p.totalDistributed + balance, distributionRound := p.distributionRound + 1)
            && (forall x :: x != id ==> Balance(s', x) == Balance(s, x))
            && (forall x :: x in s.projects && x != id ==> x in s'.projects && s'.projects[x] == s.projects[x])
  {
    hide Distribute, PayAll, LiveTotal, Payout, ValidSplit, ClaimedTotal, PayoutTotal, LeavesContract, IndexOk,
      CacheOk, Solvent, ClaimsOk, EpochsOk, BankOk;
    DistributeOk(s, id);
    PayoutSign(Balance(s, id), s.projects[id].collaborators, |s.projects[id].collaborators|);
  }

  /** Every address due something can receive it: not refused by the token, and with room in its own balance. */
  predicate ReceiversFit(s: Store, p: SplitProject, balance: nat, i: nat) {
    forall j :: i <= j < |p.collaborators| && Payout(balance, p.collaborators, j) > 0 ==>
      var who := p.collaborators[j].address;
      && (p.token, who) !in s.bank.refused
      && (who == s.self || Held(s.bank, p.token, who) + Payout(balance, p.collaborators, j) <= I128_MAX)
  }

  /** One payment goes through exactly when its receiver can take it. */
  lemma PayOneWorks(s: Store, id: Symbol, token: Address, to: Address, amount: int)
    requires BankOk(s.bank) && ClaimedNonNegative(s.claimed) && amount > 0
    requires Holding(s, token) >= amount && ClaimedTotal(s.claimed, id) + amount <= I128_MAX
    ensures PayOne(s, id, token, to, amount).Some? <==>
            (token, to) !in s.bank.refused && (to == s.self || Held(s.bank, token, to) + amount <= I128_MAX)
  {
    hide ClaimedTotal;
    ClaimedBelowTotal(s.claimed, id, to);
  }

  lemma SameReceivers(s: Store, s1: Store, id: Symbol, p: SplitProject, balance: nat, i: nat)
    requires ValidSplit(p.collaborators) && i < |p.collaborators| && s1.self == s.self && s1.bank.refused == s.bank.refused
    requires var to := p.collaborators[i].address;
             forall t, a :: t != p.token || (a != to && a != s.self) ==> Held(s1.bank, t, a) == Held(s.bank, t, a)
    ensures ReceiversFit(s1, p, balance, i + 1) <==> ReceiversFit(s, p, balance, i + 1)
  {
    hide Payout;
    var cs := p.collaborators;
    var all := AddressesOf(cs);
    forall j | i < j < |cs| ensures cs[j].address != cs[i].address {
      assert all[i] != all[j];
    }
  }

  lemma {:induction false} PayAllWorks(s: Store, id: Symbol, p: SplitProject, balance: nat, i: nat)
    requires LoopPre(s, p, balance, i)
    requires Holding(s, p.token) >= balance - PayoutTotal(balance, p.collaborators, i)
    requires ClaimedTotal(s.claimed, id) + balance - PayoutTotal(balance, p.collaborators, i) <= I128_MAX
    ensures PayAll(s, id, p, balance, i).Some? <==> ReceiversFit(s, p, balance, i)
    decreases |p.collaborators| - i
  {
    hide Payout, PayOne, ClaimedTotal, ValidSplit;
    var cs := p.collaborators;
    if i < |cs| {
      LoopAmount(p, balance, i);
      var amount, to := Payout(balance, cs, i), cs[i].address;
      if amount > 0 {
        PayOneWorks(s, id, p.token, to, amount);
        var paid := PayOne(s, id, p.token, to, amount);
        if paid.Some? {
          PayOneEffect(s, id, p.token, to, amount);
          PayOneClaims(s, id, p.token, to, amount);
          PayAllWorks(paid.value, id, p, balance, i + 1);
          SameReceivers(s, paid.value, id, p, balance, i);
        }
      } else {
        PayAllWorks(s, id, p, balance, i + 1);
      }
    }
  }

  lemma PayOneClaims(s: Store, id: Symbol, token: Address, to: Address, amount: int)
    requires PayOne(s, id, token, to, amount).Some?
    ensures ClaimedTotal(PayOne(s, id, token, to, amount).value.claimed, id) == ClaimedTotal(s.claimed, id) + amount
  {
    hide ClaimedTotal, Transfer;
    ClaimedUpdate(s.claimed, id, to, ClaimedBy(s.claimed, id, to) + amount, id);
  }

  /**
   In every good state a distribution succeeds exactly when it is not paused,
   the project holds at least one unit a collaborator, its products and counters
   fit, and its receivers can take their payouts. The contract's own funds are
   never the obstacle.
   */
  lemma DistributionSucceedsIff(s: Store, id: Symbol)
    requires Inv(s)
    ensures Distribute(s, id).1.Ok? <==>
            && Payable(s, id)
            && ProductsFit(s.projects[id].collaborators, Balance(s, id), 0)
            && CountersFit(s, id)
            && ReceiversFit(s, s.projects[id], Balance(s, id), 0)
  {
    hide Distribute, PayAll, ProductsFit, ReceiversFit, LiveTotal, ClaimedTotal, ValidSplit, AllIds, BucketedIds,
      Dense, Distinct;
    FailedDistributeWritesNothing(s, id);
    if Payable(s, id) {
      DistributeExact(s, id);
      if CountersFit(s, id) {
        LiveTotalBounds(s, s.projects[id].token);
        PayAllWorks(s, id, s.projects[id], Balance(s, id), 0);
      }
    }
  }

  /** Any balance up to (2^127 - 1) / 9999 keeps every product inside i128. */
  lemma ModestBalanceFits(cs: seq<Collaborator>, balance: nat)
    requires ValidSplit(cs) && balance <= I128_MAX / (TOTAL_BPS - 1)
    ensures ProductsFit(cs, balance, 0)
  {
    forall j | 0 <= j < |cs| - 1 ensures FitsI128(balance * cs[j].basisPoints) {
      ShareBelowWhole(cs, j);
      ProductBound(balance, cs[j].basisPoints);
    }
  }

  lemma ProductBound(balance: nat, bps: nat)
    requires balance <= I128_MAX / (TOTAL_BPS - 1) && bps <= TOTAL_BPS - 1
    ensures balance * bps <= I128_MAX
  {
    ScaledUp(balance, bps, TOTAL_BPS - 1);
  }

  /**
   Funds stay redeemable: whatever ran before, an unpaused project with at least
   one unit a collaborator, a balance within (2^127 - 1) / 9999, room in its
   counters and receivers that can be paid is distributed in full.
   */
  lemma RedeemableOverRuns(s: Store, run: seq<Invocation>, id: Symbol)
    requires Inv(s)
    requires var end := Run(s, run);
             && Payable(end, id) && Balance(end, id) <= I128_MAX / (TOTAL_BPS - 1)
             && CountersFit(end, id) && ReceiversFit(end, end.projects[id], Balance(end, id), 0)
    ensures Distribute(Run(s, run), id).1.Ok? && Balance(Distribute(Run(s, run), id).0, id) == 0
  {
    hide Run, Inv, Distribute, ReceiversFit, ProductsFit, ValidSplit;
    var end := Run(s, run);
    RunKeepsInv(s, run);
    StoredSplit(end, id);
    ModestBalanceFits(end.projects[id].collaborators, Balance(end, id));
    DistributionSucceedsIff(end, id);
    DistributeSteady(end, id);
  }

  // ---------- what no project owns ----------

  /** A withdrawal takes exactly `amount` out of the unallocated funds of one token and nothing from any project. */
  lemma WithdrawalIsExact(s: Store, auth: set<Address>, admin: Address, token: Address, to: Address, amount: int)
    requires Inv(s) && WithdrawUnallocated(s, auth, admin, token, to, amount).1.Ok?
    ensures var s' := WithdrawUnallocated(s, auth, admin, token, to, amount).0;
            && s' == s.(bank := s'.bank)
            && Unallocated(s, token).Some? && amount <= Unallocated(s, token).value
            && Unallocated(s', token) == Some(Unallocated(s, token).value - amount)
            && (forall t :: t != token ==> Unallocated(s', t) == Unallocated(s, t))
            && Held(s'.bank, token, to) == Held(s.bank, token, to) + amount
  {
    hide LiveTotal, Inv, Unallocated, WithdrawUnallocated;
    var s' := WithdrawUnallocated(s, auth, admin, token, to, amount).0;
    WithdrawKeepsInv(s, auth, admin, token, to, amount);
    WithdrawMoves(s, auth, admin, token, to, amount);
    forall t ensures Unallocated(s', t) == Some(Holding(s', t) - LiveTotal(s, t)) && Unallocated(s, t) == Some(Holding(s, t) - LiveTotal(s, t)) {
      UnallocatedExact(s, t);
      UnallocatedExact(s', t);
      SameLive(s, s', t);
    }
  }

  lemma SameLive(s: Store, s': Store, t: Address)
    requires s' == s.(bank := s'.bank)
    ensures LiveTotal(s', t) == LiveTotal(s, t)
  {
  }

  lemma WithdrawMoves(s: Store, auth: set<Address>, admin: Address, token: Address, to: Address, amount: int)
    requires Inv(s) && WithdrawUnallocated(s, auth, admin, token, to, amount).1.Ok?
    ensures Unallocated(s, token).Some? && amount <= Unallocated(s, token).value
    ensures var s' := WithdrawUnallocated(s, auth, admin, token, to, amount).0;
            && s' == s.(bank := s'.bank)
            && Holding(s', token) == Holding(s, token) - amount
            && Held(s'.bank, token, to) == Held(s.bank, token, to) + amount
            && forall t :: t != token ==> Holding(s', t) == Holding(s, t)
  {
    hide WithdrawUnallocated, Unallocated, ProjectsOk, IndexOk, CacheOk, Solvent, ClaimsOk, EpochsOk, Transfer;
    WithdrawDue(s, auth, admin, token, to, amount);
    TransferEffect(s.bank, token, s.self, to, amount);
  }

  /** The whole payout goes to others exactly when the contract itself is due nothing. */
  lemma {:induction false} LeavesAllIff(s: Store, p: SplitProject, balance: nat, i: nat)
    requires ValidSplit(p.collaborators) && balance > 0 && i <= |p.collaborators|
    ensures LeavesContract(s, p, balance, i) == balance - PayoutTotal(balance, p.collaborators, i) <==>
            forall j :: i <= j < |p.collaborators| && p.collaborators[j].address == s.self ==> Payout(balance, p.collaborators, j) == 0
    decreases |p.collaborators| - i
  {
    hide Payout, ValidSplit;
    PayoutSign(balance, p.collaborators, i);
    if i < |p.collaborators| {
      LeavesAllIff(s, p, balance, i + 1);
      LeavesBounded(s, p, balance, i + 1);
    }
  }

  /**
   A distribution never lowers the unallocated funds, and leaves them as they
   were exactly when the contract is not itself a paid collaborator; what it is
   paid as a collaborator becomes unallocated.
   */
  lemma DistributionAndUnallocated(s: Store, id: Symbol)
    requires Inv(s) && Distribute(s, id).1.Ok?
    ensures id in s.projects && Balance(s, id) > 0
    ensures var s' := Distribute(s, id).0;
            var p, balance := s.projects[id], Balance(s, id);
            && Unallocated(s, p.token).Some?
            && Unallocated(s', p.token) == Some(Unallocated(s, p.token).value + balance - LeavesContract(s, p, balance, 0))
            && (Unallocated(s', p.token) == Unallocated(s, p.token) <==>
                forall j :: 0 <= j < |p.collaborators| && p.collaborators[j].address == s.self ==> Payout(balance, p.collaborators, j) == 0)
  {
    hide Distribute, PayAll, LiveTotal, Payout, ValidSplit, ClaimedTotal, LeavesContract, Inv, Accounted, PaidExactly;
    DistributeOk(s, id);
    DistributeKeepsInv(s, id);
    var s', t := Distribute(s, id).0, s.projects[id].token;
    UnallocatedExact(s, t);
    UnallocatedExact(s', t);
    SettledLive(s, s', id, t);
    StoredSplit(s, id);
    LeavesAllIff(s, s.projects[id], Balance(s, id), 0);
  }

  lemma SettledLive(s: Store, s': Store, id: Symbol, t: Address)
    requires Inv(s) && id in s.projects && s' == Settled(s, s', id) && s'.index == s.index
    ensures LiveTotal(s', t) == LiveTotal(s, t) - if t == s.projects[id].token then Balance(s, id) else 0
  {
    hide AllIds, BalanceTotal, Dense, Distinct, BucketedIds, ClaimedTotal, ValidSplit;
    LiveTotalSet(s, id, 0, t);
    LiveTotalRecord(s.(balances := s.balances[id := 0]), id, s'.projects[id], t);
  }
}
