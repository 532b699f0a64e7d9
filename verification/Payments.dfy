/**
 What the payment loop of `distribute` does to the token ledger and to the
 claimed ledger, in closed form.
 */
module Payments {
  import opened Options
  import opened SplitTypes
  import opened Shares
  import opened Sums
  import opened Protocol

  lemma TransferEffect(bank: Bank, token: Address, from: Address, to: Address, amount: int)
    requires BankOk(bank)
    requires Transfer(bank, token, from, to, amount).Some?
    ensures var after := Transfer(bank, token, from, to, amount).value;
            && BankOk(after)
            && after.refused == bank.refused
            && (from == to ==> forall t, a :: Held(after, t, a) == Held(bank, t, a))
            && (from != to ==>
                  && Held(after, token, from) == Held(bank, token, from) - amount
                  && Held(after, token, to) == Held(bank, token, to) + amount
                  && forall t, a :: (t, a) != (token, from) && (t, a) != (token, to) ==> Held(after, t, a) == Held(bank, t, a))
  {
  }

  /** The bank and the claimed ledger are the only things a payment changes. */
  predicate OnlyPaid(s: Store, s': Store) {
    s' == s.(bank := s'.bank, claimed := s'.claimed)
  }

  ghost predicate ClaimedNonNegative(claimed: map<(Symbol, Address), int>) {
    forall k :: k in claimed ==> claimed[k] >= 0
  }

  /** Position `j` of the split is due its payout, and the loop has reached `i`. */
  ghost predicate PaidExactly(s: Store, s': Store, id: Symbol, p: SplitProject, balance: nat, i: nat) {
    var cs := p.collaborators;
    && (forall j :: i <= j < |cs| ==>
          && ClaimedBy(s'.claimed, id, cs[j].address) == ClaimedBy(s.claimed, id, cs[j].address) + Payout(balance, cs, j)
          && (cs[j].address != s.self ==>
                Held(s'.bank, p.token, cs[j].address) == Held(s.bank, p.token, cs[j].address) + Payout(balance, cs, j)))
    && (forall x, a :: x != id || (forall j :: i <= j < |cs| ==> a != cs[j].address) ==>
          ClaimedBy(s'.claimed, x, a) == ClaimedBy(s.claimed, x, a))
    && (forall t, a :: a != s.self && (t != p.token || (forall j :: i <= j < |cs| ==> a != cs[j].address)) ==>
          Held(s'.bank, t, a) == Held(s.bank, t, a))
  }

  /** What the contract's own holding gives up when positions `i` onward are paid. */
  function LeavesContract(s: Store, p: SplitProject, balance: nat, i: nat): int
    requires i <= |p.collaborators|
    decreases |p.collaborators| - i
  {
    if i == |p.collaborators| then 0
    else (if p.collaborators[i].address == s.self then 0 else Payout(balance, p.collaborators, i))
         + LeavesContract(s, p, balance, i + 1)
  }

  ghost predicate LoopPre(s: Store, p: SplitProject, balance: nat, i: nat) {
    && ValidSplit(p.collaborators) && balance > 0
    && i <= |p.collaborators|
    && BankOk(s.bank) && ClaimedNonNegative(s.claimed)
  }

  /** The two facts about payouts that the inductions below need. */
  lemma PayoutSign(balance: nat, cs: seq<Collaborator>, i: nat)
    requires ValidSplit(cs) && balance > 0 && i <= |cs|
    ensures i < |cs| ==> Payout(balance, cs, i) >= 0
    ensures i == |cs| ==> PayoutTotal(balance, cs, i) == balance
  {
    PayoutsExact(balance, cs);
  }

  lemma LoopAmount(p: SplitProject, balance: nat, i: nat)
    requires ValidSplit(p.collaborators) && balance > 0 && i < |p.collaborators|
    ensures var cs := p.collaborators;
            Payout(balance, cs, i) ==
            if i == |cs| - 1 then balance - PayoutTotal(balance, cs, i) else Portion(balance, cs[i].basisPoints)
    ensures 0 <= Payout(balance, p.collaborators, i)
    ensures 0 <= PayoutTotal(balance, p.collaborators, i)
    ensures PayoutTotal(balance, p.collaborators, i + 1) <= balance
  {
    var cs := p.collaborators;
    PayoutTotalIsFloors(balance, cs, i);
    PayoutsExact(balance, cs);
    PayoutTotalMonotone(balance, cs, i + 1, |cs|);
    PayoutTotalMonotone(balance, cs, i, |cs|);
  }

  /** One payment, seen from outside. */
  lemma PayOneEffect(s: Store, id: Symbol, token: Address, to: Address, amount: int)
    requires BankOk(s.bank) && ClaimedNonNegative(s.claimed) && amount > 0
    requires PayOne(s, id, token, to, amount).Some?
    ensures var s' := PayOne(s, id, token, to, amount).value;
            && OnlyPaid(s, s') && BankOk(s'.bank) && ClaimedNonNegative(s'.claimed)
            && s'.bank.refused == s.bank.refused
            && s'.claimed.Keys == s.claimed.Keys + {(id, to)}
            && ClaimedBy(s'.claimed, id, to) == ClaimedBy(s.claimed, id, to) + amount
            && (forall x, a :: (x, a) != (id, to) ==> ClaimedBy(s'.claimed, x, a) == ClaimedBy(s.claimed, x, a))
            && (to != s.self ==> Held(s'.bank, token, to) == Held(s.bank, token, to) + amount)
            && Holding(s', token) == Holding(s, token) - (if to == s.self then 0 else amount)
            && (forall t, a :: t != token || (a != to && a != s.self) ==> Held(s'.bank, t, a) == Held(s.bank, t, a))
  {
    TransferEffect(s.bank, token, s.self, to, amount);
  }

  lemma OnlyPaidTrans(a: Store, b: Store, c: Store)
    requires OnlyPaid(a, b) && OnlyPaid(b, c)
    ensures OnlyPaid(a, c)
  {
  }

  /** Paying position `i` and then the rest pays from `i` on. */
  lemma PaidExactlyStep(s: Store, s1: Store, s': Store, id: Symbol, p: SplitProject, balance: nat, i: nat)
    requires ValidSplit(p.collaborators) && i < |p.collaborators|
    requires s1.self == s.self && PaidExactly(s1, s', id, p, balance, i + 1)
    requires var to, amount := p.collaborators[i].address, Payout(balance, p.collaborators, i);
             && ClaimedBy(s1.claimed, id, to) == ClaimedBy(s.claimed, id, to) + amount
             && (forall x, a :: (x, a) != (id, to) ==> ClaimedBy(s1.claimed, x, a) == ClaimedBy(s.claimed, x, a))
             && (to != s.self ==> Held(s1.bank, p.token, to) == Held(s.bank, p.token, to) + amount)
             && (forall t, a :: t != p.token || (a != to && a != s.self) ==> Held(s1.bank, t, a) == Held(s.bank, t, a))
    ensures PaidExactly(s, s', id, p, balance, i)
  {
    hide Payout, ShareTotal;
    var cs := p.collaborators;
    var all := AddressesOf(cs);
    forall j | i < j < |cs| ensures cs[j].address != cs[i].address {
      assert all[i] != all[j];
    }
  }

  /** The share products of positions `i` onward that stay inside i128 (the last position has none). */
  predicate ProductsFit(cs: seq<Collaborator>, balance: nat, i: nat) {
    forall j :: i <= j < |cs| - 1 ==> FitsI128(balance * cs[j].basisPoints)
  }

  /** The payment loop with the running total taken out: pay every position its `Payout`. */
  function PayAll(s: Store, id: Symbol, p: SplitProject, balance: nat, i: nat): Option<Store>
    requires i <= |p.collaborators|
    decreases |p.collaborators| - i
  {
    if i == |p.collaborators| then Some(s)
    else
      var amount := Payout(balance, p.collaborators, i);
      if amount <= 0 then PayAll(s, id, p, balance, i + 1)
      else
        var paid := PayOne(s, id, p.token, p.collaborators[i].address, amount);
        if paid.None? then None else PayAll(paid.value, id, p, balance, i + 1)
  }

  /** The loop that carries `total_sent` computes the same thing, unless a product overflows. */
  lemma {:induction false} LoopPaysAll(s: Store, id: Symbol, p: SplitProject, balance: nat, i: nat)
    requires ValidSplit(p.collaborators) && 0 < balance <= I128_MAX && i <= |p.collaborators|
    ensures var r := PayFrom(s, id, p, balance, i, PayoutTotal(balance, p.collaborators, i));
            var all := PayAll(s, id, p, balance, i);
            r == if all.Some? && ProductsFit(p.collaborators, balance, i) then Some((all.value, balance)) else None
    decreases |p.collaborators| - i
  {
    hide Payout, ValidSplit, PayOne, FloorShare, Portion;
    var cs := p.collaborators;
    if i == |cs| {
      PayoutsExact(balance, cs);
    } else {
      LoopAmount(p, balance, i);
      var amount := Payout(balance, cs, i);
      assert ProductsFit(cs, balance, i) <==> ProductsFit(cs, balance, i + 1) && (i < |cs| - 1 ==> FitsI128(balance * cs[i].basisPoints));
      if amount > 0 {
        var paid := PayOne(s, id, p.token, cs[i].address, amount);
        if paid.Some? {
          LoopPaysAll(paid.value, id, p, balance, i + 1);
        }
      } else {
        LoopPaysAll(s, id, p, balance, i + 1);
      }
    }
  }

  ghost predicate LoopEffect(s: Store, s': Store, id: Symbol, p: SplitProject, balance: nat, i: nat)
    requires i <= |p.collaborators|
  {
    && OnlyPaid(s, s')
    && BankOk(s'.bank) && ClaimedNonNegative(s'.claimed) && s'.bank.refused == s.bank.refused
    && (forall k :: k in s'.claimed ==> k in s.claimed || k.0 == id)
    && PaidExactly(s, s', id, p, balance, i)
    && Holding(s', p.token) == Holding(s, p.token) - LeavesContract(s, p, balance, i)
    && (forall t :: t != p.token ==> Holding(s', t) == Holding(s, t))
  }

  lemma NothingPaid(s: Store, id: Symbol, p: SplitProject, balance: nat)
    requires BankOk(s.bank) && ClaimedNonNegative(s.claimed)
    ensures LoopEffect(s, s, id, p, balance, |p.collaborators|)
  {
    hide Payout, BankOk, ClaimedNonNegative;
  }

  lemma {:induction false} PayAllEffect(s: Store, id: Symbol, p: SplitProject, balance: nat, i: nat)
    requires LoopPre(s, p, balance, i)
    requires PayAll(s, id, p, balance, i).Some?
    ensures LoopEffect(s, PayAll(s, id, p, balance, i).value, id, p, balance, i)
    decreases |p.collaborators| - i
  {
    hide Payout, PayOne, ValidSplit, Transfer, PaidExactly, BankOk, ClaimedNonNegative, ClaimedBy;
    var cs := p.collaborators;
    if i == |cs| {
      NothingPaid(s, id, p, balance);
    } else {
      PayoutSign(balance, cs, i);
      var amount := Payout(balance, cs, i);
      var s' := PayAll(s, id, p, balance, i).value;
      if amount > 0 {
        PayOneEffect(s, id, p.token, cs[i].address, amount);
        var s1 := PayOne(s, id, p.token, cs[i].address, amount).value;
        PayAllEffect(s1, id, p, balance, i + 1);
        SameLeaves(s, s1, p, balance, i + 1);
        OnlyPaidTrans(s, s1, s');
        PaidExactlyStep(s, s1, s', id, p, balance, i);
      } else {
        PayAllEffect(s, id, p, balance, i + 1);
        PaidExactlyStep(s, s, s', id, p, balance, i);
      }
    }
  }

  lemma {:induction false} SameLeaves(s: Store, s1: Store, p: SplitProject, balance: nat, i: nat)
    requires s.self == s1.self && i <= |p.collaborators|
    ensures LeavesContract(s, p, balance, i) == LeavesContract(s1, p, balance, i)
    decreases |p.collaborators| - i
  {
    if i < |p.collaborators| {
      SameLeaves(s, s1, p, balance, i + 1);
    }
  }

  /** The contract never gives up more than what is still to be paid. */
  lemma {:induction false} LeavesBounded(s: Store, p: SplitProject, balance: nat, i: nat)
    requires ValidSplit(p.collaborators) && balance > 0 && i <= |p.collaborators|
    ensures 0 <= LeavesContract(s, p, balance, i) <= balance - PayoutTotal(balance, p.collaborators, i)
    ensures (forall j :: i <= j < |p.collaborators| ==> p.collaborators[j].address != s.self) ==>
      LeavesContract(s, p, balance, i) == balance - PayoutTotal(balance, p.collaborators, i)
    decreases |p.collaborators| - i
  {
    PayoutSign(balance, p.collaborators, i);
    if i < |p.collaborators| {
      LeavesBounded(s, p, balance, i + 1);
    }
  }

  /** The claimed ledger of the project grows by exactly what is still to be paid; no other ledger moves. */
  lemma {:induction false} PayAllClaims(s: Store, id: Symbol, p: SplitProject, balance: nat, i: nat, x: Symbol)
    requires ValidSplit(p.collaborators) && balance > 0 && i <= |p.collaborators|
    requires PayAll(s, id, p, balance, i).Some?
    ensures ClaimedTotal(PayAll(s, id, p, balance, i).value.claimed, x) ==
            ClaimedTotal(s.claimed, x) + if x == id then balance - PayoutTotal(balance, p.collaborators, i) else 0
    decreases |p.collaborators| - i
  {
    hide Payout, ClaimedTotal, ValidSplit, Transfer;
    var cs := p.collaborators;
    PayoutSign(balance, cs, i);
    if i < |cs| {
      var amount := Payout(balance, cs, i);
      if amount > 0 {
        var s1 := PayOne(s, id, p.token, cs[i].address, amount).value;
        ClaimedUpdate(s.claimed, id, cs[i].address, ClaimedBy(s.claimed, id, cs[i].address) + amount, x);
        PayAllClaims(s1, id, p, balance, i + 1, x);
      } else {
        PayAllClaims(s, id, p, balance, i + 1, x);
      }
    }
  }

  lemma ClaimedBelowTotal(claimed: map<(Symbol, Address), int>, id: Symbol, who: Address)
    requires ClaimedNonNegative(claimed)
    ensures 0 <= ClaimedBy(claimed, id, who) <= ClaimedTotal(claimed, id)
  {
    var mine := ClaimedFor(claimed, id);
    MapTotalNonNegative(mine);
    if (id, who) in claimed {
      assert mine[(id, who)] == claimed[(id, who)];
    }
  }
}
