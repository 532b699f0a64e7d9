/**
 How a split is validated and how one balance is divided by it.
 */
module Shares {
  import opened Arithmetic
  import opened Options
  import opened SplitTypes
  import opened ProjectIndex

  function ShareTotal(cs: seq<Collaborator>, n: nat): nat
    requires n <= |cs|
  {
    if n == 0 then 0 else ShareTotal(cs, n - 1) + cs[n - 1].basisPoints
  }

  function AddressesOf(cs: seq<Collaborator>): seq<Address> {
    seq(|cs|, i requires 0 <= i < |cs| => cs[i].address)
  }

  /** What a stored split must be: the reference for validation. */
  ghost predicate ValidSplit(cs: seq<Collaborator>) {
    2 <= |cs|
    && (forall i :: 0 <= i < |cs| ==> cs[i].basisPoints > 0)
    && Distinct(AddressesOf(cs))
    && ShareTotal(cs, |cs|) == TOTAL_BPS
  }

  /** The scan of `validate_collaborators` from position `i`: the first error met, if any. */
  function ScanShares(cs: seq<Collaborator>, i: nat, total: nat, seen: set<Address>): Option<SplitError>
    requires i <= |cs|
    decreases |cs| - i
  {
    if i == |cs| then (if total != TOTAL_BPS then Some(InvalidSplit) else None)
    else if cs[i].basisPoints == 0 then Some(ZeroShare)
    else if total + cs[i].basisPoints > U32_MAX then Some(ArithmeticOverflow)
    else if cs[i].address in seen then Some(DuplicateCollaborator)
    else ScanShares(cs, i + 1, total + cs[i].basisPoints, seen + {cs[i].address})
  }

  function Validate(cs: seq<Collaborator>, cap: int): Option<SplitError> {
    if |cs| < 2 then Some(TooFewCollaborators)
    else if |cs| > cap then Some(TooManyCollaborators)
    else ScanShares(cs, 0, 0, {})
  }

  lemma {:induction false} ShareTotalMonotone(cs: seq<Collaborator>, i: nat, j: nat)
    requires i <= j <= |cs|
    ensures ShareTotal(cs, i) <= ShareTotal(cs, j)
    decreases j
  {
    if i < j {
      ShareTotalMonotone(cs, i, j - 1);
    }
  }

  lemma {:induction false} ScanAccepts(cs: seq<Collaborator>, i: nat, seen: set<Address>)
    requires i <= |cs|
    requires forall a :: a in seen <==> a in AddressesOf(cs)[..i]
    ensures ScanShares(cs, i, ShareTotal(cs, i), seen).None? <==>
      && (forall k :: i <= k < |cs| ==> cs[k].basisPoints > 0)
      && (forall j, k :: 0 <= j < k < |cs| && i <= k ==> cs[j].address != cs[k].address)
      && ShareTotal(cs, |cs|) == TOTAL_BPS
    decreases |cs| - i
  {
    if i < |cs| {
      ShareTotalMonotone(cs, i + 1, |cs|);
      var all := AddressesOf(cs);
      if cs[i].address in seen {
        var j :| 0 <= j < i && all[..i][j] == cs[i].address;
        assert cs[j].address == cs[i].address;
      } else {
        forall j | 0 <= j < i ensures cs[j].address != cs[i].address {
          assert all[..i][j] == cs[j].address;
        }
        assert all[..i + 1] == all[..i] + [cs[i].address];
        ScanAccepts(cs, i + 1, seen + {cs[i].address});
      }
    }
  }

  /** Validation accepts exactly the valid splits within the cap. */
  lemma ValidationIsExact(cs: seq<Collaborator>, cap: int)
    ensures Validate(cs, cap).None? <==> ValidSplit(cs) && |cs| <= cap
  {
    ScanAccepts(cs, 0, {});
    var all := AddressesOf(cs);
    assert Distinct(all) <==> forall j, k :: 0 <= j < k < |cs| ==> cs[j].address != cs[k].address by {
      if Distinct(all) {
        forall j, k | 0 <= j < k < |cs| ensures cs[j].address != cs[k].address {
          assert all[j] != all[k];
        }
      }
    }
  }

  /** What is wrong with position `k`, given the positions before it. */
  ghost function FaultAt(cs: seq<Collaborator>, k: nat): Option<SplitError>
    requires k < |cs|
  {
    if cs[k].basisPoints == 0 then Some(ZeroShare)
    else if ShareTotal(cs, k + 1) > U32_MAX then Some(ArithmeticOverflow)
    else if exists j :: 0 <= j < k && cs[j].address == cs[k].address then Some(DuplicateCollaborator)
    else None
  }

  ghost predicate CleanUpTo(cs: seq<Collaborator>, k: nat)
    requires k <= |cs|
  {
    forall j :: 0 <= j < k ==> FaultAt(cs, j).None?
  }

  /** The error of the first faulty position, or of the total when there is none. */
  ghost predicate FirstError(cs: seq<Collaborator>, e: SplitError) {
    || (exists k :: 0 <= k < |cs| && CleanUpTo(cs, k) && FaultAt(cs, k) == Some(e))
    || (CleanUpTo(cs, |cs|) && ShareTotal(cs, |cs|) != TOTAL_BPS && e == InvalidSplit)
  }

  lemma {:induction false} FirstFault(cs: seq<Collaborator>, n: nat) returns (k: nat)
    requires n <= |cs|
    ensures k <= n && CleanUpTo(cs, k) && (k < n ==> FaultAt(cs, k).Some?)
  {
    hide FaultAt;
    if n == 0 {
      return 0;
    }
    k := FirstFault(cs, n - 1);
    if k == n - 1 && FaultAt(cs, k).None? {
      k := n;
    }
  }

  /** The scan gets as far as the first fault. */
  lemma {:induction false} ScanReaches(cs: seq<Collaborator>, k: nat) returns (seen: set<Address>)
    requires k <= |cs| && CleanUpTo(cs, k)
    ensures forall a :: a in seen <==> exists j :: 0 <= j < k && cs[j].address == a
    ensures ScanShares(cs, 0, 0, {}) == ScanShares(cs, k, ShareTotal(cs, k), seen)
  {
    if k == 0 {
      return {};
    }
    var before := ScanReaches(cs, k - 1);
    assert FaultAt(cs, k - 1).None?;
    seen := before + {cs[k - 1].address};
  }

  lemma OneFirstFault(cs: seq<Collaborator>, i: nat, k: nat)
    requires i < |cs| && CleanUpTo(cs, i) && FaultAt(cs, i).Some? && k < |cs| && CleanUpTo(cs, k) && FaultAt(cs, k).Some?
    ensures i == k
  {
    hide FaultAt;
  }

  /** Which error validation reports: the first fault in list order, a wrong total last. */
  lemma ValidationErrorIs(cs: seq<Collaborator>, cap: int, e: SplitError)
    ensures Validate(cs, cap) == Some(e) <==>
            if |cs| < 2 then e == TooFewCollaborators
            else if |cs| > cap then e == TooManyCollaborators
            else FirstError(cs, e)
    ensures FirstError(cs, e) ==> e in {ZeroShare, ArithmeticOverflow, DuplicateCollaborator, InvalidSplit}
  {
    var k := FirstFault(cs, |cs|);
    var seen := ScanReaches(cs, k);
    assert k < |cs| ==> ScanShares(cs, 0, 0, {}) == FaultAt(cs, k);
    forall i: nat | i < |cs| && CleanUpTo(cs, i) && FaultAt(cs, i).Some? && k < |cs| ensures i == k {
      OneFirstFault(cs, i, k);
    }
  }

  // ---------- dividing a balance ----------

  /** A share of a balance in basis points, rounded down. */
  function Portion(balance: int, bps: nat): int {
    balance * bps / TOTAL_BPS
  }

  function FloorShare(balance: nat, c: Collaborator): nat {
    Portion(balance, c.basisPoints)
  }

  function FloorTotal(balance: nat, cs: seq<Collaborator>, n: nat): nat
    requires n <= |cs|
  {
    if n == 0 then 0 else FloorTotal(balance, cs, n - 1) + FloorShare(balance, cs[n - 1])
  }

  /** What collaborator `i` is due in a distribution: the last one takes the remainder. */
  function Payout(balance: nat, cs: seq<Collaborator>, i: nat): int
    requires i < |cs|
  {
    if i == |cs| - 1 then balance - FloorTotal(balance, cs, i) else FloorShare(balance, cs[i])
  }

  function PayoutTotal(balance: nat, cs: seq<Collaborator>, n: nat): int
    requires n <= |cs|
  {
    if n == 0 then 0 else PayoutTotal(balance, cs, n - 1) + Payout(balance, cs, n - 1)
  }

  lemma FloorShareBounds(balance: nat, c: Collaborator)
    ensures FloorShare(balance, c) * TOTAL_BPS <= balance * c.basisPoints
    ensures balance * c.basisPoints < FloorShare(balance, c) * TOTAL_BPS + TOTAL_BPS
  {
  }

  /** Rounding down `n` shares loses less than one unit a share. */
  lemma {:induction false} FloorTotalBounds(balance: nat, cs: seq<Collaborator>, n: nat)
    requires n <= |cs|
    ensures FloorTotal(balance, cs, n) * TOTAL_BPS <= balance * ShareTotal(cs, n)
    ensures balance * ShareTotal(cs, n) <= FloorTotal(balance, cs, n) * TOTAL_BPS + n * (TOTAL_BPS - 1)
  {
    hide FloorShare;
    if n > 0 {
      FloorTotalBounds(balance, cs, n - 1);
      FloorShareBounds(balance, cs[n - 1]);
      Distributes(balance, ShareTotal(cs, n - 1), cs[n - 1].basisPoints);
    }
  }

  lemma {:induction false} PayoutTotalIsFloors(balance: nat, cs: seq<Collaborator>, n: nat)
    requires n < |cs|
    ensures PayoutTotal(balance, cs, n) == FloorTotal(balance, cs, n)
  {
    if n > 0 {
      PayoutTotalIsFloors(balance, cs, n - 1);
    }
  }

  lemma LastShare(balance: nat, cs: seq<Collaborator>)
    requires ValidSplit(cs) && balance > 0
    ensures var own := FloorShare(balance, cs[|cs| - 1]);
            own <= Payout(balance, cs, |cs| - 1) <= own + |cs| - 1
    ensures Payout(balance, cs, |cs| - 1) >= 1
  {
    var n := |cs|;
    var last := cs[n - 1].basisPoints;
    FloorTotalBounds(balance, cs, n);
    FloorTotalBounds(balance, cs, n - 1);
    var own, others := FloorShare(balance, cs[n - 1]), FloorTotal(balance, cs, n - 1);
    assert (own + others) * TOTAL_BPS <= balance * TOTAL_BPS;
    assert balance * TOTAL_BPS <= (own + others) * TOTAL_BPS + n * (TOTAL_BPS - 1);
    assert ShareTotal(cs, n - 1) == TOTAL_BPS - last;
    assert balance * (TOTAL_BPS - last) == balance * TOTAL_BPS - balance * last;
    assert balance * last >= 1;
  }

  /**
   A valid split divides a positive balance exactly: nothing is left over,
   everyone but the last is paid the floor of their share, and the last is
   paid at least 1 and at most n - 1 above their own floor.
   */
  lemma PayoutsExact(balance: nat, cs: seq<Collaborator>)
    requires ValidSplit(cs) && balance > 0
    ensures PayoutTotal(balance, cs, |cs|) == balance
    ensures forall i :: 0 <= i < |cs| ==> Payout(balance, cs, i) >= 0
    ensures forall i :: 0 <= i < |cs| - 1 ==>
      var paid := Payout(balance, cs, i);
      paid * TOTAL_BPS <= balance * cs[i].basisPoints < (paid + 1) * TOTAL_BPS
    ensures var last := |cs| - 1; var own := FloorShare(balance, cs[last]);
            1 <= Payout(balance, cs, last) && own <= Payout(balance, cs, last) <= own + last
  {
    PayoutTotalIsFloors(balance, cs, |cs| - 1);
    LastShare(balance, cs);
    forall i | 0 <= i < |cs| - 1
      ensures var paid := Payout(balance, cs, i);
              paid * TOTAL_BPS <= balance * cs[i].basisPoints < (paid + 1) * TOTAL_BPS
    {
      FloorShareBounds(balance, cs[i]);
    }
  }

  lemma {:induction false} PayoutTotalMonotone(balance: nat, cs: seq<Collaborator>, i: nat, j: nat)
    requires ValidSplit(cs) && balance > 0
    requires i <= j <= |cs|
    ensures 0 <= PayoutTotal(balance, cs, i) <= PayoutTotal(balance, cs, j)
    decreases i + j
  {
    PayoutsExact(balance, cs);
    if i < j {
      PayoutTotalMonotone(balance, cs, i, j - 1);
    } else if i > 0 {
      PayoutTotalMonotone(balance, cs, i - 1, i - 1);
    }
  }

  /** With two positive shares nobody holds all 10,000 basis points. */
  lemma ShareBelowWhole(cs: seq<Collaborator>, k: nat)
    requires ValidSplit(cs) && k < |cs|
    ensures 0 < cs[k].basisPoints < TOTAL_BPS
  {
    var other := if k == 0 then 1 else 0;
    var lo, hi := Min(k, other), if k < other then other else k;
    ShareTotalMonotone(cs, 0, lo);
    ShareTotalMonotone(cs, lo + 1, hi);
    ShareTotalMonotone(cs, hi + 1, |cs|);
  }
}
