/**
 The invariant of the contract's store, the stores that runs start from, and
 what the money steps need to know about it.
 */
module Invariant {
  import opened Options
  import opened SplitTypes
  import opened ProjectIndex
  import opened Shares
  import opened Sums
  import opened Protocol
  import opened Payments

  ghost predicate ProjectsOk(s: Store) {
    forall id :: id in s.projects ==>
      var p := s.projects[id];
      p.projectId == id && ValidSplit(p.collaborators) && p.totalDistributed >= 0 && 0 <= p.distributionRound <= U32_MAX
  }

  /** The index lists every project once and its length is the project count. */
  ghost predicate IndexOk(s: Store) {
    && Dense(s.index)
    && Distinct(BucketedIds(s.index))
    && (forall id :: id in AllIds(s.index) <==> id in s.projects)
    && |AllIds(s.index)| == s.projectCount <= U32_MAX
  }

  /** Where the cache has a value, it is the live total. */
  ghost predicate CacheOk(s: Store) {
    forall token :: token in s.accounted ==> s.accounted[token] == LiveTotal(s, token)
  }

  /** The contract holds enough of every token to back the projects using it. */
  ghost predicate Solvent(s: Store) {
    forall token :: Holding(s, token) >= LiveTotal(s, token)
  }

  /** Everything a project has paid is recorded against the addresses it paid. */
  ghost predicate ClaimsOk(s: Store) {
    && ClaimedNonNegative(s.claimed)
    && (forall k :: k in s.claimed ==> k.0 in s.projects)
    && (forall id :: id in s.projects ==> ClaimedTotal(s.claimed, id) == s.projects[id].totalDistributed)
  }

  /** Epochs are u32, and only someone who was paid has a claim mark, at an epoch already reached. */
  ghost predicate EpochsOk(s: Store) {
    && (forall id :: id in s.claimEpoch ==> 0 <= s.claimEpoch[id] <= U32_MAX)
    && (forall k :: k in s.lastClaimEpoch ==> s.lastClaimEpoch[k] <= Epoch(s, k.0) && ClaimedBy(s.claimed, k.0, k.1) > 0)
  }

  ghost predicate Inv(s: Store) {
    && BankOk(s.bank) && ProjectsOk(s) && NonNegative(s.balances)
    && IndexOk(s) && CacheOk(s) && Solvent(s) && ClaimsOk(s) && EpochsOk(s)
  }

  // ---------- where runs start ----------

  predicate EmptyStore(s: Store) {
    && s.projects == map[] && s.balances == map[] && s.claimed == map[] && s.accounted == map[]
    && s.claimEpoch == map[] && s.lastClaimEpoch == map[] && s.projectCount == 0
    && s.index.bucketCount == 0 && s.index.flat.None?
  }

  lemma EmptyStoreStarts(s: Store)
    requires EmptyStore(s) && BankOk(s.bank)
    ensures Inv(s)
  {
  }

  /**
   A store written before the cache existed starts too, whatever mix of flat
   and bucketed index it carries, once its records and index are sound and its
   tokens back its balances.
   */
  lemma LegacyStoreStarts(s: Store)
    requires s.accounted == map[]
    requires BankOk(s.bank) && ProjectsOk(s) && NonNegative(s.balances) && ClaimsOk(s) && EpochsOk(s)
    requires Dense(s.index) && Distinct(BucketedIds(s.index))
    requires s.projects.Keys == (set id | id in BucketedIds(s.index)) + (set id | id in FlatIds(s.index))
    requires |s.projects| == s.projectCount <= U32_MAX
    requires forall token :: Holding(s, token) >= MapTotal(BalancesUsing(s.projects, s.balances, token))
    ensures Inv(s)
  {
    var ids := AllIds(s.index);
    MergeFacts(BucketedIds(s.index), FlatIds(s.index));
    DistinctSize(ids, s.projects.Keys);
    forall token ensures Holding(s, token) >= LiveTotal(s, token) {
      IndexWalkIsMapTotal(ids, s.projects, s.balances, token);
    }
  }

  lemma {:induction false} DistinctSize(ids: seq<Symbol>, keys: set<Symbol>)
    requires Distinct(ids) && forall id :: id in ids <==> id in keys
    ensures |ids| == |keys|
    decreases |ids|
  {
    if ids == [] {
      assert keys == {};
    } else {
      DistinctInit(ids);
      DistinctSize(ids[..|ids| - 1], keys - {ids[|ids| - 1]});
    }
  }

  // ---------- consequences used by every money step ----------

  lemma IdsDistinct(s: Store)
    requires IndexOk(s)
    ensures Distinct(AllIds(s.index))
  {
    MergeFacts(BucketedIds(s.index), FlatIds(s.index));
  }

  lemma LiveTotalBounds(s: Store, token: Address)
    requires Inv(s)
    ensures 0 <= LiveTotal(s, token) <= I128_MAX
    ensures CheckedTotal(AllIds(s.index), s.projects, s.balances, token) == Some(LiveTotal(s, token))
    ensures forall id :: id in s.projects && s.projects[id].token == token ==> Balance(s, id) <= LiveTotal(s, token)
  {
    BalanceTotalBounds(AllIds(s.index), s.projects, s.balances, token);
    forall id | id in s.projects && s.projects[id].token == token ensures Balance(s, id) <= LiveTotal(s, token) {
      assert id in AllIds(s.index);
      assert Credit(s.projects, s.balances, token, id) == Balance(s, id);
    }
  }

  /** Setting one balance moves its token's live total by the difference, and no other token's. */
  lemma LiveTotalSet(s: Store, id: Symbol, v: int, token: Address)
    requires IndexOk(s) && id in s.projects
    ensures LiveTotal(s.(balances := s.balances[id := v]), token) ==
            LiveTotal(s, token) + if s.projects[id].token == token then v - Balance(s, id) else 0
  {
    IdsDistinct(s);
    BalanceTotalUpdate(AllIds(s.index), s.projects, s.balances, s.projects, s.balances[id := v], token, id);
  }

  /** A record change that keeps the token keeps every live total. */
  lemma LiveTotalRecord(s: Store, id: Symbol, p: SplitProject, token: Address)
    requires id in s.projects && p.token == s.projects[id].token
    ensures LiveTotal(SetProject(s, id, p), token) == LiveTotal(s, token)
  {
    BalanceTotalFrame(AllIds(s.index), s.projects, s.balances, s.projects[id := p], s.balances, token);
  }

  /**
   The cache adjustment never fails once the new balance is written, whether it
   adds the change to a cached total or seeds a missing one from a walk that
   already contains it.
   */
  lemma AdjustExact(s: Store, s1: Store, id: Symbol)
    requires IndexOk(s) && CacheOk(s) && NonNegative(s1.balances) && id in s.projects
    requires s1 == s.(balances := s.balances[id := Balance(s1, id)], bank := s1.bank, claimed := s1.claimed)
    requires 0 <= LiveTotal(s1, s.projects[id].token) <= I128_MAX
    ensures var t := s.projects[id].token;
            Adjust(s1, t, Balance(s1, id) - Balance(s, id)) == Some(s1.(accounted := s1.accounted[t := LiveTotal(s1, t)]))
  {
    hide Dense, BucketedIds, AllIds, Distinct;
    var t := s.projects[id].token;
    LiveTotalSet(s, id, Balance(s1, id), t);
    BalanceTotalBounds(AllIds(s.index), s.projects, s1.balances, t);
  }

  /** A store that differs from a good one in one balance, its cached total, and amounts that back it. */
  lemma MoneyMoved(s: Store, s': Store, id: Symbol)
    requires Inv(s) && id in s.projects && id in s'.projects
    requires s'.index == s.index && s'.projectCount == s.projectCount && s'.self == s.self
    requires s'.projects == s.projects[id := s'.projects[id]] && s'.projects[id].token == s.projects[id].token
    requires s'.balances == s.balances[id := Balance(s', id)] && Balance(s', id) >= 0
    requires var t := s.projects[id].token;
             && s'.accounted == s.accounted[t := LiveTotal(s.(balances := s'.balances), t)]
             && Holding(s', t) >= Holding(s, t) + Balance(s', id) - Balance(s, id)
             && forall other :: other != t ==> Holding(s', other) == Holding(s, other)
    ensures CacheOk(s') && Solvent(s') && NonNegative(s'.balances)
  {
    hide ProjectsOk, IndexOk, ClaimsOk, EpochsOk, BankOk, AllIds, BalanceTotal;
    var t := s.projects[id].token;
    forall token ensures LiveTotal(s', token) == LiveTotal(s.(balances := s'.balances), token)
                 ensures LiveTotal(s', token) == LiveTotal(s, token) + if token == t then Balance(s', id) - Balance(s, id) else 0 {
      LiveTotalSet(s, id, Balance(s', id), token);
      LiveTotalRecord(s.(balances := s'.balances), id, s'.projects[id], token);
    }
  }

  /** The records after a payout: counters and claimed ledger of one project grow by the same amount. */
  lemma RecordsMoved(s: Store, s': Store, id: Symbol, paid: nat)
    requires ProjectsOk(s) && IndexOk(s) && ClaimsOk(s)
    requires id in s.projects && id in s'.projects
    requires s'.index == s.index && s'.projectCount == s.projectCount
    requires s'.projects == s.projects[id := s'.projects[id]]
    requires 0 <= s'.projects[id].distributionRound <= U32_MAX
    requires s'.projects[id] == s.projects[id].(totalDistributed := s.projects[id].totalDistributed + paid,
                                                distributionRound := s'.projects[id].distributionRound)
    requires ClaimedNonNegative(s'.claimed) && forall k :: k in s'.claimed ==> k in s.claimed || k.0 == id
    requires forall x :: ClaimedTotal(s'.claimed, x) == ClaimedTotal(s.claimed, x) + if x == id then paid else 0
    ensures ProjectsOk(s') && IndexOk(s') && ClaimsOk(s')
  {
    hide ClaimedTotal, ValidSplit, AllIds, BucketedIds, Dense, Distinct;
  }

  lemma EpochOpened(s: Store, s': Store, id: Symbol)
    requires EpochsOk(s)
    requires s'.claimEpoch == s.claimEpoch[id := NextEpoch(Epoch(s, id))] && s'.lastClaimEpoch == s.lastClaimEpoch
    requires forall x, a :: ClaimedBy(s.claimed, x, a) <= ClaimedBy(s'.claimed, x, a)
    ensures EpochsOk(s')
  {
    hide ClaimedBy;
    forall k | k in s'.lastClaimEpoch ensures s'.lastClaimEpoch[k] <= Epoch(s', k.0) && ClaimedBy(s'.claimed, k.0, k.1) > 0 {
      assert s.lastClaimEpoch[k] <= Epoch(s, k.0) <= Epoch(s', k.0);
    }
  }

  lemma EpochClaimed(s: Store, s': Store, id: Symbol, who: Address)
    requires EpochsOk(s)
    requires s'.claimEpoch == s.claimEpoch && s'.lastClaimEpoch == s.lastClaimEpoch[(id, who) := Epoch(s, id)]
    requires ClaimedBy(s'.claimed, id, who) > 0
    requires forall x, a :: ClaimedBy(s.claimed, x, a) <= ClaimedBy(s'.claimed, x, a)
    ensures EpochsOk(s')
  {
    hide ClaimedBy;
    forall k | k in s'.lastClaimEpoch ensures s'.lastClaimEpoch[k] <= Epoch(s', k.0) && ClaimedBy(s'.claimed, k.0, k.1) > 0 {
      assert k != (id, who) ==> s.lastClaimEpoch[k] <= Epoch(s, k.0);
    }
  }
}
