/**
 Runs from an empty store in which a promise of the documentation fails. Each
 run is a sequence of calls that the contract accepts.
 */
module Witnesses {
  import opened Options
  import opened Arithmetic
  import opened SplitTypes
  import opened ProjectIndex
  import opened Shares
  import opened Sums
  import opened Protocol
  import opened Payments
  import opened Invariant
  import opened Preservation
  import opened Redemption
  import opened Runs
  import opened Settings
  import opened Lifecycle
  import DecimalAmounts

  // ---------- the start ----------

  const SELF := Address("contract")
  const ARTIST := Address("artist")
  const PAYER := Address("payer")
  const TOKEN := Address("token")
  const SONG := Symbol("song")

  const SPLIT := [Collaborator(SELF, "", 5_000), Collaborator(ARTIST, "", 5_000)]
  const FUNDS: int := 8_589_934_592
  const SETTINGS := Config(None, false, None, {}, [], 0)

  /** A new contract; the payer holds some tokens. */
  const START := Store(SELF, SETTINGS, map[], map[], map[], map[], map[], map[], map[], 0, Index(map[], 0, None),
                       Bank(map[(TOKEN, PAYER) := FUNDS], {}))

  lemma StartIsEmpty()
    ensures EmptyStore(START) && Inv(START)
  {
    EmptyStoreStarts(START);
  }

  lemma Apart()
    ensures SELF != ARTIST && SELF != PAYER && ARTIST != PAYER
  {
    assert SELF.strkey[0] != ARTIST.strkey[0] && SELF.strkey[0] != PAYER.strkey[0] && ARTIST.strkey[0] != PAYER.strkey[0];
  }

  lemma SplitIsValid()
    ensures ValidSplit(SPLIT)
  {
    assert ShareTotal(SPLIT, 1) == 5_000;
    assert ShareTotal(SPLIT, 2) == 10_000;
    Apart();
  }

  lemma OneMoreCall(s: Store, run: seq<Invocation>, inv: Invocation)
    ensures Run(s, run + [inv]) == Step(Run(s, run), inv).0
  {
    hide Step;
    assert (run + [inv])[..|run|] == run;
  }

  // ---------- creating ----------

  function Creation(id: Symbol): Invocation {
    Invocation(CallCreateProject(ARTIST, id, "", "", TOKEN, SPLIT), {ARTIST})
  }

  function NewProject(id: Symbol): SplitProject {
    SplitProject(id, "", "", TOKEN, ARTIST, SPLIT, false, 0, 0)
  }

  lemma CreationGuard(s: Store, id: Symbol)
    requires s.self == SELF && s.config == SETTINGS && id !in s.projects && s.projectCount < U32_MAX
    ensures CreateGuard(s, {ARTIST}, ARTIST, id, TOKEN, SPLIT).None?
  {
    hide Validate;
    Apart();
    SplitIsValid();
    ValidationIsExact(SPLIT, Cap(SETTINGS));
  }

  /** Under the default settings an unused ID can always be created. */
  lemma CreationWorks(s: Store, id: Symbol)
    requires Inv(s) && s.self == SELF && s.config == SETTINGS && id !in s.projects && s.projectCount < U32_MAX
    ensures Step(s, Creation(id)).1 == Ok(Done)
    ensures var s' := Step(s, Creation(id)).0;
            && s' == s.(projects := s.projects[id := NewProject(id)], balances := s.balances[id := 0],
                        projectCount := s.projectCount + 1, index := s'.index)
            && Inv(s') && AllIds(s'.index) == BucketedIds(s'.index) == AllIds(s.index) + [id]
  {
    hide Inv, CreateGuard, AllIds, BucketedIds, Dense, Distinct, Migrate, AppendByCount, UpdateCollaborators,
      LockProject, UpdateMetadata, TransferOwnership, Deposit, Distribute, BatchDistribute, Claim, WithdrawUnallocated,
      MigrateFlatToBuckets, OutsideOk, ExecuteSetting;
    CreationGuard(s, id);
    CreateIndex(s, id);
    StepKeepsInv(s, Creation(id));
  }

  // ---------- a project and its deposits ----------

  const PAYMENT := Invocation(CallDeposit(SONG, PAYER, 1), {PAYER})
  const CLAIM := Invocation(CallClaim(SONG, ARTIST), {ARTIST})

  /** Create the song, then pay one unit `k` times. */
  ghost function Paying(k: nat): seq<Invocation> {
    if k == 0 then [Creation(SONG)] else Paying(k - 1) + [PAYMENT]
  }

  ghost predicate Funded(s: Store, k: nat) {
    && Inv(s) && s.self == SELF && s.config == SETTINGS
    && s.projects == map[SONG := NewProject(SONG)] && AllIds(s.index) == [SONG]
    && Balance(s, SONG) == k && Epoch(s, SONG) == Min(k, U32_MAX)
    && s.claimed == map[] && s.lastClaimEpoch == map[] && s.bank.refused == {}
    && Held(s.bank, TOKEN, PAYER) == FUNDS - k && Holding(s, TOKEN) == k && Held(s.bank, TOKEN, ARTIST) == 0
  }

  lemma SongCreated()
    ensures Funded(Run(START, Paying(0)), 0)
  {
    hide Inv, Step, AllIds, BucketedIds;
    StartIsEmpty();
    Apart();
    NothingListed();
    CreationWorks(START, SONG);
    assert Paying(0) == [] + [Creation(SONG)];
    OneMoreCall(START, [], Creation(SONG));
    assert AllIds(START.index) + [SONG] == [SONG];
  }

  lemma NothingListed()
    ensures AllIds(START.index) == []
  {
  }

  lemma PaymentWorks(s: Store, k: nat)
    requires Funded(s, k) && k < FUNDS
    ensures Step(s, PAYMENT).1 == Ok(Done) && Funded(Step(s, PAYMENT).0, k + 1)
  {
    hide AllIds, LiveTotal, Deposit, Inv, CreateProject, UpdateCollaborators, LockProject, UpdateMetadata,
      TransferOwnership, Distribute, BatchDistribute, Claim, WithdrawUnallocated, MigrateFlatToBuckets, OutsideOk,
      ExecuteSetting;
    Apart();
    SoundBank(s);
    TransferEffect(s.bank, TOKEN, PAYER, SELF, 1);
    DepositExact(s, {PAYER}, SONG, PAYER, 1);
    StepKeepsInv(s, PAYMENT);
  }

  lemma SoundBank(s: Store)
    requires Inv(s)
    ensures BankOk(s.bank)
  {
  }

  lemma {:induction false} AfterPayments(k: nat)
    requires k <= FUNDS
    ensures Funded(Run(START, Paying(k)), k)
  {
    hide Step, Run, Funded;
    if k == 0 {
      SongCreated();
    } else {
      AfterPayments(k - 1);
      PaymentWorks(Run(START, Paying(k - 1)), k - 1);
      OneMoreCall(START, Paying(k - 1), PAYMENT);
    }
  }

  // ---------- a distribution that leaves unallocated funds ----------

  lemma FundedPayouts(s: Store)
    requires Funded(s, 10)
    ensures Payout(10, SPLIT, 0) == 5 && Payout(10, SPLIT, 1) == 5
    ensures LeavesContract(s, NewProject(SONG), 10, 0) == 5
    ensures ProductsFit(SPLIT, 10, 0) && ReceiversFit(s, NewProject(SONG), 10, 0)
  {
    hide Inv, AllIds;
    assert FloorTotal(10, SPLIT, 1) == 5;
    Apart();
    assert LeavesContract(s, NewProject(SONG), 10, 2) == 0;
    assert LeavesContract(s, NewProject(SONG), 10, 1) == 5;
  }

  lemma FundedTotal(s: Store, k: nat)
    requires Funded(s, k)
    ensures LiveTotal(s, TOKEN) == k
  {
    hide AllIds, Inv;
    var ids := [SONG];
    assert ids[..|ids| - 1] == [];
    assert BalanceTotal(ids, s.projects, s.balances, TOKEN) ==
           BalanceTotal([], s.projects, s.balances, TOKEN) + Credit(s.projects, s.balances, TOKEN, SONG);
  }

  /** After ten payments, distributing to the contract itself turns half of the balance into unallocated funds. */
  lemma UnallocatedCanRise()
    ensures EmptyStore(START)
    ensures var s := Run(START, Paying(10));
            Distribute(s, SONG).1.Ok? && Unallocated(s, TOKEN) == Some(0) && Unallocated(Distribute(s, SONG).0, TOKEN) == Some(5)
  {
    hide Distribute, Inv, LiveTotal, Accounted, Run, AllIds;
    var s := Run(START, Paying(10));
    AfterPayments(10);
    FundedPayouts(s);
    DistributionSucceedsIff(s, SONG);
    DistributionAndUnallocated(s, SONG);
    UnallocatedExact(s, TOKEN);
    FundedTotal(s, 10);
  }

  // ---------- the epoch ceiling ----------

  lemma ArtistShare()
    ensures SharePoints(SPLIT, ARTIST) == Some(5_000)
  {
    Apart();
    assert SPLIT[1..][0].address == ARTIST;
  }

  /** In a funded store the artist can claim half. */
  lemma ClaimWorks(s: Store, k: nat)
    requires Funded(s, k) && 2 <= k <= FUNDS
    ensures Claim(s, {ARTIST}, SONG, ARTIST).1 == Ok(Amount(k / 2))
  {
    hide Inv, AllIds, LiveTotal, SharePoints, PayClaim;
    Apart();
    ArtistShare();
    assert Portion(k, 5_000) == k / 2;
    PayClaimWorks(s, k, k / 2);
  }

  lemma PayClaimWorks(s: Store, k: nat, amount: int)
    requires Funded(s, k) && 0 < amount <= k <= FUNDS
    ensures PayClaim(s, SONG, ARTIST, amount).1 == Ok(Amount(amount))
  {
    hide AllIds, LiveTotal, Adjust, BalanceTotal, Dense, Distinct, BucketedIds, ClaimedTotal, ValidSplit;
    Apart();
    var s1 := s.(balances := s.balances[SONG := k - amount]);
    LiveTotalSet(s, SONG, k - amount, TOKEN);
    FundedTotal(s, k);
    AdjustExact(s, s1, SONG);
  }

  /** The state after the artist has claimed at the ceiling. */
  lemma ClaimedAtCeiling(s: Store)
    requires Funded(s, U32_MAX)
    ensures Step(s, CLAIM).1 == Ok(Amount(2_147_483_647))
    ensures var s' := Step(s, CLAIM).0;
            && Inv(s') && s'.self == SELF && s'.config == SETTINGS && SONG in s'.projects && s'.projects[SONG].token == TOKEN
            && s'.projects[SONG].collaborators == SPLIT && s'.bank.refused == {}
            && Epoch(s', SONG) == U32_MAX && s'.lastClaimEpoch == map[(SONG, ARTIST) := U32_MAX]
            && Held(s'.bank, TOKEN, PAYER) >= 1 && Holding(s', TOKEN) <= FUNDS
  {
    hide AllIds, LiveTotal, Deposit, Inv, Claim, CreateProject, UpdateCollaborators, LockProject, UpdateMetadata,
      TransferOwnership, Distribute, BatchDistribute, WithdrawUnallocated, MigrateFlatToBuckets, OutsideOk,
      ExecuteSetting, Transfer;
    Apart();
    ClaimWorks(s, U32_MAX);
    ClaimExact(s, {ARTIST}, SONG, ARTIST);
    SoundBank(s);
    TransferEffect(s.bank, TOKEN, SELF, ARTIST, 2_147_483_647);
    StepKeepsInv(s, CLAIM);
  }

  lemma PaidButShut(s: Store)
    requires Inv(s) && s.self == SELF && s.config == SETTINGS && SONG in s.projects && s.projects[SONG].token == TOKEN
    requires s.projects[SONG].collaborators == SPLIT && s.bank.refused == {}
    requires Epoch(s, SONG) == U32_MAX && s.lastClaimEpoch == map[(SONG, ARTIST) := U32_MAX]
    requires Held(s.bank, TOKEN, PAYER) >= 1 && Holding(s, TOKEN) <= FUNDS
    ensures Step(s, PAYMENT).1 == Ok(Done)
    ensures Step(Step(s, PAYMENT).0, CLAIM).1 == Err(AlreadyClaimed)
  {
    hide AllIds, LiveTotal, Deposit, Inv, CreateProject, UpdateCollaborators, LockProject, UpdateMetadata,
      TransferOwnership, Distribute, BatchDistribute, WithdrawUnallocated, MigrateFlatToBuckets, OutsideOk,
      ExecuteSetting, PayClaim, SharePoints;
    Apart();
    ArtistShare();
    DepositExact(s, {PAYER}, SONG, PAYER, 1);
  }

  /**
   After 2^32 - 1 payments the epoch is at its ceiling. The artist claims, one
   more payment goes through, and the artist's next claim is refused.
   */
  lemma WindowCanStayShut()
    ensures EmptyStore(START)
    ensures var s := Run(START, Paying(U32_MAX) + [CLAIM]);
            Step(s, PAYMENT).1 == Ok(Done) && Step(Step(s, PAYMENT).0, CLAIM).1 == Err(AlreadyClaimed)
  {
    hide Step, Run, Funded, Inv;
    AfterPayments(U32_MAX);
    var s := Run(START, Paying(U32_MAX));
    ClaimedAtCeiling(s);
    OneMoreCall(START, Paying(U32_MAX), CLAIM);
    PaidButShut(Step(s, CLAIM).0);
  }

  /** At the ceiling the epoch no longer bounds a claim: it stays the same, and the claim exceeds the share of the earlier balance. */
  lemma CeilingLosesBound()
    ensures var s, s' := Run(START, Paying(U32_MAX)), Run(START, Paying(U32_MAX) + [PAYMENT]);
            && Epoch(s', SONG) == Epoch(s, SONG) == U32_MAX
            && Claim(s', {ARTIST}, SONG, ARTIST).1 == Ok(Amount(2_147_483_648))
            && Portion(Balance(s, SONG), 5_000) == 2_147_483_647
  {
    hide Step, Run, Inv, Claim;
    AfterPayments(U32_MAX);
    PaymentWorks(Run(START, Paying(U32_MAX)), U32_MAX);
    OneMoreCall(START, Paying(U32_MAX), PAYMENT);
    ClaimWorks(Run(START, Paying(U32_MAX) + [PAYMENT]), U32_MAX + 1);
  }

  // ---------- ownership of a locked project ----------

  const LOCKING := Invocation(CallLockProject(SONG, ARTIST), {ARTIST})
  const HANDOVER := Invocation(CallTransferOwnership(SONG, ARTIST, PAYER), {ARTIST})

  /** Create, lock, hand over: all three succeed. */
  lemma LockedProjectChangesHands()
    ensures EmptyStore(START)
    ensures var s := Run(START, Paying(0));
            var locked := Step(s, LOCKING);
            var moved := Step(locked.0, HANDOVER);
            && locked.1 == Ok(Done) && moved.1 == Ok(Done)
            && moved.0.projects == map[SONG := NewProject(SONG).(locked := true, owner := PAYER)]
  {
    hide Run, AllIds, Inv, CreateProject, UpdateCollaborators, UpdateMetadata, Deposit, Distribute, BatchDistribute,
      Claim, WithdrawUnallocated, MigrateFlatToBuckets, OutsideOk, ExecuteSetting;
    AfterPayments(0);
    Apart();
  }

  /** Create and lock: the project shows as settled, and nothing was ever paid into it. */
  lemma SettledWithoutPayment(now: int)
    ensures EmptyStore(START)
    ensures var s := Step(Run(START, Paying(0)), LOCKING).0;
            && SONG in s.projects && StateOf(s, SONG, now) == PaymentStatus.Settled
            && Balance(s, SONG) == 0 && s.projects[SONG].totalDistributed == 0
  {
    hide Run, AllIds, Inv, CreateProject, UpdateCollaborators, UpdateMetadata, Deposit, Distribute, BatchDistribute,
      Claim, WithdrawUnallocated, MigrateFlatToBuckets, OutsideOk, ExecuteSetting, TransferOwnership;
    AfterPayments(0);
    Apart();
  }

  // ---------- an index past the walk limit ----------

  /** The decimal digits of `k`. */
  function Name(k: nat): Symbol {
    Symbol(DecimalAmounts.Digits(k))
  }

  lemma NamesDiffer(i: nat, j: nat)
    requires i != j
    ensures Name(i) != Name(j)
  {
    DecimalAmounts.DigitsFacts(i);
    DecimalAmounts.DigitsFacts(j);
  }

  function Names(n: nat): seq<Symbol> {
    if n == 0 then [] else Names(n - 1) + [Name(n - 1)]
  }

  ghost function Creating(n: nat): seq<Invocation> {
    if n == 0 then [] else Creating(n - 1) + [Creation(Name(n - 1))]
  }

  lemma {:induction false} NewName(n: nat, k: nat)
    requires n <= k
    ensures Name(k) !in Names(n) && |Names(n)| == n
  {
    hide Name;
    if n > 0 {
      NewName(n - 1, k);
      NamesDiffer(n - 1, k);
    }
  }

  /** `n` projects, named by the numbers below `n`. */
  ghost predicate Filled(s: Store, n: nat) {
    Inv(s) && s.self == SELF && s.config == SETTINGS && s.projectCount == n && AllIds(s.index) == BucketedIds(s.index) == Names(n)
  }

  lemma {:induction false} AfterCreations(n: nat)
    requires n <= U32_MAX
    ensures Filled(Run(START, Creating(n)), n)
  {
    hide Step, Inv, AllIds, BucketedIds, Name, Creation;
    if n == 0 {
      StartIsEmpty();
      NothingListed();
      NothingBucketed();
    } else {
      hide Filled;
      AfterCreations(n - 1);
      FillOne(Run(START, Creating(n - 1)), n - 1);
      OneMoreCall(START, Creating(n - 1), Creation(Name(n - 1)));
    }
  }

  lemma FillOne(s: Store, n: nat)
    requires Filled(s, n) && n < U32_MAX
    ensures Filled(Step(s, Creation(Name(n))).0, n + 1)
  {
    hide Step, Inv, AllIds, BucketedIds, Name, Creation, Names;
    NewName(n, n);
    ListedIffStored(s, Name(n));
    CreationWorks(s, Name(n));
    assert Names(n + 1) == Names(n) + [Name(n)] by { NextName(n); }
  }

  lemma NextName(n: nat)
    ensures Names(n + 1) == Names(n) + [Name(n)]
  {
  }

  lemma NothingBucketed()
    ensures BucketedIds(START.index) == []
  {
  }

  lemma ListedIffStored(s: Store, id: Symbol)
    requires Inv(s)
    ensures id in AllIds(s.index) <==> id in s.projects
  {
  }

  /** After 4,294,967,201 creations the page that asks for everything traps. */
  lemma PageCanTrap()
    ensures EmptyStore(START)
    ensures var s := Run(START, Creating(WALK_LIMIT + 1));
            Inv(s) && s.projectCount == WALK_LIMIT + 1 && PageOf(s.index, 0, U32_MAX).None?
  {
    hide Run, Inv, PageOf, BucketedIds, AllIds, Dense, Names;
    var n := WALK_LIMIT + 1;
    AfterCreations(n);
    var s := Run(START, Creating(n));
    NewName(n, n);
    DenseIndex(s);
    DenseLength(s.index);
    PageTrapsIff(s.index, 0, U32_MAX);
  }

  // ---------- an allowlist that outgrows its count ----------

  const TAKEOVER := Invocation(CallSetAdmin(PAYER), {PAYER})

  function Coin(k: nat): Address {
    Address(DecimalAmounts.Digits(k))
  }

  function Coins(n: nat): (coins: seq<Address>)
    ensures |coins| == n
  {
    if n == 0 then [] else Coins(n - 1) + [Coin(n - 1)]
  }

  function Allow(k: nat): Invocation {
    Invocation(CallAllowToken(PAYER, Coin(k)), {PAYER})
  }

  function Disallow(k: nat): Invocation {
    Invocation(CallDisallowToken(PAYER, Coin(k)), {PAYER})
  }

  /** Take the admin role, allow `n` coins, then disallow the first `m` of them. */
  ghost function Listing(n: nat, m: nat): seq<Invocation> {
    if m > 0 then Listing(n, m - 1) + [Disallow(m - 1)]
    else if n > 0 then Listing(n - 1, 0) + [Allow(n - 1)]
    else [TAKEOVER]
  }

  /** The list is coins `m` up to `n`; the count stopped at its ceiling on the way up. */
  ghost predicate Listed(s: Store, n: nat, m: nat) {
    && s.self == SELF && s.config.admin == Some(PAYER) && m <= n
    && s.config.allowedTokenList == Coins(n)[m..]
    && (forall t :: t in s.config.allowedTokens <==> t in s.config.allowedTokenList)
    && s.config.allowedTokenCount == Min(n, U32_MAX) - m
  }

  lemma CoinsDiffer(i: nat, j: nat)
    requires i != j
    ensures Coin(i) != Coin(j)
  {
    DecimalAmounts.DigitsFacts(i);
    DecimalAmounts.DigitsFacts(j);
  }

  lemma {:induction false} CoinAt(n: nat)
    ensures forall k :: 0 <= k < n ==> Coins(n)[k] == Coin(k)
  {
    hide Coin;
    if n > 0 {
      CoinAt(n - 1);
    }
  }

  lemma NotListed(n: nat, m: nat, k: nat)
    requires m <= n && (k < m || n <= k)
    ensures Coin(k) !in Coins(n)[m..]
  {
    hide Coin, Coins;
    CoinAt(n);
    forall j | m <= j < n ensures Coins(n)[j] != Coin(k) {
      CoinsDiffer(j, k);
    }
  }

  lemma {:induction false} WithoutHead(list: seq<Address>, token: Address)
    requires token !in list
    ensures Without([token] + list, token) == list
  {
    if list == [] {
      assert ([token] + list)[..0] == [];
    } else {
      var n := |list|;
      assert ([token] + list)[..n] == [token] + list[..n - 1];
      WithoutHead(list[..n - 1], token);
    }
  }

  lemma AdminChange(s: Store, inv: Invocation)
    requires s.self == SELF && s.config.admin == Some(PAYER) && inv.auth == {PAYER}
    requires inv.call.CallAllowToken? || inv.call.CallDisallowToken?
    requires inv.call.admin == PAYER
    ensures var token := inv.call.token;
            Step(s, inv).0 == s.(config := if inv.call.CallAllowToken? then Allowing(s.config, token) else Disallowing(s.config, token))
  {
    hide Execute, Allowing, Disallowing;
    Apart();
    SettingCallRuns(s, inv);
  }

  lemma AllowOne(s: Store, n: nat)
    requires Listed(s, n, 0)
    ensures Listed(Step(s, Allow(n)).0, n + 1, 0)
  {
    hide Step, Coin;
    AdminChange(s, Allow(n));
    NotListed(n, 0, n);
    assert Coins(n)[0..] == Coins(n) && Coins(n + 1)[0..] == Coins(n) + [Coin(n)];
  }

  lemma DisallowOne(s: Store, n: nat, m: nat)
    requires Listed(s, n, m) && m < n && m < U32_MAX
    ensures Listed(Step(s, Disallow(m)).0, n, m + 1)
  {
    hide Step, Coin, Coins, Without;
    AdminChange(s, Disallow(m));
    CoinAt(n);
    NotListed(n, m + 1, m);
    assert Coins(n)[m..] == [Coin(m)] + Coins(n)[m + 1..];
    WithoutHead(Coins(n)[m + 1..], Coin(m));
  }

  lemma {:induction false} AfterListing(n: nat, m: nat)
    requires m <= n && m <= U32_MAX
    ensures Listed(Run(START, Listing(n, m)), n, m)
  {
    hide Step, Run, Listed, Allow, Disallow;
    if m > 0 {
      AfterListing(n, m - 1);
      DisallowOne(Run(START, Listing(n, m - 1)), n, m - 1);
      OneMoreCall(START, Listing(n, m - 1), Disallow(m - 1));
    } else if n > 0 {
      AfterListing(n - 1, 0);
      AllowOne(Run(START, Listing(n - 1, 0)), n - 1);
      OneMoreCall(START, Listing(n - 1, 0), Allow(n - 1));
    } else {
      RoleTaken();
    }
  }

  lemma RoleTaken()
    ensures Listed(Run(START, Listing(0, 0)), 0, 0)
  {
    hide Execute;
    Apart();
    assert Listing(0, 0) == [] + [TAKEOVER];
    OneMoreCall(START, [], TAKEOVER);
    SettingCallRuns(START, TAKEOVER);
  }

  /** With 2^32 tokens allowed and all but one disallowed again, the count is zero and every token passes. */
  lemma AllowlistCanOpen(token: Address)
    ensures EmptyStore(START)
    ensures var config := Run(START, Listing(U32_MAX + 1, U32_MAX)).config;
            config.allowedTokenList == [Coin(U32_MAX)] && TokenAllowed(config, token)
  {
    hide Run, Listing, Coins;
    AfterListing(U32_MAX + 1, U32_MAX);
    CoinAt(U32_MAX + 1);
    assert Coins(U32_MAX + 1)[U32_MAX..] == [Coin(U32_MAX)];
  }

  // ---------- a mixed index ----------

  const OLD_SONG := Symbol("old")

  /** A store from before buckets, after one bucketed creation that did not migrate: the older project is in the flat list only. */
  const MIXED := START.(projects := map[SONG := NewProject(SONG), OLD_SONG := NewProject(OLD_SONG)],
                        balances := map[SONG := 0, OLD_SONG := 0], projectCount := 2,
                        index := Index(map[0 := [SONG]], 1, Some([OLD_SONG])))

  lemma MixedIndex()
    ensures BucketedIds(MIXED.index) == [SONG] && AllIds(MIXED.index) == [SONG, OLD_SONG] && SONG != OLD_SONG
    ensures Dense(MIXED.index)
  {
    assert SONG.name[0] != OLD_SONG.name[0];
    assert FlattenTo(MIXED.index, 0) == [];
    assert FlattenTo(MIXED.index, 1) == [SONG];
    var flat := [OLD_SONG];
    assert [SONG] + [flat[0]] == [SONG, OLD_SONG] && flat[1..] == [];
    assert Merge([SONG], flat) == Merge([SONG, OLD_SONG], []);
  }

  /** A good store of the mixed layout, where pages never show the older project. */
  lemma PageCanHide()
    ensures Inv(MIXED) && PageOf(MIXED.index, 0, 10) == Some([SONG]) && OLD_SONG in AllIds(MIXED.index) && OLD_SONG in MIXED.projects
  {
    hide BucketedIds, AllIds, Dense, Inv, PageOf;
    MixedIndex();
    PageTrapsIff(MIXED.index, 0, 10);
    assert Window([SONG], 0, 10) == [SONG];
    MixedIsGood();
  }

  lemma MixedIsGood()
    ensures Inv(MIXED)
  {
    hide BucketedIds, AllIds, Dense, ValidSplit, LiveTotal, ClaimedTotal;
    MixedIndex();
    SplitIsValid();
    ClaimedNothing(MIXED.claimed, SONG);
    ClaimedNothing(MIXED.claimed, OLD_SONG);
    forall token ensures LiveTotal(MIXED, token) == 0 {
      MixedTotal(token);
    }
  }

  lemma MixedTotal(token: Address)
    ensures LiveTotal(MIXED, token) == 0
  {
    hide AllIds;
    MixedIndex();
    var ids := [SONG, OLD_SONG];
    assert ids[..1] == [SONG] && [SONG][..0] == [];
    assert BalanceTotal([SONG], MIXED.projects, MIXED.balances, token) == 0;
  }
}
