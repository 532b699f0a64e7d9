/**
 When each call succeeds, what it then leaves behind, and which error answers
 when it does not: stated over the store and the caller's signatures alone.
 */
module Outcomes {
  import opened Options
  import opened SplitTypes
  import opened ProjectIndex
  import opened Shares
  import opened Sums
  import opened Protocol
  import opened Payments
  import opened Invariant
  import opened Preservation
  import opened Runs

  // ---------- calls ----------

  /** One call from outside, with these signatures. */
  ghost function Calling(s: Store, auth: set<Address>, call: Call): (Store, Outcome) {
    Step(s, Invocation(call, auth))
  }

  lemma CallingClaim(s: Store, auth: set<Address>, id: Symbol, who: Address)
    ensures Calling(s, auth, CallClaim(id, who)).1 == Claim(s, auth, id, who).1
    ensures Calling(s, auth, CallClaim(id, who)).0 == if Claim(s, auth, id, who).1.Ok? then Claim(s, auth, id, who).0 else s
  {
    hide CreateProject, UpdateCollaborators, LockProject, UpdateMetadata, TransferOwnership, Deposit, Distribute,
      BatchDistribute, Claim, WithdrawUnallocated, MigrateFlatToBuckets, ExecuteSetting, OutsideOk;
  }

  // ---------- transfers ----------

  /** The token delivers `amount` to `to`, and `to` has room for it. */
  predicate CanReceive(bank: Bank, token: Address, to: Address, amount: int) {
    (token, to) !in bank.refused && Held(bank, token, to) + amount <= I128_MAX
  }

  /** A transfer between two holders goes through exactly when the sender has the amount and the receiver can take it. */
  lemma TransferWorksIff(bank: Bank, token: Address, from: Address, to: Address, amount: int)
    requires from != to && amount > 0
    ensures Transfer(bank, token, from, to, amount).Some? <==> Held(bank, token, from) >= amount && CanReceive(bank, token, to, amount)
  {
  }

  // ---------- claiming ----------

  /** `who` is one of the collaborators, with `bps` basis points. */
  ghost predicate ShareIs(cs: seq<Collaborator>, who: Address, bps: nat) {
    exists k :: 0 <= k < |cs| && cs[k].address == who && cs[k].basisPoints == bps
  }

  ghost predicate MayClaim(s: Store, auth: set<Address>, id: Symbol, who: Address, bps: nat) {
    && Signed(s, auth, who) && !s.config.paused && id in s.projects
    && ShareIs(s.projects[id].collaborators, who, bps) && WindowOpen(s, id, who)
  }

  /** `amount` is the floor of the share, and every counter and the receiver have room for it. */
  predicate ClaimFits(s: Store, id: Symbol, who: Address, bps: nat, amount: int)
    requires id in s.projects
  {
    var p, product := s.projects[id], Balance(s, id) * bps;
    && amount * TOTAL_BPS <= product < (amount + 1) * TOTAL_BPS && product <= I128_MAX
    && p.totalDistributed + amount <= I128_MAX && CanReceive(s.bank, p.token, who, amount)
  }

  /** In a valid split the first match is the only one. */
  lemma ShareFound(cs: seq<Collaborator>, who: Address, bps: nat)
    requires ValidSplit(cs)
    ensures SharePoints(cs, who) == Some(bps) <==> ShareIs(cs, who, bps)
    ensures SharePoints(cs, who).None? <==> forall k :: 0 <= k < |cs| ==> cs[k].address != who
  {
    hide ShareTotal, SharePoints;
    SharePointsFound(cs, who);
    var all := AddressesOf(cs);
    if SharePoints(cs, who).Some? {
      var j :| 0 <= j < |cs| && cs[j] == Collaborator(who, cs[j].alias, SharePoints(cs, who).value);
      forall k | 0 <= k < |cs| && cs[k].address == who ensures k == j {
        assert all[j] == all[k];
      }
    }
  }

  /** What the guards of `claim` decide. */
  lemma ClaimGuards(s: Store, auth: set<Address>, id: Symbol, who: Address)
    requires Inv(s)
    ensures var r := Calling(s, auth, CallClaim(id, who));
            && (r.1.Err? ==> r.1.error in {DistributionsPaused, NotFound, NotACollaborator, AlreadyClaimed})
            && (!Signed(s, auth, who) ==> r.1 == Trap)
            && (r.1 == Err(DistributionsPaused) <==> Signed(s, auth, who) && s.config.paused)
            && (r.1 == Err(NotFound) <==> Signed(s, auth, who) && !s.config.paused && id !in s.projects)
            && (r.1 == Err(NotACollaborator) <==>
                Signed(s, auth, who) && !s.config.paused && id in s.projects
                && forall k :: 0 <= k < |s.projects[id].collaborators| ==> s.projects[id].collaborators[k].address != who)
            && (r.1 == Err(AlreadyClaimed) <==>
                Signed(s, auth, who) && !s.config.paused && id in s.projects
                && (exists bps: nat :: ShareIs(s.projects[id].collaborators, who, bps)) && !WindowOpen(s, id, who))
  {
    hide Inv, Calling, Signed, SharePoints, PayClaim, ValidSplit, ShareIs, Epoch, Balance, Portion, FitsI128;
    CallingClaim(s, auth, id, who);
    if id in s.projects {
      StoredSplit(s, id);
      var cs := s.projects[id].collaborators;
      ShareFound(cs, who, 0);
      if SharePoints(cs, who).Some? {
        var bps := SharePoints(cs, who).value;
        ShareFound(cs, who, bps);
        ClaimNotRefused(s, auth, id, who);
      } else {
        forall bps: nat ensures !ShareIs(cs, who, bps) {
          ShareFound(cs, who, bps);
        }
      }
    }
  }

  /** Past the guards a claim never reports an error. */
  lemma ClaimNotRefused(s: Store, auth: set<Address>, id: Symbol, who: Address)
    requires Inv(s) && id in s.projects && SharePoints(s.projects[id].collaborators, who).Some?
    ensures var amount := Portion(Balance(s, id), SharePoints(s.projects[id].collaborators, who).value);
            0 < amount && 0 < Balance(s, id) ==> amount < Balance(s, id) && !PayClaim(s, id, who, amount).1.Err?
  {
    hide Inv, SharePoints, PayClaim, ValidSplit, Balance, Portion;
    var cs := s.projects[id].collaborators;
    StoredSplit(s, id);
    CollaboratorShare(cs, who);
    if Balance(s, id) > 0 {
      PartOfBalance(Balance(s, id), SharePoints(cs, who).value);
      var amount := Portion(Balance(s, id), SharePoints(cs, who).value);
      if amount > 0 {
        PayClaimOutcome(s, id, who, amount);
      }
    }
  }

  /** The money part of a claim goes through exactly when the counters and the receiver have room. */
  lemma PayClaimOutcome(s: Store, id: Symbol, who: Address, amount: int)
    requires Inv(s) && id in s.projects && 0 < amount <= Balance(s, id)
    ensures !PayClaim(s, id, who, amount).1.Err?
    ensures who != s.self ==>
      (PayClaim(s, id, who, amount).1 == Ok(Amount(amount)) <==>
       s.projects[id].totalDistributed + amount <= I128_MAX && CanReceive(s.bank, s.projects[id].token, who, amount))
  {
    hide BalanceTotal, CheckedTotal, AllIds, BucketedIds, Dense, Distinct, ClaimedTotal, ValidSplit, Adjust, Transfer,
      Held, EpochsOk, BankOk, ClaimedNonNegative, Epoch, CanReceive, ClaimedBy;
    var t, s1 := s.projects[id].token, s.(balances := s.balances[id := Balance(s, id) - amount]);
    LiveTotalBounds(s, t);
    LiveTotalSet(s, id, Balance(s, id) - amount, t);
    AdjustExact(s, s1, id);
    ClaimedBelowTotal(s.claimed, id, who);
    if who != s.self {
      TransferWorksIff(s.bank, t, s.self, who, amount);
    }
  }

  /** A claim pays `amount` exactly when the claimer may claim and the amount is the floor of the share and fits. */
  lemma ClaimPaysIff(s: Store, auth: set<Address>, id: Symbol, who: Address, amount: int)
    requires Inv(s) && amount > 0
    ensures Calling(s, auth, CallClaim(id, who)).1 == Ok(Amount(amount)) <==>
            exists bps: nat :: MayClaim(s, auth, id, who, bps) && ClaimFits(s, id, who, bps, amount)
    ensures Calling(s, auth, CallClaim(id, who)).1 == Ok(Amount(amount)) ==>
      id in s.projects && PaidClaimState(s, Calling(s, auth, CallClaim(id, who)).0, id, who, amount)
  {
    hide Inv, Calling, Claim, SharePoints, ShareIs, Signed, WindowOpen, ClaimFits, PaidClaimState;
    CallingClaim(s, auth, id, who);
    if Claim(s, auth, id, who).1 == Ok(Amount(amount)) {
      ClaimExact(s, auth, id, who);
    }
    if id in s.projects && SharePoints(s.projects[id].collaborators, who).Some? {
      var bps := SharePoints(s.projects[id].collaborators, who).value;
      OneShare(s, auth, id, who);
      ClaimOfShare(s, auth, id, who, bps, amount);
      assert MayClaim(s, auth, id, who, bps) <==> Signed(s, auth, who) && !s.config.paused && WindowOpen(s, id, who);
    } else {
      OneShare(s, auth, id, who);
      ClaimWithoutShare(s, auth, id, who);
    }
  }

  lemma OneShare(s: Store, auth: set<Address>, id: Symbol, who: Address)
    requires Inv(s)
    ensures forall bps: nat :: MayClaim(s, auth, id, who, bps) ==> id in s.projects && SharePoints(s.projects[id].collaborators, who) == Some(bps)
    ensures id in s.projects && SharePoints(s.projects[id].collaborators, who).Some? ==>
      ShareIs(s.projects[id].collaborators, who, SharePoints(s.projects[id].collaborators, who).value)
  {
    hide Inv, SharePoints, ValidSplit, ShareIs, WindowOpen, Signed;
    if id in s.projects {
      var cs := s.projects[id].collaborators;
      StoredSplit(s, id);
      forall bps: nat ensures SharePoints(cs, who) == Some(bps) <==> ShareIs(cs, who, bps) {
        ShareFound(cs, who, bps);
      }
    }
  }

  lemma ClaimWithoutShare(s: Store, auth: set<Address>, id: Symbol, who: Address)
    requires id in s.projects ==> SharePoints(s.projects[id].collaborators, who).None?
    ensures !Claim(s, auth, id, who).1.Ok?
  {
    hide SharePoints, PayClaim, Epoch, Balance, Portion, FitsI128;
  }

  lemma ClaimOfShare(s: Store, auth: set<Address>, id: Symbol, who: Address, bps: nat, amount: int)
    requires Inv(s) && amount > 0 && id in s.projects && SharePoints(s.projects[id].collaborators, who) == Some(bps)
    ensures Claim(s, auth, id, who).1 == Ok(Amount(amount)) <==>
            Signed(s, auth, who) && !s.config.paused && WindowOpen(s, id, who) && ClaimFits(s, id, who, bps, amount)
    ensures Claim(s, auth, id, who).1 == Ok(Amount(0)) <==>
            Signed(s, auth, who) && !s.config.paused && WindowOpen(s, id, who) && Balance(s, id) * bps < TOTAL_BPS
  {
    hide Inv, SharePoints, PayClaim, ValidSplit, Epoch, Balance, Portion, CanReceive;
    var balance := Balance(s, id);
    BalanceInRange(s, id);
    StoredSplit(s, id);
    CollaboratorShare(s.projects[id].collaborators, who);
    FloorOf(balance, bps);
    var due := Portion(balance, bps);
    if balance > 0 && due > 0 {
      PartOfBalance(balance, bps);
      PayClaimOutcome(s, id, who, due);
      if PayClaim(s, id, who, due).1.Ok? {
        PayClaimReply(s, id, who, due);
      }
    }
    if amount * TOTAL_BPS <= balance * bps < (amount + 1) * TOTAL_BPS {
      assert due == amount;
    }
  }

  lemma FloorOf(balance: nat, bps: nat)
    ensures Portion(balance, bps) * TOTAL_BPS <= balance * bps < (Portion(balance, bps) + 1) * TOTAL_BPS
    ensures 0 <= Portion(balance, bps) && 0 <= balance * bps && (balance == 0 ==> balance * bps == 0)
  {
  }

  /** A claim answers zero exactly when the claimer may claim and the share of the balance is below one unit. */
  lemma ClaimOfZeroIff(s: Store, auth: set<Address>, id: Symbol, who: Address)
    requires Inv(s)
    ensures var r := Calling(s, auth, CallClaim(id, who));
            && (r.1 == Ok(Amount(0)) <==> exists bps: nat :: MayClaim(s, auth, id, who, bps) && Balance(s, id) * bps < TOTAL_BPS)
            && (r.1 == Ok(Amount(0)) ==> r.0 == s)
            && (r.1.Ok? ==> r.1.reply.Amount? && r.1.reply.value >= 0)
  {
    hide Calling;
    CallingClaim(s, auth, id, who);
    if Claim(s, auth, id, who).1 == Ok(Amount(0)) {
      ClaimOfNothing(s, auth, id, who);
    }
    if Claim(s, auth, id, who).1.Ok? {
      ClaimReplies(s, auth, id, who);
      if Claim(s, auth, id, who).1.reply != Amount(0) {
        GoodProjects(s);
        ClaimAmount(s, auth, id, who);
      }
    }
    hide Inv, Claim, SharePoints, ShareIs, Signed, WindowOpen, ClaimFits;
    if id in s.projects && SharePoints(s.projects[id].collaborators, who).Some? {
      var bps := SharePoints(s.projects[id].collaborators, who).value;
      OneShare(s, auth, id, who);
      ClaimOfShare(s, auth, id, who, bps, 1);
      assert MayClaim(s, auth, id, who, bps) <==> Signed(s, auth, who) && !s.config.paused && WindowOpen(s, id, who);
    } else {
      OneShare(s, auth, id, who);
      ClaimWithoutShare(s, auth, id, who);
    }
  }

  // ---------- depositing ----------

  /** A deposit succeeds exactly when it is positive, the project exists, the payer signs and has it, and the contract can take it. */
  lemma DepositSucceedsIff(s: Store, auth: set<Address>, id: Symbol, from: Address, amount: int)
    requires Inv(s)
    ensures var r := Calling(s, auth, CallDeposit(id, from, amount)).1;
            && (r == Ok(Done) <==>
                && amount > 0 && id in s.projects && Signed(s, auth, from)
                && Held(s.bank, s.projects[id].token, from) >= amount && CanReceive(s.bank, s.projects[id].token, s.self, amount))
            && (r == Err(InvalidAmount) <==> amount <= 0)
            && (r == Err(NotFound) <==> amount > 0 && id !in s.projects)
            && r in {Ok(Done), Err(InvalidAmount), Err(NotFound), Trap}
  {
    hide Inv, Transfer, Adjust, BumpEpoch, LiveTotal, CanReceive, Epoch, NextEpoch, CreateProject, UpdateCollaborators,
      LockProject, UpdateMetadata, TransferOwnership, Distribute, BatchDistribute, Claim, WithdrawUnallocated,
      MigrateFlatToBuckets, ExecuteSetting, OutsideOk;
    if amount > 0 && id in s.projects && Signed(s, auth, from) {
      TransferWorksIff(s.bank, s.projects[id].token, from, s.self, amount);
      if Transfer(s.bank, s.projects[id].token, from, s.self, amount).Some? {
        DepositExact(s, auth, id, from, amount);
      }
    }
  }

  // ---------- withdrawing ----------

  /** What the projects using a token are owed, with no index and no cache involved. */
  ghost function Owed(s: Store, token: Address): int {
    MapTotal(BalancesUsing(s.projects, s.balances, token))
  }

  lemma UnallocatedIs(s: Store, token: Address)
    requires Inv(s)
    ensures Unallocated(s, token) == Some(Holding(s, token) - Owed(s, token))
    ensures Owed(s, token) >= 0
  {
    hide MapTotal, BalancesUsing, BalanceTotal, AllIds, Distinct, Unallocated;
    IdsDistinct(s);
    IndexWalkIsMapTotal(AllIds(s.index), s.projects, s.balances, token);
    UnallocatedExact(s, token);
    LiveTotalBounds(s, token);
  }

  lemma SoundBank(s: Store)
    requires Inv(s)
    ensures BankOk(s.bank)
  {
  }

  /** The named admin is the stored one and signs. */
  predicate AdminSigns(s: Store, auth: set<Address>, admin: Address) {
    s.config.admin == Some(admin) && Signed(s, auth, admin)
  }

  /** How the calls that only the admin may make are refused. */
  ghost predicate RefusedUnlessAdmin(s: Store, auth: set<Address>, admin: Address, r: (Store, Outcome)) {
    && (r.1 == Err(AdminNotSet) <==> s.config.admin.None?)
    && (r.1 == Err(Unauthorized) <==> s.config.admin.Some? && s.config.admin.value != admin)
    && (s.config.admin == Some(admin) && !Signed(s, auth, admin) ==> r.1 == Trap)
    && (!AdminSigns(s, auth, admin) ==> r.0 == s && !r.1.Ok?)
  }

  /** A withdrawal succeeds exactly for the signing admin, out of what no project is owed, to someone else who can take it. */
  lemma WithdrawSucceedsIff(s: Store, auth: set<Address>, admin: Address, token: Address, to: Address, amount: int)
    requires Inv(s)
    ensures var r := Calling(s, auth, CallWithdrawUnallocated(admin, token, to, amount));
            && (r.1 == Ok(Done) <==>
                && AdminSigns(s, auth, admin) && 0 < amount <= Holding(s, token) - Owed(s, token)
                && to != s.self && CanReceive(s.bank, token, to, amount))
            && RefusedUnlessAdmin(s, auth, admin, r)
            && (r.1 == Err(InvalidAmount) <==> AdminSigns(s, auth, admin) && amount <= 0)
            && (r.1 == Err(InvalidRecipient) <==> AdminSigns(s, auth, admin) && amount > 0 && to == s.self)
            && (r.1 == Err(InsufficientUnallocated) <==>
                AdminSigns(s, auth, admin) && amount > 0 && to != s.self && amount > Holding(s, token) - Owed(s, token))
            && (r.1.Ok? ==>
                  && r.1 == Ok(Done) && r.0 == s.(bank := r.0.bank)
                  && Holding(r.0, token) == Holding(s, token) - amount && Held(r.0.bank, token, to) == Held(s.bank, token, to) + amount
                  && forall t, a :: (t, a) != (token, s.self) && (t, a) != (token, to) ==> Held(r.0.bank, t, a) == Held(s.bank, t, a))
  {
    hide Inv, Unallocated, Transfer, Owed, CanReceive, Signed, Held, CreateProject, UpdateCollaborators, LockProject,
      UpdateMetadata, TransferOwnership, Deposit, Distribute, BatchDistribute, Claim, MigrateFlatToBuckets,
      ExecuteSetting, OutsideOk;
    UnallocatedIs(s, token);
    SoundBank(s);
    if amount > 0 && to != s.self {
      TransferWorksIff(s.bank, token, s.self, to, amount);
      if Transfer(s.bank, token, s.self, to, amount).Some? {
        TransferEffect(s.bank, token, s.self, to, amount);
      }
    }
  }

  // ---------- creating ----------

  /** The collaborator cap in force: the configured one, or 50. */
  predicate WithinCap(config: Config, cs: seq<Collaborator>) {
    |cs| <= if config.maxCollaborators.Some? then config.maxCollaborators.value else 50
  }

  /** The error that a split meets, from the split alone. */
  ghost predicate SplitFault(config: Config, cs: seq<Collaborator>, e: SplitError) {
    if |cs| < 2 then e == TooFewCollaborators
    else if !WithinCap(config, cs) then e == TooManyCollaborators
    else FirstError(cs, e)
  }

  lemma SplitFaults(config: Config, cs: seq<Collaborator>)
    ensures forall e :: Validate(cs, Cap(config)) == Some(e) <==> SplitFault(config, cs, e)
    ensures Validate(cs, Cap(config)).Some? ==>
      Validate(cs, Cap(config)).value in
        {TooFewCollaborators, TooManyCollaborators, ZeroShare, ArithmeticOverflow, DuplicateCollaborator, InvalidSplit}
  {
    hide FirstError, Validate;
    forall e ensures Validate(cs, Cap(config)) == Some(e) <==> SplitFault(config, cs, e) {
      ValidationErrorIs(cs, Cap(config), e);
    }
    if Validate(cs, Cap(config)).Some? {
      ValidationErrorIs(cs, Cap(config), Validate(cs, Cap(config)).value);
    }
  }

  /** A creation succeeds exactly for a signing owner, an unused ID, an allowed token, a valid split within the cap, and room to count it. */
  lemma CreateSucceedsIff(s: Store, auth: set<Address>, owner: Address, id: Symbol, title: string, kind: string, token: Address,
                          cs: seq<Collaborator>)
    requires Inv(s)
    ensures var r := Calling(s, auth, CallCreateProject(owner, id, title, kind, token, cs)).1;
            var allowed := s.config.allowedTokenCount == 0 || token in s.config.allowedTokens;
            && (r == Ok(Done) <==>
                && Signed(s, auth, owner) && id !in s.projects && allowed
                && ValidSplit(cs) && WithinCap(s.config, cs) && |s.projects| < U32_MAX)
            && (r == Err(ProjectExists) <==> Signed(s, auth, owner) && id in s.projects)
            && (r == Err(TokenNotAllowed) <==> Signed(s, auth, owner) && id !in s.projects && !allowed)
            && (forall e :: SplitFault(s.config, cs, e) ==>
                  (r == Err(e) <==> Signed(s, auth, owner) && id !in s.projects && allowed))
            && (r.Ok? ==> r == Ok(Done))
  {
    hide Inv, Signed, Validate, ValidSplit, Migrate, AppendByCount, SplitFault, UpdateCollaborators, LockProject,
      UpdateMetadata, TransferOwnership, Deposit, Distribute, BatchDistribute, Claim, WithdrawUnallocated,
      MigrateFlatToBuckets, ExecuteSetting, OutsideOk;
    ValidationIsExact(cs, Cap(s.config));
    CountIsSize(s);
    SplitFaults(s.config, cs);
  }

  lemma CountIsSize(s: Store)
    requires Inv(s)
    ensures s.projectCount == |s.projects|
  {
    hide AllIds, BucketedIds, Distinct;
    IdsDistinct(s);
    DistinctSize(AllIds(s.index), s.projects.Keys);
  }

  /** What a creation leaves: the record as given, unlocked and unpaid, a zero balance, and one more ID at the end. */
  lemma CreateLeaves(s: Store, auth: set<Address>, owner: Address, id: Symbol, title: string, kind: string, token: Address,
                     cs: seq<Collaborator>)
    requires Inv(s) && Calling(s, auth, CallCreateProject(owner, id, title, kind, token, cs)).1.Ok?
    ensures var s' := Calling(s, auth, CallCreateProject(owner, id, title, kind, token, cs)).0;
            && s' == s.(projects := s'.projects, balances := s'.balances, projectCount := s'.projectCount, index := s'.index)
            && s'.projects == s.projects[id := SplitProject(id, title, kind, token, owner, cs, false, 0, 0)]
            && s'.balances == s.balances[id := 0] && s'.projectCount == |s'.projects|
            && AllIds(s'.index) == AllIds(s.index) + [id]
  {
    hide Inv, CreateGuard, AllIds, BucketedIds, Dense, Distinct, Migrate, AppendByCount, UpdateCollaborators,
      LockProject, UpdateMetadata, TransferOwnership, Deposit, Distribute, BatchDistribute, Claim, WithdrawUnallocated,
      MigrateFlatToBuckets, ExecuteSetting, OutsideOk;
    CreateAdmitted(s, auth, owner, id, token, cs);
    CreateIndex(s, id);
    CountIsSize(s);
  }

  lemma CreateAdmitted(s: Store, auth: set<Address>, owner: Address, id: Symbol, token: Address, cs: seq<Collaborator>)
    ensures var stop := CreateGuard(s, auth, owner, id, token, cs);
            if stop.Some? then !stop.value.Ok? else id !in s.projects
  {
    hide Validate, Signed;
  }

  // ---------- the owner's calls ----------

  /** The named owner is the record's and signs. */
  predicate OwnerSigns(s: Store, auth: set<Address>, id: Symbol, owner: Address) {
    id in s.projects && s.projects[id].owner == owner && Signed(s, auth, owner)
  }

  /** How the calls that only a project's owner may make are refused. */
  ghost predicate RefusedUnlessOwner(s: Store, auth: set<Address>, id: Symbol, owner: Address, r: (Store, Outcome)) {
    && (r.1 == Err(NotFound) <==> id !in s.projects)
    && (r.1 == Err(Unauthorized) <==> id in s.projects && s.projects[id].owner != owner)
    && (id in s.projects && s.projects[id].owner == owner && !Signed(s, auth, owner) ==> r.1 == Trap)
    && (!r.1.Ok? ==> r.0 == s)
  }

  /** A new split is stored, and nothing else changes, exactly for the signing owner of an unlocked project and a valid split within the cap. */
  lemma UpdateCollaboratorsOutcome(s: Store, auth: set<Address>, id: Symbol, owner: Address, cs: seq<Collaborator>)
    ensures var r := Calling(s, auth, CallUpdateCollaborators(id, owner, cs));
            && RefusedUnlessOwner(s, auth, id, owner, r)
            && (r.1.Ok? <==> OwnerSigns(s, auth, id, owner) && !s.projects[id].locked && ValidSplit(cs) && WithinCap(s.config, cs))
            && (r.1 == Err(ProjectLocked) <==> OwnerSigns(s, auth, id, owner) && s.projects[id].locked)
            && (forall e :: SplitFault(s.config, cs, e) ==>
                  (r.1 == Err(e) <==> OwnerSigns(s, auth, id, owner) && !s.projects[id].locked))
            && (r.1.Ok? ==> id in r.0.projects && r.0.projects[id].collaborators == cs && OnlyRecord(s, r.0, id)
                            && r.0.projects[id] == s.projects[id].(collaborators := r.0.projects[id].collaborators))
  {
    hide Validate, ValidSplit, Signed, SplitFault, CreateProject, LockProject, UpdateMetadata, TransferOwnership,
      Deposit, Distribute, BatchDistribute, Claim, WithdrawUnallocated, MigrateFlatToBuckets, ExecuteSetting,
      OutsideOk;
    ValidationIsExact(cs, Cap(s.config));
    SplitFaults(s.config, cs);
  }

  /** Only the record of `id` may differ. */
  predicate OnlyRecord(s: Store, s': Store, id: Symbol)
    requires id in s'.projects
  {
    s' == s.(projects := s.projects[id := s'.projects[id]])
  }

  lemma LockOutcome(s: Store, auth: set<Address>, id: Symbol, owner: Address)
    ensures var r := Calling(s, auth, CallLockProject(id, owner));
            && RefusedUnlessOwner(s, auth, id, owner, r)
            && (r.1.Ok? <==> OwnerSigns(s, auth, id, owner) && !s.projects[id].locked)
            && (r.1 == Err(AlreadyLocked) <==> OwnerSigns(s, auth, id, owner) && s.projects[id].locked)
            && (r.1.Ok? ==> id in r.0.projects && r.0.projects[id].locked && OnlyRecord(s, r.0, id)
                            && s.projects[id] == r.0.projects[id].(locked := false))
  {
    hide Signed, CreateProject, UpdateCollaborators, UpdateMetadata, TransferOwnership, Deposit, Distribute,
      BatchDistribute, Claim, WithdrawUnallocated, MigrateFlatToBuckets, ExecuteSetting, OutsideOk;
  }

  lemma UpdateMetadataOutcome(s: Store, auth: set<Address>, id: Symbol, owner: Address, title: string, kind: string)
    ensures var r := Calling(s, auth, CallUpdateMetadata(id, owner, title, kind));
            && RefusedUnlessOwner(s, auth, id, owner, r)
            && (r.1.Ok? <==> OwnerSigns(s, auth, id, owner) && !s.projects[id].locked)
            && (r.1 == Err(ProjectLocked) <==> OwnerSigns(s, auth, id, owner) && s.projects[id].locked)
            && (r.1.Ok? ==> id in r.0.projects && r.0.projects[id].title == title && r.0.projects[id].projectType == kind
                            && OnlyRecord(s, r.0, id)
                            && s.projects[id] == r.0.projects[id].(title := s.projects[id].title, projectType := s.projects[id].projectType))
  {
    hide Signed, CreateProject, UpdateCollaborators, LockProject, TransferOwnership, Deposit, Distribute,
      BatchDistribute, Claim, WithdrawUnallocated, MigrateFlatToBuckets, ExecuteSetting, OutsideOk;
  }

  lemma TransferOwnershipOutcome(s: Store, auth: set<Address>, id: Symbol, owner: Address, newOwner: Address)
    ensures var r := Calling(s, auth, CallTransferOwnership(id, owner, newOwner));
            && RefusedUnlessOwner(s, auth, id, owner, r)
            && (r.1.Ok? <==> OwnerSigns(s, auth, id, owner))
            && (r.1.Ok? ==> id in r.0.projects && r.0.projects[id].owner == newOwner && OnlyRecord(s, r.0, id)
                            && s.projects[id] == r.0.projects[id].(owner := owner))
  {
    hide Signed, CreateProject, UpdateCollaborators, LockProject, UpdateMetadata, Deposit, Distribute, BatchDistribute,
      Claim, WithdrawUnallocated, MigrateFlatToBuckets, ExecuteSetting, OutsideOk;
  }

  // ---------- the admin's calls ----------

  lemma SetAdminOutcome(s: Store, auth: set<Address>, admin: Address)
    ensures var r := Calling(s, auth, CallSetAdmin(admin));
            && (r.1 == Ok(Done) <==>
                (s.config.admin.None? && Signed(s, auth, admin)) || (s.config.admin.Some? && Signed(s, auth, s.config.admin.value)))
            && (!r.1.Ok? ==> r == (s, Trap))
            && (r.1.Ok? ==> r.0.config.admin == Some(admin) && s == r.0.(config := r.0.config.(admin := s.config.admin)))
  {
    hide Signed, CreateProject, UpdateCollaborators, LockProject, UpdateMetadata, TransferOwnership, Deposit,
      Distribute, BatchDistribute, Claim, WithdrawUnallocated, MigrateFlatToBuckets, OutsideOk;
  }

  lemma SetPausedOutcome(s: Store, auth: set<Address>, admin: Address, paused: bool)
    ensures var r := Calling(s, auth, CallSetPaused(admin, paused));
            && RefusedUnlessAdmin(s, auth, admin, r)
            && (r.1 == Ok(Done) <==> AdminSigns(s, auth, admin))
            && (r.1.Ok? ==> r.0.config.paused == paused && s == r.0.(config := r.0.config.(paused := s.config.paused)))
  {
    hide Signed, CreateProject, UpdateCollaborators, LockProject, UpdateMetadata, TransferOwnership, Deposit,
      Distribute, BatchDistribute, Claim, WithdrawUnallocated, MigrateFlatToBuckets, OutsideOk;
  }

  lemma SetMaxCollaboratorsOutcome(s: Store, auth: set<Address>, admin: Address, value: int)
    ensures var r := Calling(s, auth, CallSetMaxCollaborators(admin, value));
            && RefusedUnlessAdmin(s, auth, admin, r)
            && (r.1 == Ok(Done) <==> AdminSigns(s, auth, admin) && 2 <= value <= 200)
            && (r.1 == Err(InvalidMaxCollaborators) <==> AdminSigns(s, auth, admin) && !(2 <= value <= 200))
            && (r.1.Ok? ==>
                  && (forall cs :: WithinCap(r.0.config, cs) <==> |cs| <= value)
                  && s == r.0.(config := r.0.config.(maxCollaborators := s.config.maxCollaborators)))
  {
    hide Signed, CreateProject, UpdateCollaborators, LockProject, UpdateMetadata, TransferOwnership, Deposit,
      Distribute, BatchDistribute, Claim, WithdrawUnallocated, MigrateFlatToBuckets, OutsideOk;
  }

  /** Allowing a token adds it and no other; disallowing removes it and no other. */
  lemma AllowTokenOutcome(s: Store, auth: set<Address>, admin: Address, token: Address)
    ensures var r := Calling(s, auth, CallAllowToken(admin, token));
            && RefusedUnlessAdmin(s, auth, admin, r) && (r.1 == Ok(Done) <==> AdminSigns(s, auth, admin))
            && (r.1.Ok? ==>
                  && (forall t :: t in r.0.config.allowedTokens <==> t in s.config.allowedTokens || t == token)
                  && ListsOnly(s, r.0))
  {
    hide Signed, CreateProject, UpdateCollaborators, LockProject, UpdateMetadata, TransferOwnership, Deposit,
      Distribute, BatchDistribute, Claim, WithdrawUnallocated, MigrateFlatToBuckets, OutsideOk;
  }

  lemma DisallowTokenOutcome(s: Store, auth: set<Address>, admin: Address, token: Address)
    ensures var r := Calling(s, auth, CallDisallowToken(admin, token));
            && RefusedUnlessAdmin(s, auth, admin, r) && (r.1 == Ok(Done) <==> AdminSigns(s, auth, admin))
            && (r.1.Ok? ==>
                  && (forall t :: t in r.0.config.allowedTokens <==> t in s.config.allowedTokens && t != token)
                  && ListsOnly(s, r.0))
  {
    hide Signed, Without, CreateProject, UpdateCollaborators, LockProject, UpdateMetadata, TransferOwnership, Deposit,
      Distribute, BatchDistribute, Claim, WithdrawUnallocated, MigrateFlatToBuckets, OutsideOk;
  }

  /** Only the three allowlist entries may differ. */
  predicate ListsOnly(s: Store, s': Store) {
    s' == s.(config := s.config.(allowedTokens := s'.config.allowedTokens, allowedTokenList := s'.config.allowedTokenList,
                                 allowedTokenCount := s'.config.allowedTokenCount))
  }

  lemma MigrateOutcome(s: Store, auth: set<Address>, admin: Address)
    requires Inv(s)
    ensures var r := Calling(s, auth, CallMigrateFlatToBuckets(admin));
            && RefusedUnlessAdmin(s, auth, admin, r) && (r.1 == Ok(Done) <==> AdminSigns(s, auth, admin))
            && (r.1.Ok? ==>
                  && r.0 == s.(index := r.0.index) && r.0.index.flat.None?
                  && BucketedIds(r.0.index) == AllIds(r.0.index) == AllIds(s.index))
  {
    hide Signed, Migrate, BucketedIds, AllIds, Inv, Dense, CreateProject, UpdateCollaborators, LockProject,
      UpdateMetadata, TransferOwnership, Deposit, Distribute, BatchDistribute, Claim, WithdrawUnallocated,
      ExecuteSetting, OutsideOk;
    DenseIndex(s);
    MigrationPreservesIndex(s.index);
  }

  /** Paused, a distribution or a batch is refused. */
  lemma PauseRefuses(s: Store, id: Symbol, ids: seq<Symbol>)
    requires s.config.paused
    ensures Distribute(s, id) == (s, Err(DistributionsPaused)) && BatchDistribute(s, ids) == (s, Err(DistributionsPaused))
  {
  }
}
