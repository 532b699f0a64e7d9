/**
 Who can change the settings, and what the token allowlist means over runs.
 */
module Settings {
  import opened Options
  import opened SplitTypes
  import opened ProjectIndex
  import opened Sums
  import opened Protocol
  import opened Invariant
  import opened Preservation

  // ---------- who changes them ----------

  lemma MoneyKeepsConfig(s: Store, inv: Invocation)
    requires Inv(s) && Step(s, inv).1.Ok?
    requires inv.call.CallDeposit? || inv.call.CallDistribute? || inv.call.CallBatchDistribute? || inv.call.CallClaim?
    ensures Step(s, inv).0.config == s.config
  {
    hide Inv, Deposit, Distribute, BatchDistribute, Claim, CreateProject, UpdateCollaborators, LockProject,
      UpdateMetadata, TransferOwnership, WithdrawUnallocated, MigrateFlatToBuckets, OutsideOk, ExecuteSetting,
      Transfer, LiveTotal, Sequentially, Rows;
    match inv.call
    case CallDeposit(id, from, amount) =>
      DepositDue(s, inv.auth, id, from, amount);
      DepositExact(s, inv.auth, id, from, amount);
    case CallDistribute(id) => DistributeSteady(s, id);
    case CallBatchDistribute(ids) =>
      BatchNotPaused(s, ids);
      BatchIsSequential(s, ids);
      SequentiallySteady(s, ids);
    case CallClaim(id, who) =>
      if Claim(s, inv.auth, id, who).1.reply == Amount(0) {
        ClaimOfNothing(s, inv.auth, id, who);
      } else {
        ClaimExact(s, inv.auth, id, who);
      }
  }

  lemma BatchNotPaused(s: Store, ids: seq<Symbol>)
    requires BatchDistribute(s, ids).1.Ok?
    ensures !s.config.paused
  {
    hide BatchFrom;
  }

  lemma OthersKeepConfig(s: Store, inv: Invocation)
    requires Step(s, inv).1.Ok? && !ConfigCall(inv.call)
    requires !(inv.call.CallDeposit? || inv.call.CallDistribute? || inv.call.CallBatchDistribute? || inv.call.CallClaim?)
    ensures Step(s, inv).0.config == s.config
  {
    hide Deposit, Distribute, BatchDistribute, Claim, CreateProject, UpdateCollaborators, LockProject, UpdateMetadata,
      TransferOwnership, WithdrawUnallocated, MigrateFlatToBuckets, OutsideOk, ExecuteSetting, Transfer;
    if OwnerCall(inv.call) {
      OwnerCallEdits(s, inv);
    } else {
      match inv.call
      case CallCreateProject(owner, id, title, kind, token, cs) => CreateKeepsConfig(s, inv.auth, owner, id, title, kind, token, cs);
      case CallWithdrawUnallocated(admin, token, to, amount) => WithdrawDue(s, inv.auth, admin, token, to, amount);
      case CallMigrateFlatToBuckets(admin) => MigrateKeepsConfig(s, inv.auth, admin);
      case OutsideTransfers(_) =>
    }
  }

  lemma CreateKeepsConfig(s: Store, auth: set<Address>, owner: Address, id: Symbol, title: string, kind: string,
                          token: Address, cs: seq<Collaborator>)
    ensures CreateProject(s, auth, owner, id, title, kind, token, cs).0.config == s.config
  {
    hide CreateGuard, Migrate, AppendByCount;
  }

  lemma MigrateKeepsConfig(s: Store, auth: set<Address>, admin: Address)
    ensures MigrateFlatToBuckets(s, auth, admin).0.config == s.config
  {
    hide AdminGuard, Migrate;
  }

  lemma SettingCallRuns(s: Store, inv: Invocation)
    requires ConfigCall(inv.call)
    ensures Execute(s, inv) == ExecuteSetting(s, inv)
  {
    hide Deposit, Distribute, BatchDistribute, Claim, CreateProject, UpdateCollaborators, LockProject, UpdateMetadata,
      TransferOwnership, WithdrawUnallocated, MigrateFlatToBuckets, OutsideOk, ExecuteSetting;
  }

  lemma GuardMeans(s: Store, auth: set<Address>, admin: Address)
    ensures var stop := AdminGuard(s, auth, admin);
            if stop.Some? then !stop.value.Ok? else s.config.admin == Some(admin) && Signed(s, auth, admin)
  {
    hide Signed;
  }

  /** A settings call that succeeds was signed by the admin, or is the first admin taking the role. */
  lemma SettingSigned(s: Store, inv: Invocation)
    requires ConfigCall(inv.call) && ExecuteSetting(s, inv).1.Ok?
    ensures s.config.admin.Some? ==> Signed(s, inv.auth, s.config.admin.value)
    ensures s.config.admin.None? ==>
      inv.call.CallSetAdmin? && Signed(s, inv.auth, inv.call.newAdmin)
      && ExecuteSetting(s, inv).0.config == s.config.(admin := Some(inv.call.newAdmin))
  {
    hide AdminGuard, Allowing, Disallowing, Signed;
    match inv.call
    case CallSetAdmin(_) =>
    case CallSetPaused(admin, _) => GuardMeans(s, inv.auth, admin);
    case CallSetMaxCollaborators(admin, _) => GuardMeans(s, inv.auth, admin);
    case CallAllowToken(admin, _) => GuardMeans(s, inv.auth, admin);
    case CallDisallowToken(admin, _) => GuardMeans(s, inv.auth, admin);
  }

  /** Settings change only by a settings call that the current admin signs; while there is no admin, by whoever takes the role. */
  lemma OnlyAdminChanges(s: Store, inv: Invocation)
    requires Inv(s) && Step(s, inv).0.config != s.config
    ensures ConfigCall(inv.call)
    ensures s.config.admin.Some? ==> Signed(s, inv.auth, s.config.admin.value)
    ensures s.config.admin.None? ==>
      inv.call.CallSetAdmin? && Signed(s, inv.auth, inv.call.newAdmin) && Step(s, inv).0.config == s.config.(admin := Some(inv.call.newAdmin))
  {
    hide Inv, Execute, ExecuteSetting, Signed;
    if ConfigCall(inv.call) {
      SettingCallRuns(s, inv);
      SettingSigned(s, inv);
    } else {
      if inv.call.CallDeposit? || inv.call.CallDistribute? || inv.call.CallBatchDistribute? || inv.call.CallClaim? {
        MoneyKeepsConfig(s, inv);
      } else {
        OthersKeepConfig(s, inv);
      }
      assert false;
    }
  }

  /** Over a run that the admin signs no call of, every setting stays. */
  lemma {:induction false} SettingsStay(s: Store, run: seq<Invocation>, admin: Address)
    requires Inv(s) && s.config.admin == Some(admin)
    requires forall k :: 0 <= k < |run| ==> admin !in run[k].auth
    ensures Run(s, run).config == s.config
    decreases |run|
  {
    hide Step, Inv;
    if run != [] {
      var init, last := run[..|run| - 1], run[|run| - 1];
      SettingsStay(s, init, admin);
      RunKeepsInv(s, init);
      if Step(Run(s, init), last).0.config != Run(s, init).config {
        OnlyAdminChanges(Run(s, init), last);
      }
    }
  }

  // ---------- the allowlist ----------

  /** The list names each allowed token once, and the count is its length. */
  ghost predicate AllowlistOk(config: Config) {
    && Distinct(config.allowedTokenList)
    && (forall t :: t in config.allowedTokenList <==> t in config.allowedTokens)
    && config.allowedTokenCount == |config.allowedTokenList| <= U32_MAX
  }

  /** With a sound allowlist, an empty list admits every token and any other list admits its members. */
  lemma AllowlistMeaning(config: Config, token: Address)
    requires AllowlistOk(config)
    ensures TokenAllowed(config, token) <==> config.allowedTokenList == [] || token in config.allowedTokenList
  {
  }

  lemma DistinctSnoc(list: seq<Address>, token: Address)
    requires Distinct(list) && token !in list
    ensures Distinct(list + [token])
  {
  }

  lemma LastIsNew(list: seq<Address>)
    requires list != [] && Distinct(list)
    ensures list[|list| - 1] !in list[..|list| - 1]
  {
  }

  lemma EmptyDistinct()
    ensures Distinct<Address>([])
  {
  }

  lemma {:induction false} WithoutFacts(list: seq<Address>, token: Address)
    requires Distinct(list)
    ensures Distinct(Without(list, token))
    ensures forall t :: t in Without(list, token) <==> t in list && t != token
    ensures |Without(list, token)| == |list| - if token in list then 1 else 0
    decreases |list|
  {
    hide Distinct;
    if list == [] {
      EmptyDistinct();
    } else {
      var init, last := list[..|list| - 1], list[|list| - 1];
      DistinctInit(list);
      WithoutFacts(init, token);
      LastIsNew(list);
      if last != token {
        DistinctSnoc(Without(init, token), last);
      } else {
        assert Without(list, token) == Without(init, token);
      }
    }
  }

  /** Adding a token keeps the allowlist sound unless the count was already at its ceiling. */
  lemma AllowingKeeps(config: Config, token: Address)
    requires AllowlistOk(config)
    ensures AllowlistOk(Allowing(config, token)) <==> |Allowing(config, token).allowedTokenList| <= U32_MAX
  {
  }

  lemma DisallowingKeeps(config: Config, token: Address)
    requires AllowlistOk(config)
    ensures AllowlistOk(Disallowing(config, token))
  {
    hide Distinct, Without;
    WithoutFacts(config.allowedTokenList, token);
  }

  /** One step keeps a sound allowlist exactly as long as the list does not outgrow its u32 count. */
  lemma AllowlistStep(s: Store, inv: Invocation)
    requires Inv(s) && AllowlistOk(s.config)
    ensures AllowlistOk(Step(s, inv).0.config) <==> |Step(s, inv).0.config.allowedTokenList| <= U32_MAX
  {
    hide Inv, Allowing, Disallowing, Distinct, Execute;
    if Step(s, inv).0.config != s.config {
      OnlyAdminChanges(s, inv);
      ListChange(s, inv);
      if inv.call.CallAllowToken? {
        AllowingKeeps(s.config, inv.call.token);
      } else if inv.call.CallDisallowToken? {
        DisallowingKeeps(s.config, inv.call.token);
      }
    }
  }

  lemma ListChange(s: Store, inv: Invocation)
    requires ConfigCall(inv.call) && Step(s, inv).1.Ok?
    ensures var c, c' := s.config, Step(s, inv).0.config;
            match inv.call
            case CallAllowToken(_, token) => c' == Allowing(c, token)
            case CallDisallowToken(_, token) => c' == Disallowing(c, token)
            case _ => SameList(c, c')
  {
    hide Execute, SetAdmin, SetPaused, SetMaxCollaborators, AllowToken, DisallowToken, Allowing, Disallowing;
    SettingCallRuns(s, inv);
    match inv.call
    case CallSetAdmin(admin) => AdminKeepsList(s, inv.auth, admin);
    case CallSetPaused(admin, paused) => PauseKeepsList(s, inv.auth, admin, paused);
    case CallSetMaxCollaborators(admin, value) => CapKeepsList(s, inv.auth, admin, value);
    case CallAllowToken(admin, token) => ListCalls(s, inv.auth, admin, token);
    case CallDisallowToken(admin, token) => ListCalls(s, inv.auth, admin, token);
  }

  predicate SameList(a: Config, b: Config) {
    b == a.(admin := b.admin, paused := b.paused, maxCollaborators := b.maxCollaborators)
  }

  lemma AdminKeepsList(s: Store, auth: set<Address>, admin: Address)
    ensures SameList(s.config, SetAdmin(s, auth, admin).0.config)
  {
    hide Signed;
  }

  lemma PauseKeepsList(s: Store, auth: set<Address>, admin: Address, paused: bool)
    ensures SameList(s.config, SetPaused(s, auth, admin, paused).0.config)
  {
    hide AdminGuard;
  }

  lemma CapKeepsList(s: Store, auth: set<Address>, admin: Address, value: int)
    ensures SameList(s.config, SetMaxCollaborators(s, auth, admin, value).0.config)
  {
    hide AdminGuard;
  }

  lemma ListCalls(s: Store, auth: set<Address>, admin: Address, token: Address)
    ensures AllowToken(s, auth, admin, token).1.Ok? ==> AllowToken(s, auth, admin, token).0.config == Allowing(s.config, token)
    ensures DisallowToken(s, auth, admin, token).1.Ok? ==> DisallowToken(s, auth, admin, token).0.config == Disallowing(s.config, token)
  {
    hide Signed, Allowing, Disallowing;
  }

  /** While no prefix of a run lists more than 2^32 - 1 tokens, the allowlist means what it says, and only then. */
  lemma {:induction false} AllowlistOverRuns(s: Store, run: seq<Invocation>)
    requires Inv(s) && AllowlistOk(s.config)
    ensures (forall k :: 0 <= k <= |run| ==> AllowlistOk(Run(s, run[..k]).config)) <==>
            (forall k :: 0 <= k <= |run| ==> |Run(s, run[..k]).config.allowedTokenList| <= U32_MAX)
    decreases |run|
  {
    hide Step, Inv;
    if forall k :: 0 <= k <= |run| ==> |Run(s, run[..k]).config.allowedTokenList| <= U32_MAX {
      forall k | 0 <= k <= |run| ensures AllowlistOk(Run(s, run[..k]).config) {
        AllowlistUpTo(s, run, k);
      }
    }
  }

  lemma {:induction false} AllowlistUpTo(s: Store, run: seq<Invocation>, k: nat)
    requires Inv(s) && AllowlistOk(s.config) && k <= |run|
    requires forall j :: 0 <= j <= k ==> |Run(s, run[..j]).config.allowedTokenList| <= U32_MAX
    ensures AllowlistOk(Run(s, run[..k]).config)
    decreases k
  {
    hide Step, Inv, AllowlistOk;
    if k > 0 {
      AllowlistUpTo(s, run, k - 1);
      assert run[..k][..k - 1] == run[..k - 1];
      RunKeepsInv(s, run[..k - 1]);
      AllowlistStep(Run(s, run[..k - 1]), run[k - 1]);
    }
  }
}
