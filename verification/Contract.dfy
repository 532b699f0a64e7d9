/**
 The contract as it is written: an object whose entry points read and overwrite
 its storage, with the loops of the original. Each entry point is proved to do
 what its function in `Protocol` says; `Invoke` adds the host's rollback.
 */
module Contract {
  import opened Arithmetic
  import opened Options
  import opened SplitTypes
  import opened ProjectIndex
  import opened Shares
  import opened Sums
  import opened Protocol
  import opened Invariant
  import opened Preservation

  /** The storage entries that belong to one collaborator of one project, and the project's claim epochs. */
  datatype ClaimRecords = ClaimRecords(
    claimed: map<(Symbol, Address), int>,
    lastAmount: map<(Symbol, Address), int>,
    epoch: map<Symbol, int>,
    lastEpoch: map<(Symbol, Address), int>)

  class SplitNaira {
    const self: Address
    var config: Config
    var projects: map<Symbol, SplitProject>
    var balances: map<Symbol, int>
    var claims: ClaimRecords
    var accounted: map<Address, int>
    var projectCount: nat
    var index: Index
    var bank: Bank

    function State(): Store
      reads this
    {
      Store(self, config, projects, balances, claims.claimed, claims.lastAmount, claims.epoch, claims.lastEpoch,
            accounted, projectCount, index, bank)
    }

    constructor (self: Address, config: Config, bank: Bank)
      ensures EmptyStore(State()) && this.self == self && this.config == config && this.bank == bank
      ensures BankOk(bank) ==> Inv(State())
    {
      this.self, this.config, this.bank := self, config, bank;
      projects, balances, claims := map[], map[], ClaimRecords(map[], map[], map[], map[]);
      accounted, projectCount, index := map[], 0, Index(map[], 0, None);
    }

    /** The host puts back the storage a failed call had changed. */
    method Restore(s: Store)
      requires s.self == self
      modifies this
      ensures State() == s
    {
      config, projects, balances, bank := s.config, s.projects, s.balances, s.bank;
      claims := ClaimRecords(s.claimed, s.lastClaimAmount, s.claimEpoch, s.lastClaimEpoch);
      accounted, projectCount, index := s.accounted, s.projectCount, s.index;
    }

    // ---------- index ----------

    method GetBucketedIds() returns (all: seq<Symbol>)
      ensures all == BucketedIds(index)
    {
      all := [];
      var i := 0;
      while i < index.bucketCount
        invariant i <= index.bucketCount && all == FlattenTo(index, i)
      {
        var bucket := Bucket(index, i);
        var j := 0;
        while j < |bucket|
          invariant j <= |bucket| && all == FlattenTo(index, i) + bucket[..j]
        {
          all := all + [bucket[j]];
          j := j + 1;
        }
        assert bucket[..j] == bucket;
        i := i + 1;
      }
    }

    method GetAllIds() returns (all: seq<Symbol>)
      ensures all == AllIds(index)
    {
      all := GetBucketedIds();
      if index.flat.Some? {
        var flat, k := index.flat.value, 0;
        assert flat[0..] == flat;
        while k < |flat|
          invariant k <= |flat| && Merge(all, flat[k..]) == AllIds(index)
        {
          assert flat[k..][1..] == flat[k + 1..];
          if flat[k] !in all {
            all := all + [flat[k]];
          }
          k := k + 1;
        }
      }
    }

    method AppendToBuckets(id: Symbol)
      modifies this`index
      ensures index == Append(old(index), id)
    {
      if index.bucketCount > 0 {
        var last := index.bucketCount - 1;
        var bucket := Bucket(index, last);
        if |bucket| < BUCKET_SIZE {
          index := index.(buckets := index.buckets[last := bucket + [id]]);
          return;
        }
      }
      index := index.(buckets := index.buckets[index.bucketCount := [id]], bucketCount := index.bucketCount + 1);
    }

    method MigrateFlatIndex()
      modifies this`index
      ensures index == Migrate(old(index))
    {
      if index.flat.None? {
        return;
      }
      var flat, k := index.flat.value, 0;
      var bucketed := GetBucketedIds();
      assert flat[0..] == flat;
      while k < |flat|
        modifies this`index
        invariant k <= |flat|
        invariant Fold(index, bucketed, flat[k..]) == Fold(old(index), BucketedIds(old(index)), flat)
      {
        assert flat[k..][1..] == flat[k + 1..];
        if flat[k] !in bucketed {
          AppendToBuckets(flat[k]);
          bucketed := bucketed + [flat[k]];
        }
        k := k + 1;
      }
      index := index.(flat := None);
    }

    /** The inner loop of a page read. */
    method CopyIds(before: seq<Symbol>, data: seq<Symbol>, offset: nat, take: nat) returns (ids: seq<Symbol>)
      requires offset + take <= |data|
      ensures ids == before + data[offset..offset + take]
    {
      ids := before;
      var i := 0;
      while i < take
        invariant 0 <= i <= take && ids == before + data[offset..offset + i]
      {
        ids := ids + [data[offset + i]];
        i := i + 1;
      }
    }

    /** `get_project_ids`; `None` is a trap. */
    method GetProjectIds(start: nat, limit: nat) returns (page: Option<seq<Symbol>>)
      requires start <= U32_MAX && limit <= U32_MAX
      ensures page == PageOf(index, start, limit)
    {
      hide Joined;
      if index.bucketCount == 0 {
        return Some(if index.flat.Some? then index.flat.value else []);
      }
      var ids, idx := [], start;
      var end := PageEnd(start, limit);
      JoinedEmpty(PageFrom(index, start, end));
      while idx < end
        invariant Joined(Some(ids), PageFrom(index, idx, end)) == PageFrom(index, start, end)
        decreases end - idx
      {
        var bucket, offset := idx / BUCKET_SIZE, idx % BUCKET_SIZE;
        if bucket >= index.bucketCount {
          break;
        }
        var data := Bucket(index, bucket);
        var remaining := if |data| > offset then |data| - offset else 0;
        if remaining == 0 {
          var next := (bucket + 1) * BUCKET_SIZE;
          if next > U32_MAX {
            JoinedTrap(ids);
            return None;
          }
          if next <= idx {
            break;
          }
          idx := next;
          continue;
        }
        var take := Min(remaining, end - idx);
        ghost var before := ids;
        ids := CopyIds(ids, data, offset, take);
        JoinedInTurn(before, data[offset..offset + take], PageFrom(index, idx + take, end));
        idx := idx + take;
      }
      JoinedEmpty(Some(ids));
      return Some(ids);
    }

    /** `list_projects`: the records of the page, position for position. */
    method ListProjects(start: nat, limit: nat) returns (result: Option<seq<SplitProject>>)
      requires start <= U32_MAX && limit <= U32_MAX
      ensures Inv(State()) ==>
        var page := PageOf(index, start, limit);
        && (result.Some? <==> page.Some?)
        && (result.Some? ==>
              && |result.value| == |page.value|
              && (forall i :: 0 <= i < |page.value| ==> page.value[i] in projects && result.value[i] == projects[page.value[i]]))
    {
      hide Inv, PageOf;
      var page := GetProjectIds(start, limit);
      if Inv(State()) {
        PageListsProjects(State(), start, limit);
      }
      if page.None? {
        return None;
      }
      var ids, out, k := page.value, [], 0;
      while k < |ids|
        invariant 0 <= k <= |ids|
        invariant Inv(State()) ==> |out| == k && forall i :: 0 <= i < k ==> ids[i] in projects && out[i] == projects[ids[i]]
      {
        if ids[k] in projects {
          out := out + [projects[ids[k]]];
        }
        k := k + 1;
      }
      return Some(out);
    }

    // ---------- accounted balance cache ----------

    method SumBalances(token: Address) returns (sum: Option<int>)
      ensures sum == CheckedTotal(AllIds(index), projects, balances, token)
    {
      var ids := GetAllIds();
      var total, k := 0, 0;
      while k < |ids|
        invariant 0 <= k <= |ids| && CheckedTotal(ids[..k], projects, balances, token) == Some(total)
      {
        assert ids[..k + 1][..k] == ids[..k];
        if ids[k] in projects && projects[ids[k]].token == token {
          total := total + BalanceOf(balances, ids[k]);
          if !FitsI128(total) {
            OverflowSticks(ids, k + 1, projects, balances, token);
            return None;
          }
        } else {
          PrefixFits(ids[..k], projects, balances, token);
        }
        k := k + 1;
      }
      assert ids[..k] == ids;
      return Some(total);
    }

    /** `false` is `Err(ArithmeticOverflow)`. */
    method AdjustAccounted(token: Address, delta: int) returns (ok: bool)
      modifies this`accounted
      ensures var next := Adjust(old(State()), token, delta);
              ok == next.Some? && State() == if ok then next.value else old(State())
    {
      if token in accounted {
        var next := accounted[token] + delta;
        if !FitsI128(next) {
          return false;
        }
        accounted := accounted[token := next];
      } else {
        var live := SumBalances(token);
        if live.None? {
          return false;
        }
        accounted := accounted[token := live.value];
      }
      return true;
    }

    method BumpClaimEpoch(id: Symbol)
      modifies this`claims
      ensures State() == BumpEpoch(old(State()), id)
    {
      var current := if id in claims.epoch then claims.epoch[id] else 0;
      claims := claims.(epoch := claims.epoch[id := if current < U32_MAX then current + 1 else current]);
    }

    // ---------- project management ----------

    method ValidateCollaborators(cs: seq<Collaborator>) returns (invalid: Option<SplitError>)
      ensures invalid == Validate(cs, Cap(config))
      ensures invalid.None? <==> ValidSplit(cs) && |cs| <= Cap(config)
    {
      ValidationIsExact(cs, Cap(config));
      if |cs| < 2 {
        return Some(TooFewCollaborators);
      }
      if |cs| > Cap(config) {
        return Some(TooManyCollaborators);
      }
      var total, seen, i := 0, {}, 0;
      while i < |cs|
        invariant 0 <= i <= |cs| && 0 <= total
        invariant ScanShares(cs, i, total, seen) == ScanShares(cs, 0, 0, {})
      {
        if cs[i].basisPoints == 0 {
          return Some(ZeroShare);
        }
        if total + cs[i].basisPoints > U32_MAX {
          return Some(ArithmeticOverflow);
        }
        if cs[i].address in seen {
          return Some(DuplicateCollaborator);
        }
        total, seen, i := total + cs[i].basisPoints, seen + {cs[i].address}, i + 1;
      }
      if total != TOTAL_BPS {
        return Some(InvalidSplit);
      }
      return None;
    }

    method CheckNewProject(auth: set<Address>, owner: Address, id: Symbol, token: Address, cs: seq<Collaborator>) returns (stop: Option<Outcome>)
      ensures stop == CreateGuard(State(), auth, owner, id, token, cs)
    {
      hide Validate, ValidSplit, Signed;
      if !Signed(State(), auth, owner) {
        return Some(Trap);
      }
      if id in projects {
        return Some(Err(ProjectExists));
      }
      if !(config.allowedTokenCount == 0 || token in config.allowedTokens) {
        return Some(Err(TokenNotAllowed));
      }
      var invalid := ValidateCollaborators(cs);
      if invalid.Some? {
        return Some(Err(invalid.value));
      }
      if projectCount >= U32_MAX {
        return Some(Trap);
      }
      return None;
    }

    method CreateProject(auth: set<Address>, owner: Address, id: Symbol, title: string, projectType: string,
                         token: Address, cs: seq<Collaborator>) returns (r: Outcome)
      modifies this
      ensures var (s', o) := Protocol.CreateProject(old(State()), auth, owner, id, title, projectType, token, cs);
              r == o && (!r.Trap? ==> State() == s')
    {
      hide CreateGuard, Migrate, AppendByCount;
      var stop := CheckNewProject(auth, owner, id, token, cs);
      if stop.Some? {
        return stop.value;
      }
      projects := projects[id := SplitProject(id, title, projectType, token, owner, cs, false, 0, 0)];
      balances := balances[id := 0];
      projectCount := projectCount + 1;
      IndexNewProject(id, projectCount);
      return Ok(Done);
    }

    /** The index writes of `create_project`. */
    method IndexNewProject(id: Symbol, newCount: nat)
      requires newCount > 0
      modifies this`index
      ensures index == AppendByCount(Migrate(old(index)), newCount, id)
    {
      hide Migrate;
      MigrateFlatIndex();
      var target := (newCount - 1) / BUCKET_SIZE;
      if target >= index.bucketCount {
        index := index.(buckets := index.buckets[target := [id]], bucketCount := index.bucketCount + 1);
      } else {
        index := index.(buckets := index.buckets[target := Bucket(index, target) + [id]]);
      }
    }

    method UpdateCollaborators(auth: set<Address>, id: Symbol, owner: Address, cs: seq<Collaborator>) returns (r: Outcome)
      modifies this`projects
      ensures (State(), r) == Protocol.UpdateCollaborators(old(State()), auth, id, owner, cs)
    {
      var stop := OwnerGuard(State(), auth, id, owner);
      if stop.Some? {
        return stop.value;
      }
      var project := projects[id];
      if project.locked {
        return Err(ProjectLocked);
      }
      var invalid := ValidateCollaborators(cs);
      if invalid.Some? {
        return Err(invalid.value);
      }
      projects := projects[id := project.(collaborators := cs)];
      return Ok(Done);
    }

    method LockProject(auth: set<Address>, id: Symbol, owner: Address) returns (r: Outcome)
      modifies this`projects
      ensures (State(), r) == Protocol.LockProject(old(State()), auth, id, owner)
    {
      var stop := OwnerGuard(State(), auth, id, owner);
      if stop.Some? {
        return stop.value;
      }
      if projects[id].locked {
        return Err(AlreadyLocked);
      }
      projects := projects[id := projects[id].(locked := true)];
      return Ok(Done);
    }

    method UpdateMetadata(auth: set<Address>, id: Symbol, owner: Address, title: string, projectType: string) returns (r: Outcome)
      modifies this`projects
      ensures (State(), r) == Protocol.UpdateMetadata(old(State()), auth, id, owner, title, projectType)
    {
      var stop := OwnerGuard(State(), auth, id, owner);
      if stop.Some? {
        return stop.value;
      }
      if projects[id].locked {
        return Err(ProjectLocked);
      }
      projects := projects[id := projects[id].(title := title, projectType := projectType)];
      return Ok(Done);
    }

    method TransferOwnership(auth: set<Address>, id: Symbol, owner: Address, newOwner: Address) returns (r: Outcome)
      modifies this`projects
      ensures (State(), r) == Protocol.TransferOwnership(old(State()), auth, id, owner, newOwner)
    {
      var stop := OwnerGuard(State(), auth, id, owner);
      if stop.Some? {
        return stop.value;
      }
      projects := projects[id := projects[id].(owner := newOwner)];
      return Ok(Done);
    }

    // ---------- money ----------

    method Deposit(auth: set<Address>, id: Symbol, from: Address, amount: int) returns (r: Outcome)
      modifies this
      ensures var (s', o) := Protocol.Deposit(old(State()), auth, id, from, amount);
              r == o && (!r.Trap? ==> State() == s')
    {
      hide Transfer, Adjust, BumpEpoch;
      if amount <= 0 {
        return Err(InvalidAmount);
      }
      if id !in projects {
        return Err(NotFound);
      }
      if !Signed(State(), auth, from) {
        return Trap;
      }
      var token := projects[id].token;
      var moved := Transfer(bank, token, from, self, amount);
      if moved.None? {
        return Trap;
      }
      bank := moved.value;
      var newBalance := BalanceOf(balances, id) + amount;
      if !FitsI128(newBalance) {
        return Trap;
      }
      balances := balances[id := newBalance];
      var ok := AdjustAccounted(token, amount);
      if !ok {
        return Err(ArithmeticOverflow);
      }
      BumpClaimEpoch(id);
      return Ok(Done);
    }

    /** The payment loop of `distribute`; `None` is a trap. */
    method PayCollaborators(id: Symbol, p: SplitProject, balance: int) returns (sent: Option<int>)
      modifies this`bank, this`claims
      ensures var paid := PayFrom(old(State()), id, p, balance, 0, 0);
              sent.Some? == paid.Some? && (sent.Some? ==> paid.value == (State(), sent.value))
    {
      hide Transfer, ClaimedBy, FitsI128;
      ghost var start := State();
      var cs, i, totalSent := p.collaborators, 0, 0;
      while i < |cs|
        modifies this`bank, this`claims
        invariant 0 <= i <= |cs|
        invariant PayFrom(State(), id, p, balance, i, totalSent) == PayFrom(start, id, p, balance, 0, 0)
      {
        var amount: int;
        if i == |cs| - 1 {
          amount := balance - totalSent;
        } else {
          var product := balance * cs[i].basisPoints;
          if !FitsI128(product) {
            return None;
          }
          amount := product / TOTAL_BPS;
        }
        if amount > 0 {
          var moved := Transfer(bank, p.token, self, cs[i].address, amount);
          if moved.None? {
            return None;
          }
          var prev := ClaimedBy(claims.claimed, id, cs[i].address);
          if !FitsI128(prev + amount) || !FitsI128(totalSent + amount) {
            return None;
          }
          bank := moved.value;
          claims := claims.(claimed := claims.claimed[(id, cs[i].address) := prev + amount]);
          totalSent := totalSent + amount;
        }
        i := i + 1;
      }
      return Some(totalSent);
    }

    /** Without the host's rollback: what is written before an `Err` stays written. */
    method Distribute(id: Symbol) returns (r: Outcome)
      modifies this
      ensures var (s', o) := Protocol.Distribute(old(State()), id);
              r == o && (!r.Trap? ==> State() == s')
    {
      hide Adjust, BumpEpoch, PayFrom;
      if config.paused {
        return Err(DistributionsPaused);
      }
      if id !in projects {
        return Err(NotFound);
      }
      var project, balance := projects[id], BalanceOf(balances, id);
      if balance <= 0 {
        return Err(NoBalance);
      }
      if balance < |project.collaborators| {
        return Err(NoBalance);
      }
      if |project.collaborators| == 0 {
        return Trap;
      }
      var sent := PayCollaborators(id, project, balance);
      if sent.None? {
        return Trap;
      }
      balances := balances[id := balance - sent.value];
      var ok := AdjustAccounted(project.token, -sent.value);
      if !ok {
        return Err(ArithmeticOverflow);
      }
      BumpClaimEpoch(id);
      if !FitsI128(project.totalDistributed + sent.value) || project.distributionRound + 1 > U32_MAX {
        return Trap;
      }
      projects := projects[id := project.(totalDistributed := project.totalDistributed + sent.value,
                                          distributionRound := project.distributionRound + 1)];
      return Ok(Done);
    }

    method BatchDistribute(ids: seq<Symbol>) returns (r: Outcome)
      modifies this
      ensures var (s', o) := Protocol.BatchDistribute(old(State()), ids);
              r == o && (!r.Trap? ==> State() == s')
    {
      hide Protocol.Distribute;
      if config.paused {
        return Err(DistributionsPaused);
      }
      var rows, k := [], 0;
      assert ids[0..] == ids;
      while k < |ids|
        invariant 0 <= k <= |ids|
        invariant BatchFrom(State(), ids[k..], rows) == BatchFrom(old(State()), ids, [])
      {
        assert ids[k..][1..] == ids[k + 1..];
        if config.paused {
          return Trap;
        }
        var inner := Distribute(ids[k]);
        match inner {
          case Ok(_) => rows := rows + [BatchRow(ids[k], None)];
          case Err(DistributionsPaused) => return Err(DistributionsPaused);
          case Err(e) => rows := rows + [BatchRow(ids[k], Some(e))];
          case Trap => return Trap;
        }
        k := k + 1;
      }
      return Ok(Report(rows));
    }

    method FindShare(cs: seq<Collaborator>, who: Address) returns (bps: Option<nat>)
      ensures bps == SharePoints(cs, who)
    {
      var k := 0;
      assert cs[0..] == cs;
      while k < |cs|
        invariant 0 <= k <= |cs| && SharePoints(cs[k..], who) == SharePoints(cs, who)
      {
        if cs[k].address == who {
          return Some(cs[k].basisPoints);
        }
        assert cs[k..][1..] == cs[k + 1..];
        k := k + 1;
      }
      return None;
    }

    method Claim(auth: set<Address>, id: Symbol, who: Address) returns (r: Outcome)
      modifies this
      ensures var (s', o) := Protocol.Claim(old(State()), auth, id, who);
              r == o && (!r.Trap? ==> State() == s')
    {
      hide SharePoints, FitsI128, Epoch, Signed, BalanceOf, Protocol.PayClaim;
      if !Signed(State(), auth, who) {
        return Trap;
      }
      if config.paused {
        return Err(DistributionsPaused);
      }
      if id !in projects {
        return Err(NotFound);
      }
      var project, key := projects[id], (id, who);
      var bps := FindShare(project.collaborators, who);
      if bps.None? {
        return Err(NotACollaborator);
      }
      var epoch := Epoch(State(), id);
      if key in claims.lastEpoch && claims.lastEpoch[key] == epoch {
        return Err(AlreadyClaimed);
      }
      var balance := Balance(State(), id);
      if balance <= 0 {
        return Ok(Amount(0));
      }
      var product := balance * bps.value;
      if !FitsI128(product) {
        return Trap;
      }
      var amount := product / TOTAL_BPS;
      if amount <= 0 {
        return Ok(Amount(0));
      }
      r := PayClaim(id, who, amount);
    }

    /** The part of `claim` that moves the money. */
    method PayClaim(id: Symbol, who: Address, amount: int) returns (r: Outcome)
      requires id in projects
      modifies this
      ensures var (s', o) := Protocol.PayClaim(old(State()), id, who, amount);
              r == o && (!r.Trap? ==> State() == s')
    {
      hide Transfer, Adjust, ClaimedBy, FitsI128, Epoch;
      var project, key, epoch := projects[id], (id, who), Epoch(State(), id);
      balances := balances[id := Balance(State(), id) - amount];
      var ok := AdjustAccounted(project.token, -amount);
      if !ok {
        return Err(ArithmeticOverflow);
      }
      var total := ClaimedBy(claims.claimed, id, who) + amount;
      if !FitsI128(project.totalDistributed + amount) || !FitsI128(total) {
        return Trap;
      }
      projects := projects[id := project.(totalDistributed := project.totalDistributed + amount)];
      claims := claims.(claimed := claims.claimed[key := total],
                        lastAmount := claims.lastAmount[key := amount],
                        lastEpoch := claims.lastEpoch[key := epoch]);
      var moved := Transfer(bank, project.token, self, who, amount);
      if moved.None? {
        return Trap;
      }
      bank := moved.value;
      return Ok(Amount(amount));
    }

    // ---------- administration ----------

    /** `None` is `Err(ArithmeticOverflow)`. */
    method GetUnallocated(token: Address) returns (available: Option<int>)
      ensures available == Unallocated(State(), token)
      ensures Inv(State()) ==> available == Some(Holding(State(), token) - LiveTotal(State(), token))
    {
      hide CheckedTotal, BalanceTotal, AllIds, Inv;
      if Inv(State()) {
        UnallocatedExact(State(), token);
      }
      var held := Held(bank, token, self);
      var total: int;
      if token in accounted {
        total := accounted[token];
      } else {
        var sum := SumBalances(token);
        if sum.None? {
          return None;
        }
        total := sum.value;
      }
      if held < total {
        return Some(0);
      }
      return Some(Min(held - total, I128_MAX));
    }

    method WithdrawUnallocated(auth: set<Address>, admin: Address, token: Address, to: Address, amount: int) returns (r: Outcome)
      modifies this`bank
      ensures (State(), r) == Protocol.WithdrawUnallocated(old(State()), auth, admin, token, to, amount)
    {
      hide Transfer, Unallocated, Inv, LiveTotal;
      var stop := AdminGuard(State(), auth, admin);
      if stop.Some? {
        return stop.value;
      }
      if amount <= 0 {
        return Err(InvalidAmount);
      }
      if to == self {
        return Err(InvalidRecipient);
      }
      var available := GetUnallocated(token);
      if available.None? {
        return Err(ArithmeticOverflow);
      }
      if amount > available.value {
        return Err(InsufficientUnallocated);
      }
      var moved := Transfer(bank, token, self, to, amount);
      if moved.None? {
        return Trap;
      }
      bank := moved.value;
      return Ok(Done);
    }

    method MigrateFlatToBuckets(auth: set<Address>, admin: Address) returns (r: Outcome)
      modifies this
      ensures (State(), r) == Protocol.MigrateFlatToBuckets(old(State()), auth, admin)
    {
      var stop := AdminGuard(State(), auth, admin);
      if stop.Some? {
        return stop.value;
      }
      MigrateFlatIndex();
      return Ok(Done);
    }

    method SetAdmin(auth: set<Address>, admin: Address) returns (r: Outcome)
      modifies this`config
      ensures (State(), r) == Protocol.SetAdmin(old(State()), auth, admin)
    {
      if config.admin.Some? {
        if !Signed(State(), auth, config.admin.value) {
          return Trap;
        }
      } else if !Signed(State(), auth, admin) {
        return Trap;
      }
      config := config.(admin := Some(admin));
      return Ok(Done);
    }

    method SetPaused(auth: set<Address>, admin: Address, paused: bool) returns (r: Outcome)
      modifies this`config
      ensures (State(), r) == Protocol.SetPaused(old(State()), auth, admin, paused)
    {
      var stop := AdminGuard(State(), auth, admin);
      if stop.Some? {
        return stop.value;
      }
      config := config.(paused := paused);
      return Ok(Done);
    }

    method SetMaxCollaborators(auth: set<Address>, admin: Address, value: int) returns (r: Outcome)
      modifies this`config
      ensures (State(), r) == Protocol.SetMaxCollaborators(old(State()), auth, admin, value)
    {
      var stop := AdminGuard(State(), auth, admin);
      if stop.Some? {
        return stop.value;
      }
      if value < MIN_MAX_COLLABORATORS || value > MAX_MAX_COLLABORATORS {
        return Err(InvalidMaxCollaborators);
      }
      config := config.(maxCollaborators := Some(value));
      return Ok(Done);
    }

    method AllowToken(auth: set<Address>, admin: Address, token: Address) returns (r: Outcome)
      modifies this`config
      ensures (State(), r) == Protocol.AllowToken(old(State()), auth, admin, token)
    {
      var stop := AdminGuard(State(), auth, admin);
      if stop.Some? {
        return stop.value;
      }
      if token !in config.allowedTokens {
        config := config.(allowedTokens := config.allowedTokens + {token});
        config := config.(allowedTokenList := config.allowedTokenList + [token]);
        config := config.(allowedTokenCount := Min(config.allowedTokenCount + 1, U32_MAX));
      }
      return Ok(Done);
    }

    method DisallowToken(auth: set<Address>, admin: Address, token: Address) returns (r: Outcome)
      modifies this`config
      ensures (State(), r) == Protocol.DisallowToken(old(State()), auth, admin, token)
    {
      var stop := AdminGuard(State(), auth, admin);
      if stop.Some? {
        return stop.value;
      }
      if token in config.allowedTokens {
        config := config.(allowedTokens := config.allowedTokens - {token});
        var list, filtered, k := config.allowedTokenList, [], 0;
        while k < |list|
          invariant 0 <= k <= |list| && filtered == Without(list[..k], token)
        {
          assert list[..k + 1][..k] == list[..k];
          if list[k] != token {
            filtered := filtered + [list[k]];
          }
          k := k + 1;
        }
        assert list[..k] == list;
        config := config.(allowedTokenList := filtered);
        config := config.(allowedTokenCount := if config.allowedTokenCount > 0 then config.allowedTokenCount - 1 else 0);
      }
      return Ok(Done);
    }

    method ChangeSetting(inv: Invocation) returns (r: Outcome)
      requires ConfigCall(inv.call)
      modifies this`config
      ensures (State(), r) == ExecuteSetting(old(State()), inv)
    {
      hide Protocol.SetAdmin, Protocol.SetPaused, Protocol.SetMaxCollaborators, Protocol.AllowToken,
        Protocol.DisallowToken;
      match inv.call {
        case CallSetAdmin(admin) => r := SetAdmin(inv.auth, admin);
        case CallSetPaused(admin, paused) => r := SetPaused(inv.auth, admin, paused);
        case CallSetMaxCollaborators(admin, value) => r := SetMaxCollaborators(inv.auth, admin, value);
        case CallAllowToken(admin, token) => r := AllowToken(inv.auth, admin, token);
        case CallDisallowToken(admin, token) => r := DisallowToken(inv.auth, admin, token);
      }
    }

    // ---------- the host ----------

    /** One call from outside: its writes are kept on success and undone otherwise, and the invariant survives either way. */
    method Invoke(inv: Invocation) returns (r: Outcome)
      requires !inv.call.OutsideTransfers?
      modifies this
      ensures (State(), r) == Step(old(State()), inv)
      ensures old(Inv(State())) ==> Inv(State())
    {
      hide Inv, Protocol.Distribute, Protocol.Claim, Protocol.Deposit, Protocol.CreateProject,
        Protocol.WithdrawUnallocated, Protocol.UpdateCollaborators, Protocol.LockProject, Protocol.UpdateMetadata,
        Protocol.TransferOwnership, Protocol.BatchDistribute, Protocol.MigrateFlatToBuckets, ExecuteSetting;
      var saved := State();
      if Inv(saved) {
        StepKeepsInv(saved, inv);
      }
      match inv.call {
        case CallCreateProject(owner, id, title, kind, token, cs) => r := CreateProject(inv.auth, owner, id, title, kind, token, cs);
        case CallUpdateCollaborators(id, owner, cs) => r := UpdateCollaborators(inv.auth, id, owner, cs);
        case CallLockProject(id, owner) => r := LockProject(inv.auth, id, owner);
        case CallUpdateMetadata(id, owner, title, kind) => r := UpdateMetadata(inv.auth, id, owner, title, kind);
        case CallTransferOwnership(id, owner, newOwner) => r := TransferOwnership(inv.auth, id, owner, newOwner);
        case CallDeposit(id, from, amount) => r := Deposit(inv.auth, id, from, amount);
        case CallDistribute(id) => r := Distribute(id);
        case CallBatchDistribute(ids) => r := BatchDistribute(ids);
        case CallClaim(id, claimer) => r := Claim(inv.auth, id, claimer);
        case CallWithdrawUnallocated(admin, token, to, amount) => r := WithdrawUnallocated(inv.auth, admin, token, to, amount);
        case CallMigrateFlatToBuckets(admin) => r := MigrateFlatToBuckets(inv.auth, admin);
        case CallSetAdmin(_) => r := ChangeSetting(inv);
        case CallSetPaused(_, _) => r := ChangeSetting(inv);
        case CallSetMaxCollaborators(_, _) => r := ChangeSetting(inv);
        case CallAllowToken(_, _) => r := ChangeSetting(inv);
        case CallDisallowToken(_, _) => r := ChangeSetting(inv);
      }
      if !r.Ok? {
        Restore(saved);
      }
    }
  }

  lemma PageListsProjects(s: Store, start: nat, limit: nat)
    requires Inv(s)
    ensures PageOf(s.index, start, limit).Some? ==> forall id :: id in PageOf(s.index, start, limit).value ==> id in s.projects
  {
    hide ProjectsOk, CacheOk, Solvent, ClaimsOk, EpochsOk, BankOk, PageFrom, Merge;
    MergeFacts(BucketedIds(s.index), FlatIds(s.index));
    if s.index.bucketCount > 0 {
      PageTrapsIff(s.index, start, limit);
    }
  }

  lemma JoinedEmpty(page: Option<seq<Symbol>>)
    ensures Joined(Some([]), page) == page && Joined(page, Some([])) == page
  {
    assert page.Some? ==> [] + page.value == page.value && page.value + [] == page.value;
  }

  lemma JoinedTrap(ids: seq<Symbol>)
    ensures Joined(Some(ids), None) == None
  {
  }

  lemma JoinedInTurn(a: seq<Symbol>, b: seq<Symbol>, rest: Option<seq<Symbol>>)
    ensures Joined(Some(a), Joined(Some(b), rest)) == Joined(Some(a + b), rest)
  {
    assert rest.Some? ==> a + (b + rest.value) == a + b + rest.value;
  }

  lemma PrefixFits(ids: seq<Symbol>, projects: map<Symbol, SplitProject>, balances: map<Symbol, int>, token: Address)
    requires CheckedTotal(ids, projects, balances, token).Some?
    ensures FitsI128(CheckedTotal(ids, projects, balances, token).value)
  {
  }
}
