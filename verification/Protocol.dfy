/**
 The contract as a transition system over one store value. Each entry point is
 a function from a store to a store and an outcome; the store beside an `Err`
 is what the entry point had written when it returned, because a caller inside
 the contract (`batch_distribute`) does not roll it back. The host does: `Step`
 keeps a call's writes only when the call succeeds.
 */
module Protocol {
  import opened Arithmetic
  import opened Options
  import opened SplitTypes
  import opened ProjectIndex
  import opened Shares
  import opened Sums

  // ---------- token contracts ----------

  /** Balances of every (token, holder), and the receipts a token would refuse. */
  datatype Bank = Bank(ledger: map<(Address, Address), int>, refused: set<(Address, Address)>)

  function Held(bank: Bank, token: Address, who: Address): int {
    if (token, who) in bank.ledger then bank.ledger[(token, who)] else 0
  }

  /** `token_client.transfer`: moves exactly `amount`, or `None` for a trap. */
  function Transfer(bank: Bank, token: Address, from: Address, to: Address, amount: int): Option<Bank> {
    if amount < 0 || Held(bank, token, from) < amount || (token, to) in bank.refused then None
    else
      var debited := bank.(ledger := bank.ledger[(token, from) := Held(bank, token, from) - amount]);
      var received := Held(debited, token, to) + amount;
      if received > I128_MAX then None
      else Some(debited.(ledger := debited.ledger[(token, to) := received]))
  }

  ghost predicate BankOk(bank: Bank) {
    forall k :: k in bank.ledger ==> 0 <= bank.ledger[k] <= I128_MAX
  }

  // ---------- store ----------

  datatype Config = Config(
    admin: Option<Address>,
    paused: bool,
    maxCollaborators: Option<int>,
    allowedTokens: set<Address>,
    allowedTokenList: seq<Address>,
    allowedTokenCount: int)

  datatype Store = Store(
    self: Address,
    config: Config,
    projects: map<Symbol, SplitProject>,
    balances: map<Symbol, int>,
    claimed: map<(Symbol, Address), int>,
    lastClaimAmount: map<(Symbol, Address), int>,
    claimEpoch: map<Symbol, int>,
    lastClaimEpoch: map<(Symbol, Address), int>,
    accounted: map<Address, int>,
    projectCount: nat,
    index: Index,
    bank: Bank)

  function Cap(config: Config): int {
    if config.maxCollaborators.Some? then config.maxCollaborators.value else DEFAULT_MAX_COLLABORATORS
  }

  predicate TokenAllowed(config: Config, token: Address) {
    config.allowedTokenCount == 0 || token in config.allowedTokens
  }

  function Balance(s: Store, id: Symbol): int {
    BalanceOf(s.balances, id)
  }

  function Epoch(s: Store, id: Symbol): int {
    if id in s.claimEpoch then s.claimEpoch[id] else 0
  }

  /** The total that a walk of the merged index finds for a token. */
  function LiveTotal(s: Store, token: Address): int {
    BalanceTotal(AllIds(s.index), s.projects, s.balances, token)
  }

  function Holding(s: Store, token: Address): int {
    Held(s.bank, token, s.self)
  }

  /** The contract never authorises itself as a caller. */
  predicate Signed(s: Store, auth: set<Address>, who: Address) {
    who in auth && who != s.self
  }

  function NextEpoch(epoch: int): int {
    if epoch < U32_MAX then epoch + 1 else epoch
  }

  function BumpEpoch(s: Store, id: Symbol): Store {
    s.(claimEpoch := s.claimEpoch[id := NextEpoch(Epoch(s, id))])
  }

  function SetProject(s: Store, id: Symbol, p: SplitProject): Store {
    s.(projects := s.projects[id := p])
  }

  // ---------- accounted balance cache ----------

  /** `adjust_accounted_token_balance`; `None` is `Err(ArithmeticOverflow)` with nothing written. */
  function Adjust(s: Store, token: Address, delta: int): Option<Store> {
    if token in s.accounted then
      var next := s.accounted[token] + delta;
      if FitsI128(next) then Some(s.(accounted := s.accounted[token := next])) else None
    else
      var live := CheckedTotal(AllIds(s.index), s.projects, s.balances, token);
      if live.Some? then Some(s.(accounted := s.accounted[token := live.value])) else None
  }

  /** `get_accounted_balance`. */
  function Accounted(s: Store, token: Address): Option<int> {
    if token in s.accounted then Some(s.accounted[token])
    else CheckedTotal(AllIds(s.index), s.projects, s.balances, token)
  }

  /** `get_unallocated_balance`; `None` is `Err(ArithmeticOverflow)`. */
  function Unallocated(s: Store, token: Address): Option<int> {
    var accounted := Accounted(s, token);
    if accounted.None? then None
    else if Holding(s, token) < accounted.value then Some(0)
    else Some(Min(Holding(s, token) - accounted.value, I128_MAX))
  }

  // ---------- project management ----------

  /** What `create_project` checks before it writes; `None` lets it go on. */
  function CreateGuard(s: Store, auth: set<Address>, owner: Address, id: Symbol, token: Address, cs: seq<Collaborator>): Option<Outcome> {
    if !Signed(s, auth, owner) then Some(Trap)
    else if id in s.projects then Some(Err(ProjectExists))
    else if !TokenAllowed(s.config, token) then Some(Err(TokenNotAllowed))
    else
      var invalid := Validate(cs, Cap(s.config));
      if invalid.Some? then Some(Err(invalid.value))
      else if s.projectCount >= U32_MAX then Some(Trap)
      else None
  }

  function CreateProject(s: Store, auth: set<Address>, owner: Address, id: Symbol, title: string,
                         projectType: string, token: Address, cs: seq<Collaborator>): (Store, Outcome) {
    var stop := CreateGuard(s, auth, owner, id, token, cs);
    if stop.Some? then (s, stop.value)
    else
      var count := s.projectCount + 1;
      (s.(projects := s.projects[id := SplitProject(id, title, projectType, token, owner, cs, false, 0, 0)],
          balances := s.balances[id := 0],
          projectCount := count,
          index := AppendByCount(Migrate(s.index), count, id)), Ok(Done))
  }

  /** The guard shared by the owner-gated calls; `None` lets the call go on. */
  function OwnerGuard(s: Store, auth: set<Address>, id: Symbol, owner: Address): Option<Outcome> {
    if id !in s.projects then Some(Err(NotFound))
    else if s.projects[id].owner != owner then Some(Err(Unauthorized))
    else if !Signed(s, auth, owner) then Some(Trap)
    else None
  }

  function UpdateCollaborators(s: Store, auth: set<Address>, id: Symbol, owner: Address, cs: seq<Collaborator>): (Store, Outcome) {
    var stop := OwnerGuard(s, auth, id, owner);
    if stop.Some? then (s, stop.value)
    else if s.projects[id].locked then (s, Err(ProjectLocked))
    else
      var invalid := Validate(cs, Cap(s.config));
      if invalid.Some? then (s, Err(invalid.value))
      else (SetProject(s, id, s.projects[id].(collaborators := cs)), Ok(Done))
  }

  function LockProject(s: Store, auth: set<Address>, id: Symbol, owner: Address): (Store, Outcome) {
    var stop := OwnerGuard(s, auth, id, owner);
    if stop.Some? then (s, stop.value)
    else if s.projects[id].locked then (s, Err(AlreadyLocked))
    else (SetProject(s, id, s.projects[id].(locked := true)), Ok(Done))
  }

  function UpdateMetadata(s: Store, auth: set<Address>, id: Symbol, owner: Address, title: string, projectType: string): (Store, Outcome) {
    var stop := OwnerGuard(s, auth, id, owner);
    if stop.Some? then (s, stop.value)
    else if s.projects[id].locked then (s, Err(ProjectLocked))
    else (SetProject(s, id, s.projects[id].(title := title, projectType := projectType)), Ok(Done))
  }

  function TransferOwnership(s: Store, auth: set<Address>, id: Symbol, owner: Address, newOwner: Address): (Store, Outcome) {
    var stop := OwnerGuard(s, auth, id, owner);
    if stop.Some? then (s, stop.value)
    else (SetProject(s, id, s.projects[id].(owner := newOwner)), Ok(Done))
  }

  // ---------- money ----------

  function Deposit(s: Store, auth: set<Address>, id: Symbol, from: Address, amount: int): (Store, Outcome) {
    if amount <= 0 then (s, Err(InvalidAmount))
    else if id !in s.projects then (s, Err(NotFound))
    else if !Signed(s, auth, from) then (s, Trap)
    else
      var token := s.projects[id].token;
      var moved := Transfer(s.bank, token, from, s.self, amount);
      if moved.None? || !FitsI128(Balance(s, id) + amount) then (s, Trap)
      else
        var s1 := s.(bank := moved.value, balances := s.balances[id := Balance(s, id) + amount]);
        var s2 := Adjust(s1, token, amount);
        if s2.None? then (s1, Err(ArithmeticOverflow))
        else (BumpEpoch(s2.value, id), Ok(Done))
  }

  /** One payment of a distribution: transfer, then the claimed ledger. `None` is a trap. */
  function PayOne(s: Store, id: Symbol, token: Address, to: Address, amount: int): Option<Store> {
    var moved := Transfer(s.bank, token, s.self, to, amount);
    var total := ClaimedBy(s.claimed, id, to) + amount;
    if moved.None? || !FitsI128(total) then None
    else Some(s.(bank := moved.value, claimed := s.claimed[(id, to) := total]))
  }

  /** The payment loop of `distribute` from collaborator `i` on; `None` is a trap. */
  function PayFrom(s: Store, id: Symbol, p: SplitProject, balance: int, i: nat, sent: int): Option<(Store, int)>
    requires i <= |p.collaborators|
    decreases |p.collaborators| - i
  {
    if i == |p.collaborators| then Some((s, sent))
    else
      var c := p.collaborators[i];
      var last := i == |p.collaborators| - 1;
      if !last && !FitsI128(balance * c.basisPoints) then None
      else
        var amount := if last then balance - sent else Portion(balance, c.basisPoints);
        if amount <= 0 then PayFrom(s, id, p, balance, i + 1, sent)
        else
          var paid := PayOne(s, id, p.token, c.address, amount);
          if paid.None? || !FitsI128(sent + amount) then None
          else PayFrom(paid.value, id, p, balance, i + 1, sent + amount)
  }

  function Distribute(s: Store, id: Symbol): (Store, Outcome) {
    if s.config.paused then (s, Err(DistributionsPaused))
    else if id !in s.projects then (s, Err(NotFound))
    else
      var p, balance := s.projects[id], Balance(s, id);
      if balance <= 0 || balance < |p.collaborators| then (s, Err(NoBalance))
      else if |p.collaborators| == 0 then (s, Trap)
      else
        var paid := PayFrom(s, id, p, balance, 0, 0);
        if paid.None? then (s, Trap)
        else Settle(paid.value.0, id, p, balance, paid.value.1)
  }

  /** The bookkeeping after the payment loop. */
  function Settle(s: Store, id: Symbol, p: SplitProject, balance: int, sent: int): (Store, Outcome) {
    var s1 := s.(balances := s.balances[id := balance - sent]);
    var s2 := Adjust(s1, p.token, -sent);
    if s2.None? then (s1, Err(ArithmeticOverflow))
    else if !FitsI128(p.totalDistributed + sent) || p.distributionRound + 1 > U32_MAX then (s, Trap)
    else (SetProject(BumpEpoch(s2.value, id), id,
                     p.(totalDistributed := p.totalDistributed + sent,
                        distributionRound := p.distributionRound + 1)), Ok(Done))
  }

  /** The loop of `batch_distribute` over the remaining IDs. */
  function BatchFrom(s: Store, ids: seq<Symbol>, rows: seq<BatchRow>): (Store, Outcome)
    decreases |ids|
  {
    if ids == [] then (s, Ok(Report(rows)))
    else if s.config.paused then (s, Trap)
    else
      var (s', r) := Distribute(s, ids[0]);
      match r
      case Ok(_) => BatchFrom(s', ids[1..], rows + [BatchRow(ids[0], None)])
      case Err(DistributionsPaused) => (s', r)
      case Err(e) => BatchFrom(s', ids[1..], rows + [BatchRow(ids[0], Some(e))])
      case Trap => (s, Trap)
  }

  function BatchDistribute(s: Store, ids: seq<Symbol>): (Store, Outcome) {
    if s.config.paused then (s, Err(DistributionsPaused)) else BatchFrom(s, ids, [])
  }

  /** Basis points of the first collaborator with this address. */
  function SharePoints(cs: seq<Collaborator>, who: Address): Option<nat> {
    if cs == [] then None
    else if cs[0].address == who then Some(cs[0].basisPoints)
    else SharePoints(cs[1..], who)
  }

  function Claim(s: Store, auth: set<Address>, id: Symbol, who: Address): (Store, Outcome) {
    if !Signed(s, auth, who) then (s, Trap)
    else if s.config.paused then (s, Err(DistributionsPaused))
    else if id !in s.projects then (s, Err(NotFound))
    else
      var bps := SharePoints(s.projects[id].collaborators, who);
      var key, balance := (id, who), Balance(s, id);
      if bps.None? then (s, Err(NotACollaborator))
      else if key in s.lastClaimEpoch && s.lastClaimEpoch[key] == Epoch(s, id) then (s, Err(AlreadyClaimed))
      else if balance <= 0 then (s, Ok(Amount(0)))
      else if !FitsI128(balance * bps.value) then (s, Trap)
      else
        var amount := Portion(balance, bps.value);
        if amount <= 0 then (s, Ok(Amount(0))) else PayClaim(s, id, who, amount)
  }

  /** The part of `claim` that moves the money. */
  function PayClaim(s: Store, id: Symbol, who: Address, amount: int): (Store, Outcome)
    requires id in s.projects
  {
    var p, key := s.projects[id], (id, who);
    var s1 := s.(balances := s.balances[id := Balance(s, id) - amount]);
    var s2 := Adjust(s1, p.token, -amount);
    if s2.None? then (s1, Err(ArithmeticOverflow))
    else
      var moved := Transfer(s.bank, p.token, s.self, who, amount);
      var total := ClaimedBy(s.claimed, id, who) + amount;
      if moved.None? || !FitsI128(total) || !FitsI128(p.totalDistributed + amount) then (s, Trap)
      else
        (s2.value.(projects := s.projects[id := p.(totalDistributed := p.totalDistributed + amount)],
                   claimed := s.claimed[key := total],
                   lastClaimAmount := s.lastClaimAmount[key := amount],
                   lastClaimEpoch := s.lastClaimEpoch[key := Epoch(s, id)],
                   bank := moved.value), Ok(Amount(amount)))
  }

  // ---------- administration ----------

  function AdminGuard(s: Store, auth: set<Address>, admin: Address): Option<Outcome> {
    if s.config.admin.None? then Some(Err(AdminNotSet))
    else if s.config.admin.value != admin then Some(Err(Unauthorized))
    else if !Signed(s, auth, admin) then Some(Trap)
    else None
  }

  function WithdrawUnallocated(s: Store, auth: set<Address>, admin: Address, token: Address, to: Address, amount: int): (Store, Outcome) {
    var stop := AdminGuard(s, auth, admin);
    if stop.Some? then (s, stop.value)
    else if amount <= 0 then (s, Err(InvalidAmount))
    else if to == s.self then (s, Err(InvalidRecipient))
    else
      var available := Unallocated(s, token);
      if available.None? then (s, Err(ArithmeticOverflow))
      else if amount > available.value then (s, Err(InsufficientUnallocated))
      else
        var moved := Transfer(s.bank, token, s.self, to, amount);
        if moved.None? then (s, Trap) else (s.(bank := moved.value), Ok(Done))
  }

  function MigrateFlatToBuckets(s: Store, auth: set<Address>, admin: Address): (Store, Outcome) {
    var stop := AdminGuard(s, auth, admin);
    if stop.Some? then (s, stop.value)
    else (s.(index := Migrate(s.index)), Ok(Done))
  }

  // ---------- settings ----------

  function Configure(s: Store, config: Config): (Store, Outcome) {
    (s.(config := config), Ok(Done))
  }

  /** The current admin signs, or the new one while there is none. */
  function SetAdmin(s: Store, auth: set<Address>, admin: Address): (Store, Outcome) {
    var signer := if s.config.admin.Some? then s.config.admin.value else admin;
    if !Signed(s, auth, signer) then (s, Trap) else Configure(s, s.config.(admin := Some(admin)))
  }

  /** `pause_distributions` and `unpause_distributions`. */
  function SetPaused(s: Store, auth: set<Address>, admin: Address, paused: bool): (Store, Outcome) {
    var stop := AdminGuard(s, auth, admin);
    if stop.Some? then (s, stop.value) else Configure(s, s.config.(paused := paused))
  }

  function SetMaxCollaborators(s: Store, auth: set<Address>, admin: Address, value: int): (Store, Outcome) {
    var stop := AdminGuard(s, auth, admin);
    if stop.Some? then (s, stop.value)
    else if value < MIN_MAX_COLLABORATORS || value > MAX_MAX_COLLABORATORS then (s, Err(InvalidMaxCollaborators))
    else Configure(s, s.config.(maxCollaborators := Some(value)))
  }

  /** The allowlist with `token` added; the count saturates. */
  function Allowing(config: Config, token: Address): Config {
    if token in config.allowedTokens then config
    else config.(allowedTokens := config.allowedTokens + {token},
                 allowedTokenList := config.allowedTokenList + [token],
                 allowedTokenCount := Min(config.allowedTokenCount + 1, U32_MAX))
  }

  function Without(list: seq<Address>, token: Address): seq<Address> {
    if list == [] then []
    else
      var init, last := list[..|list| - 1], list[|list| - 1];
      Without(init, token) + if last == token then [] else [last]
  }

  /** The allowlist with `token` removed; the count saturates at zero. */
  function Disallowing(config: Config, token: Address): Config {
    if token !in config.allowedTokens then config
    else config.(allowedTokens := config.allowedTokens - {token},
                 allowedTokenList := Without(config.allowedTokenList, token),
                 allowedTokenCount := if config.allowedTokenCount > 0 then config.allowedTokenCount - 1 else 0)
  }

  function AllowToken(s: Store, auth: set<Address>, admin: Address, token: Address): (Store, Outcome) {
    var stop := AdminGuard(s, auth, admin);
    if stop.Some? then (s, stop.value) else Configure(s, Allowing(s.config, token))
  }

  function DisallowToken(s: Store, auth: set<Address>, admin: Address, token: Address): (Store, Outcome) {
    var stop := AdminGuard(s, auth, admin);
    if stop.Some? then (s, stop.value) else Configure(s, Disallowing(s.config, token))
  }

  // ---------- calls and the host ----------

  datatype Call =
    | CallCreateProject(owner: Address, id: Symbol, title: string, projectType: string, token: Address, collaborators: seq<Collaborator>)
    | CallUpdateCollaborators(id: Symbol, owner: Address, collaborators: seq<Collaborator>)
    | CallLockProject(id: Symbol, owner: Address)
    | CallUpdateMetadata(id: Symbol, owner: Address, title: string, projectType: string)
    | CallTransferOwnership(id: Symbol, owner: Address, newOwner: Address)
    | CallDeposit(id: Symbol, from: Address, amount: int)
    | CallDistribute(id: Symbol)
    | CallBatchDistribute(ids: seq<Symbol>)
    | CallClaim(id: Symbol, claimer: Address)
    | CallWithdrawUnallocated(admin: Address, token: Address, to: Address, amount: int)
    | CallMigrateFlatToBuckets(admin: Address)
    | CallSetAdmin(newAdmin: Address)
    | CallSetPaused(admin: Address, paused: bool)
    | CallSetMaxCollaborators(admin: Address, value: int)
    | CallAllowToken(admin: Address, token: Address)
    | CallDisallowToken(admin: Address, token: Address)
      // Token movements made by others: they cannot take what the contract holds.
    | OutsideTransfers(bank: Bank)

  datatype Invocation = Invocation(call: Call, auth: set<Address>)

  ghost predicate OutsideOk(s: Store, bank: Bank) {
    BankOk(bank) && forall token :: Held(bank, token, s.self) >= Holding(s, token)
  }

  /** The calls that write nothing but the settings. */
  predicate ConfigCall(call: Call) {
    call.CallSetAdmin? || call.CallSetPaused? || call.CallSetMaxCollaborators? || call.CallAllowToken? || call.CallDisallowToken?
  }

  function ExecuteSetting(s: Store, inv: Invocation): (Store, Outcome)
    requires ConfigCall(inv.call)
  {
    match inv.call
    case CallSetAdmin(admin) => SetAdmin(s, inv.auth, admin)
    case CallSetPaused(admin, paused) => SetPaused(s, inv.auth, admin, paused)
    case CallSetMaxCollaborators(admin, value) => SetMaxCollaborators(s, inv.auth, admin, value)
    case CallAllowToken(admin, token) => AllowToken(s, inv.auth, admin, token)
    case CallDisallowToken(admin, token) => DisallowToken(s, inv.auth, admin, token)
  }

  ghost function Execute(s: Store, inv: Invocation): (Store, Outcome) {
    match inv.call
    case CallCreateProject(owner, id, title, kind, token, cs) => CreateProject(s, inv.auth, owner, id, title, kind, token, cs)
    case CallUpdateCollaborators(id, owner, cs) => UpdateCollaborators(s, inv.auth, id, owner, cs)
    case CallLockProject(id, owner) => LockProject(s, inv.auth, id, owner)
    case CallUpdateMetadata(id, owner, title, kind) => UpdateMetadata(s, inv.auth, id, owner, title, kind)
    case CallTransferOwnership(id, owner, newOwner) => TransferOwnership(s, inv.auth, id, owner, newOwner)
    case CallDeposit(id, from, amount) => Deposit(s, inv.auth, id, from, amount)
    case CallDistribute(id) => Distribute(s, id)
    case CallBatchDistribute(ids) => BatchDistribute(s, ids)
    case CallClaim(id, claimer) => Claim(s, inv.auth, id, claimer)
    case CallWithdrawUnallocated(admin, token, to, amount) => WithdrawUnallocated(s, inv.auth, admin, token, to, amount)
    case CallMigrateFlatToBuckets(admin) => MigrateFlatToBuckets(s, inv.auth, admin)
    case CallSetAdmin(_) => ExecuteSetting(s, inv)
    case CallSetPaused(_, _) => ExecuteSetting(s, inv)
    case CallSetMaxCollaborators(_, _) => ExecuteSetting(s, inv)
    case CallAllowToken(_, _) => ExecuteSetting(s, inv)
    case CallDisallowToken(_, _) => ExecuteSetting(s, inv)
    case OutsideTransfers(bank) => if OutsideOk(s, bank) then (s.(bank := bank), Ok(Done)) else (s, Trap)
  }

  /** The host commits a successful call and rolls every other one back. */
  ghost function Step(s: Store, inv: Invocation): (Store, Outcome) {
    var (s', r) := Execute(s, inv);
    if r.Ok? then (s', r) else (s, r)
  }

  ghost function Run(s: Store, run: seq<Invocation>): Store {
    if run == [] then s else Step(Run(s, run[..|run| - 1]), run[|run| - 1]).0
  }
}
