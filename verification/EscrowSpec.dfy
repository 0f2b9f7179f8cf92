/**
 * Each step as one atomic transition: `CanX` says when it succeeds, `DoX` what the chain is afterwards.
 * A step that does not succeed changes nothing, because the runtime rolls a failed transaction back.
 */
module EscrowSpec {
  import opened Limits
  import opened Options
  import opened EscrowModel

  predicate Active(w: World) {
    w.config.Some? && !w.config.value.paused
  }

  // ---- Configuration and providers ----

  predicate CanInitializeConfig(w: World, s: Step) requires s.InitializeConfig? {
    && w.config.None?
    && 0 < s.minBond <= U64_MAX && 0 < s.challengeDuration <= I64_MAX
    && s.mint != 0 && s.genesis != 0
    && ConfigAddress !in w.prefunded
  }

  function DoInitializeConfig(w: World, s: Step): World requires s.InitializeConfig? {
    w.(config := Some(Config(s.admin, false, s.genesis, s.mint, s.minBond, s.challengeDuration)))
  }

  predicate CanSetPaused(w: World, s: Step) requires s.SetPaused? {
    w.config.Some? && s.admin == w.config.value.admin
  }

  function DoSetPaused(w: World, s: Step): World requires s.SetPaused? && CanSetPaused(w, s) {
    w.(config := Some(w.config.value.(paused := s.paused)))
  }

  /** MAX_EXECUTION_KEYS */
  const MAX_KEYS: nat := 4

  predicate CanAddKey(w: World, s: Step) requires s.AddExecutionKey? {
    && s.key != 0 && s.authority in w.providers
    && s.key !in w.providers[s.authority] && |w.providers[s.authority]| < MAX_KEYS
  }

  predicate CanRevokeKey(w: World, s: Step) requires s.RevokeExecutionKey? {
    s.authority in w.providers && s.key in w.providers[s.authority]
  }

  // ---- Bonds ----

  function DepositTarget(w: World, s: Step): BondId requires s.DepositBond? && w.config.Some? {
    BondId(s.authority, w.config.value.mint)
  }

  function BondBefore(w: World, b: BondId): Bond {
    if b in w.bonds then w.bonds[b] else Bond(0, 0)
  }

  function BondFlowBefore(w: World, b: BondId): BondFlow {
    if b in w.bondFlows then w.bondFlows[b] else BondFlow(0, 0, 0, Balance(w.tokens, Vault(b)))
  }

  predicate CanDeposit(w: World, s: Step) requires s.DepositBond? {
    && 0 < s.amount <= U64_MAX && Active(w) && s.authority in w.providers
    && var b := DepositTarget(w, s);
    && (b in w.bonds || BondAddress(b) !in w.prefunded)
    && BondBefore(w, b).Loads()
    && CanMove(w.tokens, Wallet(s.authority, b.mint, s.wallet), Vault(b), s.amount)
    && BondBefore(w, b).deposited + s.amount <= U64_MAX
  }

  function DoDeposit(w: World, s: Step): World requires s.DepositBond? && CanDeposit(w, s) {
    var b := DepositTarget(w, s);
    var bond, flow := BondBefore(w, b), BondFlowBefore(w, b);
    w.(bonds := w.bonds[b := bond.(deposited := bond.deposited + s.amount)],
       tokens := Move(w.tokens, Wallet(s.authority, b.mint, s.wallet), Vault(b), s.amount),
       bondFlows := w.bondFlows[b := flow.(deposits := flow.deposits + s.amount)])
  }

  predicate CanWithdraw(w: World, s: Step) requires s.WithdrawBond? {
    && 0 < s.amount <= U64_MAX
    && s.bond in w.bonds && w.bonds[s.bond].Loads() && s.bond.provider == s.authority
    && s.amount <= w.bonds[s.bond].deposited - w.bonds[s.bond].locked
    && CanMove(w.tokens, Vault(s.bond), Wallet(s.authority, s.bond.mint, s.wallet), s.amount)
  }

  function DoWithdraw(w: World, s: Step): World requires s.WithdrawBond? && CanWithdraw(w, s) {
    var bond, flow := w.bonds[s.bond], BondFlowBefore(w, s.bond);
    w.(bonds := w.bonds[s.bond := bond.(deposited := bond.deposited - s.amount)],
       tokens := Move(w.tokens, Vault(s.bond), Wallet(s.authority, s.bond.mint, s.wallet), s.amount),
       bondFlows := w.bondFlows[s.bond := flow.(withdrawals := flow.withdrawals + s.amount)])
  }

  // ---- Job life cycle ----

  predicate CanCreate(w: World, s: Step) requires s.CreateJob? {
    && Active(w)
    && 0 < s.amount <= U64_MAX && s.requestHash != 0
    && w.clock < s.fundDeadline < s.acceptDeadline < s.workDeadline < s.autoSettleDeadline <= I64_MAX
    && s.id.provider in w.providers
    && s.id !in w.jobs && JobAddress(s.id) !in w.prefunded
  }

  function DoCreate(w: World, s: Step): World requires s.CreateJob? && CanCreate(w, s) {
    var job := Job(Created, w.config.value.mint, s.amount,
                   s.fundDeadline, s.acceptDeadline, s.workDeadline, s.autoSettleDeadline,
                   s.requestHash, None, 0);
    w.(jobs := w.jobs[s.id := job],
       flows := w.flows[s.id := Flow(Balance(w.tokens, EscrowOf(s.id, job)), 0, 0, 0, 0, 0, 0)])
  }

  function FlowOf(w: World, id: JobId): Flow {
    if id in w.flows then w.flows[id] else Flow(0, 0, 0, 0, 0, 0, 0)
  }

  predicate CanFund(w: World, s: Step) requires s.FundJob? {
    && Active(w)
    && s.id in w.jobs && s.id.buyer == s.buyer
    && var j := w.jobs[s.id];
    && j.state.Created? && w.clock < j.fundDeadline && j.mint == w.config.value.mint
    && EscrowOf(s.id, j) in w.tokens && w.tokens[EscrowOf(s.id, j)] == 0
    && CanMove(w.tokens, Wallet(s.buyer, j.mint, s.wallet), EscrowOf(s.id, j), j.amount)
  }

  function DoFund(w: World, s: Step): World requires s.FundJob? && CanFund(w, s) {
    var j, flow := w.jobs[s.id], FlowOf(w, s.id);
    w.(jobs := w.jobs[s.id := j.(state := Funded)],
       tokens := Move(w.tokens, Wallet(s.buyer, j.mint, s.wallet), EscrowOf(s.id, j), j.amount),
       flows := w.flows[s.id := flow.(funded := flow.funded + j.amount)])
  }

  predicate CanAccept(w: World, s: Step) requires s.AcceptJob? {
    && Active(w)
    && s.id in w.jobs && s.id.provider == s.authority && s.authority in w.providers
    && var j := w.jobs[s.id];
    && j.state.Funded? && w.clock < j.acceptDeadline
    && s.bond == BondOf(s.id, j) && s.bond in w.bonds
    && w.bonds[s.bond].Loads()
    && w.bonds[s.bond].locked + w.config.value.minBond <= w.bonds[s.bond].deposited
    && w.bonds[s.bond].locked + w.config.value.minBond <= U64_MAX
  }

  function DoAccept(w: World, s: Step): World requires s.AcceptJob? && CanAccept(w, s) {
    var j, bond, share := w.jobs[s.id], w.bonds[s.bond], w.config.value.minBond;
    w.(jobs := w.jobs[s.id := j.(state := Accepted, lockedBond := share)],
       bonds := w.bonds[s.bond := bond.(locked := bond.locked + share)])
  }

  /** The receipt names this chain, this program and every identifying field of this job. */
  predicate BoundTo(r: Receipt, id: JobId, j: Job, genesis: Key) {
    && r.program == PROGRAM_ID && r.genesis == genesis
    && r.job == id && r.buyer == id.buyer && r.provider == id.provider && r.nonce == id.nonce
    && r.requestHash == j.requestHash
    && r.createdAt <= r.expiresAt
  }

  predicate CanSubmit(w: World, s: Step) requires s.SubmitReceipt? {
    && w.config.Some? && s.id in w.jobs && s.id.provider in w.providers
    && var j := w.jobs[s.id];
    && j.state.Accepted? && w.clock <= j.workDeadline
    && s.receipt.createdAt <= w.clock <= s.receipt.expiresAt
    && BoundTo(s.receipt, s.id, j, w.config.value.genesis)
    && s.signer in w.providers[s.id.provider]
  }

  function DoSubmit(w: World, s: Step): World requires s.SubmitReceipt? && CanSubmit(w, s) {
    w.(jobs := w.jobs[s.id := w.jobs[s.id].(state := Submitted, receipt := Some(s.receipt))])
  }

  predicate CanChallenge(w: World, s: Step) requires s.ChallengeWork? {
    && w.config.Some? && s.id in w.jobs && s.id.buyer == s.buyer
    && w.jobs[s.id].state.Submitted? && w.clock < w.jobs[s.id].autoSettleDeadline
    && s.id !in w.challenges && ChallengeAddress(s.id) !in w.prefunded
    && w.clock + w.config.value.challengeDuration <= I64_MAX
  }

  function DoChallenge(w: World, s: Step): World requires s.ChallengeWork? && CanChallenge(w, s) {
    w.(jobs := w.jobs[s.id := w.jobs[s.id].(state := Challenged)],
       challenges := w.challenges[s.id :=
         Challenge(s.id.buyer, true, s.reasonHash, w.clock + w.config.value.challengeDuration)])
  }

  // ---- Exits: release or burn exactly this job's share, and pay the principal once ----

  predicate Unlockable(j: Job, bond: Bond) {
    j.lockedBond <= bond.locked
  }

  function Unlocked(j: Job, bond: Bond): Bond requires Unlockable(j, bond) {
    bond.(locked := bond.locked - j.lockedBond)
  }

  /** Surplus to the buyer, principal to the provider, both token accounts usable. */
  predicate CanPayProvider(t: Ledger, id: JobId, j: Job) {
    var e, bw, pw := EscrowOf(id, j), BuyerWallet(id, j), ProviderWallet(id, j);
    && e in t && bw in t && pw in t && j.amount <= t[e]
    && (t[e] > j.amount ==> CanMove(t, e, bw, t[e] - j.amount))
    && CanMove(Move(t, e, bw, t[e] - j.amount), e, pw, j.amount)
  }

  function PayProvider(t: Ledger, id: JobId, j: Job): Ledger requires CanPayProvider(t, id, j) {
    var e := EscrowOf(id, j);
    Move(Move(t, e, BuyerWallet(id, j), t[e] - j.amount), e, ProviderWallet(id, j), j.amount)
  }

  predicate CanPayBuyer(t: Ledger, id: JobId, j: Job) {
    && EscrowOf(id, j) in t && j.amount <= t[EscrowOf(id, j)]
    && CanMove(t, EscrowOf(id, j), BuyerWallet(id, j), t[EscrowOf(id, j)])
  }

  function PayBuyer(t: Ledger, id: JobId, j: Job): Ledger requires CanPayBuyer(t, id, j) {
    Move(t, EscrowOf(id, j), BuyerWallet(id, j), t[EscrowOf(id, j)])
  }

  /** What buyer acceptance and timeout settlement share. */
  predicate CanSettle(w: World, id: JobId, b: BondId) {
    && id in w.jobs
    && var j := w.jobs[id];
    && CanPayProvider(w.tokens, id, j)
    && b == BondOf(id, j) && b in w.bonds && w.bonds[b].Loads() && Unlockable(j, w.bonds[b])
  }

  function Settle(w: World, id: JobId, b: BondId): World requires CanSettle(w, id, b) {
    var j, flow := w.jobs[id], FlowOf(w, id);
    w.(jobs := w.jobs[id := j.(state := Settled, lockedBond := 0)],
       bonds := w.bonds[b := Unlocked(j, w.bonds[b])],
       tokens := PayProvider(w.tokens, id, j),
       flows := w.flows[id := flow.(
         toProvider := flow.toProvider + j.amount,
         surplus := flow.surplus + (w.tokens[EscrowOf(id, j)] - j.amount))])
  }

  predicate CanAcceptWork(w: World, s: Step) requires s.AcceptWork? {
    && CanSettle(w, s.id, s.bond)
    && s.id.buyer == s.buyer && w.jobs[s.id].state.Submitted?
  }

  predicate ChallengeExpired(w: World, id: JobId) {
    && id in w.challenges && w.challenges[id].open
    && w.challenges[id].deadline <= w.clock && w.challenges[id].buyer == id.buyer
  }

  predicate CanTimeoutSettle(w: World, s: Step) requires s.ResolveTimeoutSettle? {
    && CanSettle(w, s.id, s.bond)
    && var j := w.jobs[s.id];
    || (j.state.Submitted? && j.autoSettleDeadline <= w.clock)
    || (j.state.Challenged? && s.challenge == Some(s.id) && ChallengeExpired(w, s.id))
  }

  function DoTimeoutSettle(w: World, s: Step): World requires s.ResolveTimeoutSettle? && CanTimeoutSettle(w, s) {
    var settled := Settle(w, s.id, s.bond);
    if w.jobs[s.id].state.Challenged? then settled.(challenges := w.challenges - {s.id}) else settled
  }

  /** The bond account matters only while a share is locked. */
  predicate RefundBondOk(w: World, id: JobId, bondAccount: Option<BondId>) requires id in w.jobs {
    var j := w.jobs[id];
    if bondAccount.Some? && bondAccount.value in w.bonds then
      && w.bonds[bondAccount.value].Loads()
      && if bondAccount.value == BondOf(id, j) then Unlockable(j, w.bonds[bondAccount.value])
         else j.lockedBond == 0
    else j.lockedBond == 0
  }

  predicate CanRefund(w: World, s: Step) requires s.ResolveRefund? {
    && s.id in w.jobs
    && var j := w.jobs[s.id];
    && ( || (j.state.Funded? && j.acceptDeadline <= w.clock)
         || (j.state.Accepted? && !s.fundedOnly && j.workDeadline < w.clock))
    && CanPayBuyer(w.tokens, s.id, j)
    && RefundBondOk(w, s.id, s.bondAccount)
  }

  function DoRefund(w: World, s: Step): World requires s.ResolveRefund? && CanRefund(w, s) {
    var id, j, flow := s.id, w.jobs[s.id], FlowOf(w, s.id);
    var b := BondOf(id, j);
    w.(jobs := w.jobs[id := j.(state := Refunded, lockedBond := 0)],
       bonds := if s.bondAccount == Some(b) && b in w.bonds
                then w.bonds[b := Unlocked(j, w.bonds[b])] else w.bonds,
       tokens := PayBuyer(w.tokens, id, j),
       flows := w.flows[id := flow.(
         toBuyer := flow.toBuyer + j.amount,
         surplus := flow.surplus + (w.tokens[EscrowOf(id, j)] - j.amount))])
  }

  predicate CanExpire(w: World, s: Step) requires s.ExpireUnfunded? {
    s.id in w.jobs && w.jobs[s.id].state.Created? && w.jobs[s.id].fundDeadline <= w.clock
  }

  function DoExpire(w: World, s: Step): World requires s.ExpireUnfunded? && CanExpire(w, s) {
    w.(jobs := w.jobs[s.id := w.jobs[s.id].(state := Expired)])
  }

  /** Principal and surplus back to the buyer, then the locked share out of the vault. */
  predicate CanPaySlash(t: Ledger, id: JobId, j: Job, b: BondId) {
    && CanPayBuyer(t, id, j)
    && CanMove(PayBuyer(t, id, j), Vault(b), BuyerWallet(id, j), j.lockedBond)
  }

  function PaySlash(t: Ledger, id: JobId, j: Job, b: BondId): Ledger requires CanPaySlash(t, id, j, b) {
    Move(PayBuyer(t, id, j), Vault(b), BuyerWallet(id, j), j.lockedBond)
  }

  /** The payments and the bond books of a slash. */
  predicate CanBurn(w: World, id: JobId, b: BondId) {
    && id in w.jobs
    && var j := w.jobs[id];
    && b == BondOf(id, j) && b in w.bonds && w.bonds[b].Loads()
    && 0 < j.lockedBond <= w.bonds[b].locked
    && CanPaySlash(w.tokens, id, j, b)
  }

  function Slash(w: World, id: JobId, b: BondId): World requires CanBurn(w, id, b) {
    var j, bond, flow, bf := w.jobs[id], w.bonds[b], FlowOf(w, id), BondFlowBefore(w, b);
    w.(jobs := w.jobs[id := j.(state := Slashed, lockedBond := 0)],
       bonds := w.bonds[b := Bond(bond.deposited - j.lockedBond, bond.locked - j.lockedBond)],
       challenges := w.challenges - {id},
       tokens := PaySlash(w.tokens, id, j, b),
       flows := w.flows[id := flow.(
         toBuyer := flow.toBuyer + j.amount,
         surplus := flow.surplus + (w.tokens[EscrowOf(id, j)] - j.amount),
         slashed := flow.slashed + j.lockedBond)],
       bondFlows := w.bondFlows[b := bf.(slashes := bf.slashes + j.lockedBond)])
  }

  predicate CanSlash(w: World, s: Step) requires s.SlashBond? {
    && w.config.Some? && s.admin == w.config.value.admin
    && CanBurn(w, s.id, s.bond)
    && w.jobs[s.id].state.Challenged?
    && s.id in w.challenges && w.challenges[s.id].open && w.clock < w.challenges[s.id].deadline
  }

  /** The escrow account is optional; when an existing one is named it must be this job's and empty. */
  predicate CanClose(w: World, s: Step) requires s.CloseJob? {
    && s.id in w.jobs && s.id.buyer == s.buyer && w.jobs[s.id].state.Terminal()
    && (s.escrow.Some? && s.escrow.value in w.tokens ==>
          s.escrow.value.Escrow? && s.escrow.value.job == s.id && w.tokens[s.escrow.value] == 0)
  }

  function DoClose(w: World, s: Step): World requires s.CloseJob? && CanClose(w, s) {
    w.(jobs := w.jobs - {s.id},
       flows := w.flows - {s.id},
       tokens := if s.escrow.Some? then w.tokens - {s.escrow.value} else w.tokens)
  }

  // ---- Outside events ----

  /** Whether the program's account at an address exists. */
  predicate Exists(w: World, a: Address) {
    match a
    case ConfigAddress => w.config.Some?
    case ProviderAddress(k) => k in w.providers
    case BondAddress(b) => b in w.bonds
    case JobAddress(id) => id in w.jobs
    case ChallengeAddress(id) => id in w.challenges
  }

  predicate CanUserTransfer(w: World, s: Step) requires s.UserTransfer? {
    s.from.Wallet? && CanMove(w.tokens, s.from, s.to, s.amount)
  }

  /** The world after tokens from outside reached an account, with the histories they belong to. */
  function Gifted(w: World, tokens: Ledger, to: TokenAccount, amount: nat): World {
    w.(tokens := tokens,
       flows := if to.Escrow? && to.job in w.flows && to.job in w.jobs && to == EscrowOf(to.job, w.jobs[to.job])
                then w.flows[to.job := w.flows[to.job].(donated := w.flows[to.job].donated + amount)]
                else w.flows,
       bondFlows := if to.Vault? && to.bond in w.bondFlows
                    then w.bondFlows[to.bond := w.bondFlows[to.bond].(donated := w.bondFlows[to.bond].donated + amount)]
                    else w.bondFlows)
  }

  function DoUserTransfer(w: World, s: Step): World requires s.UserTransfer? && CanUserTransfer(w, s) {
    Gifted(w, Move(w.tokens, s.from, s.to, s.amount), s.to, s.amount)
  }

  /** The supply a mint account records. */
  function Issued(w: World, m: Key): nat {
    if m in w.issued then w.issued[m] else 0
  }

  /** A mint authority may issue tokens to any account, as long as supply and balance fit 64 bits. */
  predicate CanMint(w: World, s: Step) requires s.MintTokens? {
    && s.to in w.tokens && Issued(w, s.to.Mint()) + s.amount <= U64_MAX && w.tokens[s.to] + s.amount <= U64_MAX
  }

  function DoMint(w: World, s: Step): World requires s.MintTokens? && CanMint(w, s) {
    Gifted(w, w.tokens[s.to := w.tokens[s.to] + s.amount], s.to, s.amount)
      .(issued := w.issued[s.to.Mint() := Issued(w, s.to.Mint()) + s.amount])
  }

  /** Holders may destroy tokens of their own. */
  predicate CanBurnTokens(w: World, s: Step) requires s.BurnTokens? {
    && s.from.Wallet? && s.from in w.tokens && s.amount <= w.tokens[s.from] && s.amount <= Issued(w, s.from.Mint())
  }

  function DoBurnTokens(w: World, s: Step): World requires s.BurnTokens? && CanBurnTokens(w, s) {
    w.(tokens := w.tokens[s.from := w.tokens[s.from] - s.amount],
       issued := w.issued[s.from.Mint() := Issued(w, s.from.Mint()) - s.amount])
  }

  // ---- The transition function ----

  /** Instructions that move an existing job forward without paying out. */
  predicate Advances(s: Step) {
    s.FundJob? || s.AcceptJob? || s.SubmitReceipt? || s.ChallengeWork? || s.ExpireUnfunded?
  }

  /** Instructions that pay the escrow out. */
  predicate Pays(s: Step) {
    s.AcceptWork? || s.ResolveTimeoutSettle? || s.ResolveRefund? || s.SlashBond?
  }

  predicate Succeeds(w: World, s: Step) {
    match s
    case InitializeConfig(_, _, _, _, _) => CanInitializeConfig(w, s)
    case SetPaused(_, _) => CanSetPaused(w, s)
    case RegisterProvider(a) => Active(w) && a !in w.providers && ProviderAddress(a) !in w.prefunded
    case AddExecutionKey(_, _) => CanAddKey(w, s)
    case RevokeExecutionKey(_, _) => CanRevokeKey(w, s)
    case DepositBond(_, _, _) => CanDeposit(w, s)
    case WithdrawBond(_, _, _, _) => CanWithdraw(w, s)
    case CreateJob(_, _, _, _, _, _, _) => CanCreate(w, s)
    case FundJob(_, _, _) => CanFund(w, s)
    case AcceptJob(_, _, _) => CanAccept(w, s)
    case SubmitReceipt(_, _, _) => CanSubmit(w, s)
    case AcceptWork(_, _, _) => CanAcceptWork(w, s)
    case ChallengeWork(_, _, _) => CanChallenge(w, s)
    case ResolveTimeoutSettle(_, _, _) => CanTimeoutSettle(w, s)
    case ResolveRefund(_, _, _) => CanRefund(w, s)
    case ExpireUnfunded(_) => CanExpire(w, s)
    case SlashBond(_, _, _) => CanSlash(w, s)
    case CloseJob(_, _, _) => CanClose(w, s)
    case AdvanceClock(to) => w.clock <= to <= I64_MAX
    case OpenTokenAccount(a) => a !in w.tokens
    case CloseWallet(a) => a.Wallet? && a in w.tokens && w.tokens[a] == 0
    case SendLamports(_) => true
    case MintTokens(_, _) => CanMint(w, s)
    case BurnTokens(_, _) => CanBurnTokens(w, s)
    case UserTransfer(_, _, _) => CanUserTransfer(w, s)
  }

  function After(w: World, s: Step): World requires Succeeds(w, s) {
    match s
    case InitializeConfig(_, _, _, _, _) => DoInitializeConfig(w, s)
    case SetPaused(_, _) => DoSetPaused(w, s)
    case RegisterProvider(a) => w.(providers := w.providers[a := {}])
    case AddExecutionKey(a, k) => w.(providers := w.providers[a := w.providers[a] + {k}])
    case RevokeExecutionKey(a, k) => w.(providers := w.providers[a := w.providers[a] - {k}])
    case DepositBond(_, _, _) => DoDeposit(w, s)
    case WithdrawBond(_, _, _, _) => DoWithdraw(w, s)
    case CreateJob(_, _, _, _, _, _, _) => DoCreate(w, s)
    case FundJob(_, _, _) => DoFund(w, s)
    case AcceptJob(_, _, _) => DoAccept(w, s)
    case SubmitReceipt(_, _, _) => DoSubmit(w, s)
    case AcceptWork(_, _, _) => Settle(w, s.id, s.bond)
    case ChallengeWork(_, _, _) => DoChallenge(w, s)
    case ResolveTimeoutSettle(_, _, _) => DoTimeoutSettle(w, s)
    case ResolveRefund(_, _, _) => DoRefund(w, s)
    case ExpireUnfunded(_) => DoExpire(w, s)
    case SlashBond(_, id, b) => Slash(w, id, b)
    case CloseJob(_, _, _) => DoClose(w, s)
    case AdvanceClock(to) => w.(clock := to)
    case OpenTokenAccount(a) => w.(tokens := w.tokens[a := 0])
    case CloseWallet(a) => w.(tokens := w.tokens - {a})
    case SendLamports(a) => w.(prefunded := if Exists(w, a) then w.prefunded else w.prefunded + {a})
    case MintTokens(_, _) => DoMint(w, s)
    case BurnTokens(_, _) => DoBurnTokens(w, s)
    case UserTransfer(_, _, _) => DoUserTransfer(w, s)
  }

  /** One step of the chain; a refused step leaves it as it was. */
  function Apply(w: World, s: Step): World {
    if Succeeds(w, s) then After(w, s) else w
  }

  function Run(w: World, steps: seq<Step>): World {
    if steps == [] then w else Apply(Run(w, steps[..|steps| - 1]), steps[|steps| - 1])
  }
}
