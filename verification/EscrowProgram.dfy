/**
 * The on-chain program as it works: accounts are loaded, tokens move, accounts are closed and saved one after
 * the other, and a check that fails late leaves changes behind. `Execute` is the runtime, which rolls those
 * back. Each processor is proved against its atomic transition in `EscrowSpec`.
 */
module EscrowProgram {
  import opened Limits
  import opened Options
  import opened EscrowModel
  import opened EscrowSpec

  class Program {
    var clock: int
    var config: Option<Config>
    var providers: map<Key, set<Key>>
    var bonds: map<BondId, Bond>
    var jobs: map<JobId, Job>
    var challenges: map<JobId, Challenge>
    var tokens: Ledger
    var prefunded: set<Address>
    var issued: map<Key, nat>
    ghost var flows: map<JobId, Flow>
    ghost var bondFlows: map<BondId, BondFlow>

    ghost function View(): World
      reads this
    {
      World(clock, config, providers, bonds, jobs, challenges, tokens, prefunded, issued, flows, bondFlows)
    }

    constructor (now: int, wallets: Ledger, sent: set<Address>, supplies: map<Key, nat>)
      ensures View() == World(now, None, map[], map[], map[], map[], wallets, sent, supplies, map[], map[])
    {
      clock, config, providers, bonds, jobs := now, None, map[], map[], map[];
      challenges, tokens, prefunded, issued, flows, bondFlows := map[], wallets, sent, supplies, map[], map[];
    }

    // ---- Helpers shared by the processors ----

    method TransferChecked(from: TokenAccount, to: TokenAccount, amount: nat) returns (ok: bool)
      modifies `tokens
      ensures ok == CanMove(old(tokens), from, to, amount)
      ensures ok ==> tokens == Move(old(tokens), from, to, amount)
      ensures !ok ==> tokens == old(tokens)
    {
      if from !in tokens || to !in tokens || from.Mint() != to.Mint() || tokens[from] < amount {
        return false;
      }
      if from != to && tokens[to] + amount > U64_MAX {
        return false;
      }
      tokens := tokens[from := tokens[from] - amount];
      tokens := tokens[to := tokens[to] + amount];
      return true;
    }

    static method TransitionJob(job: Job, to: JobState) returns (ok: bool, job': Job)
      ensures ok == ValidTransition(job.state, to)
      ensures job' == if ok then job.(state := to) else job
    {
      if !ValidTransition(job.state, to) {
        return false, job;
      }
      return true, job.(state := to);
    }

    static method UnlockJobBond(job: Job, bond: Bond) returns (ok: bool, job': Job, bond': Bond)
      ensures ok == Unlockable(job, bond)
      ensures ok ==> job' == job.(lockedBond := 0) && bond' == Unlocked(job, bond)
    {
      if job.lockedBond == 0 {
        return true, job, bond;
      }
      if bond.locked < job.lockedBond {
        return false, job, bond;
      }
      return true, job.(lockedBond := 0), bond.(locked := bond.locked - job.lockedBond);
    }

    /** Keeps the principal in the escrow and sends everything above it to the buyer. */
    method ReturnSurplusToBuyer(id: JobId, job: Job) returns (ok: bool)
      modifies `tokens, `flows
      ensures ok == (&& EscrowOf(id, job) in old(tokens)
                     && job.amount <= old(tokens)[EscrowOf(id, job)]
                     && (old(tokens)[EscrowOf(id, job)] > job.amount ==>
                           CanMove(old(tokens), EscrowOf(id, job), BuyerWallet(id, job),
                                   old(tokens)[EscrowOf(id, job)] - job.amount)))
      ensures ok && BuyerWallet(id, job) in old(tokens) ==>
                tokens == Move(old(tokens), EscrowOf(id, job), BuyerWallet(id, job),
                               old(tokens)[EscrowOf(id, job)] - job.amount)
      ensures ok ==> flows == old(flows)[id := FlowOf(old(View()), id).(
                surplus := FlowOf(old(View()), id).surplus + (old(tokens)[EscrowOf(id, job)] - job.amount))]
    {
      var escrow := EscrowOf(id, job);
      if escrow !in tokens || tokens[escrow] < job.amount {
        return false;
      }
      var surplus := tokens[escrow] - job.amount;
      ghost var flow := FlowOf(View(), id);
      if surplus > 0 {
        ok := TransferChecked(escrow, BuyerWallet(id, job), surplus);
        if !ok {
          return false;
        }
      }
      flows := flows[id := flow.(surplus := flow.surplus + surplus)];
      return true;
    }

    /** The escrow's whole balance goes to the buyer, principal and surplus in one transfer. */
    method RefundPrincipalToBuyer(id: JobId, job: Job) returns (ok: bool)
      modifies `tokens, `flows
      ensures ok == CanPayBuyer(old(tokens), id, job)
      ensures ok ==> tokens == PayBuyer(old(tokens), id, job)
      ensures ok ==> flows == old(flows)[id := FlowOf(old(View()), id).(
                toBuyer := FlowOf(old(View()), id).toBuyer + job.amount,
                surplus := FlowOf(old(View()), id).surplus + (old(tokens)[EscrowOf(id, job)] - job.amount))]
    {
      var escrow := EscrowOf(id, job);
      if escrow !in tokens || BuyerWallet(id, job) !in tokens || tokens[escrow] < job.amount {
        return false;
      }
      var balance := tokens[escrow];
      ghost var flow := FlowOf(View(), id);
      ok := TransferChecked(escrow, BuyerWallet(id, job), balance);
      if !ok {
        return false;
      }
      flows := flows[id := flow.(toBuyer := flow.toBuyer + job.amount, surplus := flow.surplus + (balance - job.amount))];
      return true;
    }

    // ---- Bonds ----

    method DepositBond(s: Step) returns (ok: bool)
      requires s.DepositBond?
      modifies this
      ensures ok == CanDeposit(old(View()), s)
      ensures ok ==> View() == DoDeposit(old(View()), s)
    {
      if s.amount == 0 || s.amount > U64_MAX || config.None? || config.value.paused || s.authority !in providers {
        return false;
      }
      var id := BondId(s.authority, config.value.mint);
      ghost var flow := BondFlowBefore(View(), id);
      var bond;
      if id !in bonds {
        if BondAddress(id) in prefunded {
          return false;
        }
        bond := Bond(0, 0);
      } else {
        bond := bonds[id];
        if bond.locked > bond.deposited {
          return false;
        }
      }
      ok := TransferChecked(Wallet(s.authority, id.mint, s.wallet), Vault(id), s.amount);
      if !ok || bond.deposited + s.amount > U64_MAX {
        return false;
      }
      bond := bond.(deposited := bond.deposited + s.amount);
      bonds := bonds[id := bond];
      bondFlows := bondFlows[id := flow.(deposits := flow.deposits + s.amount)];
      return true;
    }

    method WithdrawBond(s: Step) returns (ok: bool)
      requires s.WithdrawBond?
      modifies this
      ensures ok == CanWithdraw(old(View()), s)
      ensures ok ==> View() == DoWithdraw(old(View()), s)
    {
      if s.amount == 0 || s.amount > U64_MAX || s.bond !in bonds || bonds[s.bond].locked > bonds[s.bond].deposited {
        return false;
      }
      var bond := bonds[s.bond];
      ghost var flow := BondFlowBefore(View(), s.bond);
      if s.bond.provider != s.authority || s.amount > bond.deposited - bond.locked {
        return false;
      }
      ok := TransferChecked(Vault(s.bond), Wallet(s.authority, s.bond.mint, s.wallet), s.amount);
      if !ok {
        return false;
      }
      bond := bond.(deposited := bond.deposited - s.amount);
      if bond.locked > bond.deposited {
        return false;
      }
      bonds := bonds[s.bond := bond];
      bondFlows := bondFlows[s.bond := flow.(withdrawals := flow.withdrawals + s.amount)];
      return true;
    }

    // ---- Job life cycle ----

    method CreateJob(s: Step) returns (ok: bool)
      requires s.CreateJob?
      modifies this
      ensures ok == CanCreate(old(View()), s)
      ensures ok ==> View() == DoCreate(old(View()), s)
    {
      if config.None? || config.value.paused || s.amount == 0 || s.amount > U64_MAX || s.requestHash == 0 {
        return false;
      }
      if !(clock < s.fundDeadline < s.acceptDeadline < s.workDeadline < s.autoSettleDeadline <= I64_MAX) {
        return false;
      }
      if s.id.provider !in providers || s.id in jobs || JobAddress(s.id) in prefunded {
        return false;
      }
      var job := Job(Created, config.value.mint, s.amount, s.fundDeadline, s.acceptDeadline, s.workDeadline,
                     s.autoSettleDeadline, s.requestHash, None, 0);
      jobs := jobs[s.id := job];
      flows := flows[s.id := Flow(Balance(tokens, EscrowOf(s.id, job)), 0, 0, 0, 0, 0, 0)];
      return true;
    }

    method FundJob(s: Step) returns (ok: bool)
      requires s.FundJob?
      modifies this
      ensures ok == CanFund(old(View()), s)
      ensures ok ==> View() == DoFund(old(View()), s)
    {
      if config.None? || config.value.paused || s.id !in jobs || s.id.buyer != s.buyer {
        return false;
      }
      var job := jobs[s.id];
      ghost var flow := FlowOf(View(), s.id);
      if !job.state.Created? || clock >= job.fundDeadline || job.mint != config.value.mint {
        return false;
      }
      var escrow := EscrowOf(s.id, job);
      if escrow !in tokens || tokens[escrow] != 0 {
        return false;
      }
      ok := TransferChecked(Wallet(s.buyer, job.mint, s.wallet), escrow, job.amount);
      if !ok || tokens[escrow] != job.amount {
        return false;
      }
      ok, job := TransitionJob(job, Funded);
      jobs := jobs[s.id := job];
      flows := flows[s.id := flow.(funded := flow.funded + job.amount)];
    }

    method AcceptJob(s: Step) returns (ok: bool)
      requires s.AcceptJob?
      modifies this
      ensures ok == CanAccept(old(View()), s)
      ensures ok ==> View() == DoAccept(old(View()), s)
    {
      if config.None? || config.value.paused || s.authority !in providers || s.id !in jobs {
        return false;
      }
      var job := jobs[s.id];
      if s.id.provider != s.authority || !job.state.Funded? || clock >= job.acceptDeadline {
        return false;
      }
      if s.bond !in bonds || bonds[s.bond].locked > bonds[s.bond].deposited {
        return false;
      }
      var bond, share := bonds[s.bond], config.value.minBond;
      if s.bond.provider != s.authority || s.bond.mint != job.mint || bond.deposited - bond.locked < share {
        return false;
      }
      if bond.locked + share > U64_MAX {
        return false;
      }
      bond := bond.(locked := bond.locked + share);
      if bond.locked > bond.deposited {
        return false;
      }
      job := job.(lockedBond := share);
      ok, job := TransitionJob(job, Accepted);
      bonds := bonds[s.bond := bond];
      jobs := jobs[s.id := job];
    }

    method SubmitReceipt(s: Step) returns (ok: bool)
      requires s.SubmitReceipt?
      modifies this
      ensures ok == CanSubmit(old(View()), s)
      ensures ok ==> View() == DoSubmit(old(View()), s)
    {
      if config.None? || s.id.provider !in providers || s.id !in jobs {
        return false;
      }
      var job, r := jobs[s.id], s.receipt;
      if !job.state.Accepted? || clock > job.workDeadline || r.expiresAt < clock || r.createdAt > clock {
        return false;
      }
      if r.program != PROGRAM_ID || r.genesis != config.value.genesis || r.job != s.id
         || r.buyer != s.id.buyer || r.provider != s.id.provider
         || r.requestHash != job.requestHash || r.nonce != s.id.nonce {
        return false;
      }
      if r.expiresAt < r.createdAt || s.signer !in providers[s.id.provider] {
        return false;
      }
      job := job.(receipt := Some(r));
      ok, job := TransitionJob(job, Submitted);
      jobs := jobs[s.id := job];
    }

    method ChallengeWork(s: Step) returns (ok: bool)
      requires s.ChallengeWork?
      modifies this
      ensures ok == CanChallenge(old(View()), s)
      ensures ok ==> View() == DoChallenge(old(View()), s)
    {
      if config.None? || s.id !in jobs || s.id.buyer != s.buyer {
        return false;
      }
      var job := jobs[s.id];
      if !job.state.Submitted? || clock >= job.autoSettleDeadline || s.id in challenges {
        return false;
      }
      var deadline := clock + config.value.challengeDuration;
      if deadline > I64_MAX || ChallengeAddress(s.id) in prefunded {
        return false;
      }
      challenges := challenges[s.id := Challenge(s.id.buyer, true, s.reasonHash, deadline)];
      ok, job := TransitionJob(job, Challenged);
      jobs := jobs[s.id := job];
    }

    // ---- Exits ----

    /** Surplus to the buyer, principal to the provider, and the check that nothing is left. */
    method PayFromEscrow(id: JobId, job: Job) returns (ok: bool)
      modifies `tokens, `flows
      ensures ok == CanPayProvider(old(tokens), id, job)
      ensures ok ==> tokens == PayProvider(old(tokens), id, job)
      ensures ok ==> flows == old(flows)[id := FlowOf(old(View()), id).(
                toProvider := FlowOf(old(View()), id).toProvider + job.amount,
                surplus := FlowOf(old(View()), id).surplus + (old(tokens)[EscrowOf(id, job)] - job.amount))]
    {
      var escrow, providerToken := EscrowOf(id, job), ProviderWallet(id, job);
      if escrow !in tokens || BuyerWallet(id, job) !in tokens || providerToken !in tokens {
        return false;
      }
      ok := ReturnSurplusToBuyer(id, job);
      if !ok {
        return false;
      }
      ghost var flow := flows[id];
      ok := TransferChecked(escrow, providerToken, job.amount);
      if !ok || tokens[escrow] != 0 {
        return false;
      }
      flows := flows[id := flow.(toProvider := flow.toProvider + job.amount)];
      return true;
    }

    /** The tail of both settlement paths: pay, unlock the share, move to Settled. */
    method PayAndSettle(id: JobId, b: BondId) returns (ok: bool)
      modifies this
      requires id in jobs && (jobs[id].state.Submitted? || jobs[id].state.Challenged?)
      ensures ok == CanSettle(old(View()), id, b)
      ensures ok ==> View() == Settle(old(View()), id, b)
    {
      var job := jobs[id];
      if b !in bonds || bonds[b].locked > bonds[b].deposited || b.provider != id.provider || b.mint != job.mint {
        return false;
      }
      ok := PayFromEscrow(id, job);
      if !ok {
        return false;
      }
      ok := CloseSettled(id, b);
    }

    /** Releases the share and moves the job to Settled. */
    method CloseSettled(id: JobId, b: BondId) returns (ok: bool)
      requires id in jobs && (jobs[id].state.Submitted? || jobs[id].state.Challenged?) && b in bonds
      modifies `jobs, `bonds
      ensures ok == Unlockable(old(jobs)[id], old(bonds)[b])
      ensures ok ==> bonds == old(bonds)[b := Unlocked(old(jobs)[id], old(bonds)[b])]
      ensures ok ==> jobs == old(jobs)[id := old(jobs)[id].(state := Settled, lockedBond := 0)]
    {
      var job, bond := jobs[id], bonds[b];
      ok, job, bond := UnlockJobBond(job, bond);
      if !ok {
        return false;
      }
      ok, job := TransitionJob(job, Settled);
      bonds := bonds[b := bond];
      jobs := jobs[id := job];
    }

    method AcceptWork(s: Step) returns (ok: bool)
      requires s.AcceptWork?
      modifies this
      ensures ok == CanAcceptWork(old(View()), s)
      ensures ok ==> View() == Settle(old(View()), s.id, s.bond)
    {
      if s.id !in jobs || s.id.buyer != s.buyer || !jobs[s.id].state.Submitted? {
        return false;
      }
      ok := PayAndSettle(s.id, s.bond);
    }

    /** The challenge account is closed before the later checks, so a late failure leaves it gone. */
    method ResolveTimeoutSettle(s: Step) returns (ok: bool)
      requires s.ResolveTimeoutSettle?
      modifies this
      ensures ok == CanTimeoutSettle(old(View()), s)
      ensures ok ==> View() == DoTimeoutSettle(old(View()), s)
    {
      if s.id !in jobs {
        return false;
      }
      var job := jobs[s.id];
      match job.state {
        case Submitted =>
          if clock < job.autoSettleDeadline {
            return false;
          }
        case Challenged =>
          if s.challenge != Some(s.id) || s.id !in challenges {
            return false;
          }
          var challenge := challenges[s.id];
          if !challenge.open || clock < challenge.deadline || challenge.buyer != s.id.buyer {
            return false;
          }
          challenges := challenges - {s.id};
        case _ =>
          return false;
      }
      ok := PayAndSettle(s.id, s.bond);
    }

    /** The optional bond account: its own bond releases the share, any other is fine only without a share. */
    method ReleaseShare(id: JobId, job: Job, account: Option<BondId>) returns (ok: bool, job': Job)
      modifies `bonds
      ensures ok == (&& (account.Some? && account.value in old(bonds) ==> old(bonds)[account.value].Loads())
                     && (if account.Some? && account.value in old(bonds) && account.value == BondOf(id, job)
                         then Unlockable(job, old(bonds)[account.value]) else job.lockedBond == 0))
      ensures ok ==> job' == job.(lockedBond := 0)
      ensures ok ==> bonds == if account.Some? && account.value in old(bonds) && account.value == BondOf(id, job)
                              then old(bonds)[account.value := Unlocked(job, old(bonds)[account.value])] else old(bonds)
    {
      job' := job;
      if account.Some? && account.value in bonds {
        var b := account.value;
        var bond := bonds[b];
        if bond.locked > bond.deposited {
          return false, job;
        }
        if b == BondOf(id, job) {
          ok, job', bond := UnlockJobBond(job, bond);
          if ok {
            bonds := bonds[b := bond];
          }
          return ok, job';
        }
      }
      ok := job.lockedBond == 0;
    }

    method RefundInternal(s: Step) returns (ok: bool)
      requires s.ResolveRefund?
      modifies this
      ensures ok == CanRefund(old(View()), s)
      ensures ok ==> View() == DoRefund(old(View()), s)
    {
      if s.id !in jobs {
        return false;
      }
      var id, job := s.id, jobs[s.id];
      match job.state {
        case Funded =>
          if clock < job.acceptDeadline {
            return false;
          }
        case Accepted =>
          if s.fundedOnly || clock <= job.workDeadline {
            return false;
          }
        case _ =>
          return false;
      }
      ok := RefundPrincipalToBuyer(id, job);
      if !ok {
        return false;
      }
      ok, job := ReleaseShare(id, job, s.bondAccount);
      if !ok {
        return false;
      }
      ok, job := TransitionJob(job, Refunded);
      jobs := jobs[id := job];
    }

    method ExpireUnfunded(s: Step) returns (ok: bool)
      requires s.ExpireUnfunded?
      modifies this
      ensures ok == CanExpire(old(View()), s)
      ensures ok ==> View() == DoExpire(old(View()), s)
    {
      if s.id !in jobs || !jobs[s.id].state.Created? || clock < jobs[s.id].fundDeadline {
        return false;
      }
      var job;
      ok, job := TransitionJob(jobs[s.id], Expired);
      jobs := jobs[s.id := job];
    }

    /** Sends the job's locked share from the vault to the buyer and takes it off both bond totals. */
    method BurnShare(id: JobId, job: Job, b: BondId) returns (ok: bool)
      modifies `tokens, `bonds
      ensures ok == (&& b == BondOf(id, job) && b in old(bonds) && old(bonds)[b].Loads()
                     && 0 < job.lockedBond <= old(bonds)[b].locked
                     && CanMove(old(tokens), Vault(b), BuyerWallet(id, job), job.lockedBond))
      ensures ok ==> tokens == Move(old(tokens), Vault(b), BuyerWallet(id, job), job.lockedBond)
      ensures ok ==> bonds == old(bonds)[b := Bond(old(bonds)[b].deposited - job.lockedBond,
                                                   old(bonds)[b].locked - job.lockedBond)]
    {
      if b !in bonds || bonds[b].locked > bonds[b].deposited || b.provider != id.provider || b.mint != job.mint {
        return false;
      }
      var bond, slash := bonds[b], job.lockedBond;
      if slash == 0 || bond.locked < slash || bond.deposited < slash {
        return false;
      }
      ok := TransferChecked(Vault(b), BuyerWallet(id, job), slash);
      if !ok {
        return false;
      }
      bond := bond.(locked := bond.locked - slash);
      bond := bond.(deposited := bond.deposited - slash);
      bonds := bonds[b := bond];
      return true;
    }

    /** The escrow to the buyer first, then the share of the bond. */
    method RefundAndBurn(id: JobId, job: Job, b: BondId) returns (ok: bool)
      modifies `tokens, `bonds, `flows
      ensures ok == (&& b == BondOf(id, job) && b in old(bonds) && old(bonds)[b].Loads()
                     && 0 < job.lockedBond <= old(bonds)[b].locked
                     && CanPaySlash(old(tokens), id, job, b))
      ensures ok ==> tokens == PaySlash(old(tokens), id, job, b)
      ensures ok ==> bonds == old(bonds)[b := Bond(old(bonds)[b].deposited - job.lockedBond,
                                                   old(bonds)[b].locked - job.lockedBond)]
      ensures ok ==> flows == old(flows)[id := FlowOf(old(View()), id).(
                toBuyer := FlowOf(old(View()), id).toBuyer + job.amount,
                surplus := FlowOf(old(View()), id).surplus + (old(tokens)[EscrowOf(id, job)] - job.amount),
                slashed := FlowOf(old(View()), id).slashed + job.lockedBond)]
    {
      ok := RefundPrincipalToBuyer(id, job);
      if !ok {
        return false;
      }
      ok := BurnShare(id, job, b);
      if !ok {
        return false;
      }
      flows := flows[id := flows[id].(slashed := flows[id].slashed + job.lockedBond)];
      return true;
    }

    /** The books of a slash: the bond's history, the job and its challenge. */
    method CloseSlashed(id: JobId, b: BondId, ghost bf: BondFlow)
      requires id in jobs && jobs[id].state.Challenged?
      modifies `jobs, `challenges, `bondFlows
      ensures jobs == old(jobs)[id := old(jobs)[id].(state := Slashed, lockedBond := 0)]
      ensures challenges == old(challenges) - {id}
      ensures bondFlows == old(bondFlows)[b := bf.(slashes := bf.slashes + old(jobs)[id].lockedBond)]
    {
      var job := jobs[id];
      bondFlows := bondFlows[b := bf.(slashes := bf.slashes + job.lockedBond)];
      job := job.(lockedBond := 0);
      var ok;
      ok, job := TransitionJob(job, Slashed);
      jobs := jobs[id := job];
      challenges := challenges - {id};
    }

    method PayAndSlash(id: JobId, b: BondId) returns (ok: bool)
      requires id in jobs && jobs[id].state.Challenged?
      modifies this
      ensures ok == CanBurn(old(View()), id, b)
      ensures ok ==> View() == Slash(old(View()), id, b)
    {
      ghost var bf := BondFlowBefore(View(), b);
      ok := RefundAndBurn(id, jobs[id], b);
      if ok {
        CloseSlashed(id, b, bf);
      }
    }

    method SlashBond(s: Step) returns (ok: bool)
      requires s.SlashBond?
      modifies this
      ensures ok == CanSlash(old(View()), s)
      ensures ok ==> View() == Slash(old(View()), s.id, s.bond)
    {
      if config.None? || s.admin != config.value.admin || s.id !in jobs || !jobs[s.id].state.Challenged? {
        return false;
      }
      if s.id !in challenges || !challenges[s.id].open || clock >= challenges[s.id].deadline {
        return false;
      }
      ok := PayAndSlash(s.id, s.bond);
    }

    method CloseJob(s: Step) returns (ok: bool)
      requires s.CloseJob?
      modifies this
      ensures ok == CanClose(old(View()), s)
      ensures ok ==> View() == DoClose(old(View()), s)
    {
      if s.id !in jobs || s.id.buyer != s.buyer || !jobs[s.id].state.Terminal() {
        return false;
      }
      if s.escrow.Some? && s.escrow.value in tokens {
        var escrow := s.escrow.value;
        if tokens[escrow] != 0 || !escrow.Escrow? || escrow.job != s.id {
          return false;
        }
        tokens := tokens - {escrow};
      }
      assert s.escrow.Some? ==> old(tokens) - {s.escrow.value} == tokens;
      jobs := jobs - {s.id};
      flows := flows - {s.id};
      return true;
    }

    // ---- The runtime ----

    method Configure(s: Step) returns (ok: bool)
      requires s.InitializeConfig? || s.SetPaused? || s.RegisterProvider? || s.AddExecutionKey? || s.RevokeExecutionKey?
      modifies this
      ensures ok == Succeeds(old(View()), s)
      ensures View() == Apply(old(View()), s)
    {
      match s {
        case InitializeConfig(admin, genesis, mint, minBond, duration) =>
          if minBond == 0 || minBond > U64_MAX || duration <= 0 || duration > I64_MAX || mint == 0 || genesis == 0 {
            return false;
          }
          if config.Some? || ConfigAddress in prefunded {
            return false;
          }
          config := Some(Config(admin, false, genesis, mint, minBond, duration));
        case SetPaused(admin, paused) =>
          if config.None? || admin != config.value.admin {
            return false;
          }
          config := Some(config.value.(paused := paused));
        case RegisterProvider(authority) =>
          if config.None? || config.value.paused || authority in providers || ProviderAddress(authority) in prefunded {
            return false;
          }
          providers := providers[authority := {}];
        case AddExecutionKey(authority, key) =>
          if key == 0 || authority !in providers || key in providers[authority] || |providers[authority]| >= MAX_KEYS {
            return false;
          }
          providers := providers[authority := providers[authority] + {key}];
        case RevokeExecutionKey(authority, key) =>
          if authority !in providers || key !in providers[authority] {
            return false;
          }
          providers := providers[authority := providers[authority] - {key}];
      }
      return true;
    }

    method UserTransfer(s: Step) returns (ok: bool)
      requires s.UserTransfer?
      modifies this
      ensures ok == CanUserTransfer(old(View()), s)
      ensures View() == if ok then DoUserTransfer(old(View()), s) else old(View())
    {
      if !s.from.Wallet? {
        return false;
      }
      ghost var before := View();
      ok := TransferChecked(s.from, s.to, s.amount);
      if ok {
        flows, bondFlows := DoUserTransfer(before, s).flows, DoUserTransfer(before, s).bondFlows;
      }
    }

    method MintTokens(s: Step) returns (ok: bool)
      requires s.MintTokens?
      modifies this
      ensures ok == CanMint(old(View()), s)
      ensures View() == if ok then DoMint(old(View()), s) else old(View())
    {
      var mint := s.to.Mint();
      var supply := if mint in issued then issued[mint] else 0;
      if s.to !in tokens || supply + s.amount > U64_MAX || tokens[s.to] + s.amount > U64_MAX {
        return false;
      }
      ghost var gifted := Gifted(View(), tokens[s.to := tokens[s.to] + s.amount], s.to, s.amount);
      tokens := tokens[s.to := tokens[s.to] + s.amount];
      issued := issued[mint := supply + s.amount];
      flows, bondFlows := gifted.flows, gifted.bondFlows;
      ok := true;
    }

    method BurnTokens(s: Step) returns (ok: bool)
      requires s.BurnTokens?
      modifies this
      ensures ok == CanBurnTokens(old(View()), s)
      ensures View() == if ok then DoBurnTokens(old(View()), s) else old(View())
    {
      var mint := s.from.Mint();
      var supply := if mint in issued then issued[mint] else 0;
      if !s.from.Wallet? || s.from !in tokens || s.amount > tokens[s.from] || s.amount > supply {
        return false;
      }
      tokens := tokens[s.from := tokens[s.from] - s.amount];
      issued := issued[mint := supply - s.amount];
      ok := true;
    }

    /** Lamports stay at an address that has no account. */
    method SendLamports(a: Address)
      modifies `prefunded
      ensures prefunded == if Exists(old(View()), a) then old(prefunded) else old(prefunded) + {a}
    {
      var taken :=
        match a
        case ConfigAddress => config.Some?
        case ProviderAddress(k) => k in providers
        case BondAddress(b) => b in bonds
        case JobAddress(id) => id in jobs
        case ChallengeAddress(id) => id in challenges;
      if !taken {
        prefunded := prefunded + {a};
      }
    }

    /** Clock and account creation outside the program. */
    method Outside(s: Step) returns (ok: bool)
      requires s.AdvanceClock? || s.OpenTokenAccount? || s.CloseWallet? || s.SendLamports?
      modifies this
      ensures ok == Succeeds(old(View()), s)
      ensures View() == Apply(old(View()), s)
    {
      match s {
        case AdvanceClock(time) =>
          if time < clock || time > I64_MAX {
            return false;
          }
          clock := time;
        case OpenTokenAccount(a) =>
          if a in tokens {
            return false;
          }
          tokens := tokens[a := 0];
        case CloseWallet(a) =>
          if !a.Wallet? || a !in tokens || tokens[a] != 0 {
            return false;
          }
          tokens := tokens - {a};
        case SendLamports(a) => SendLamports(a);
      }
      return true;
    }

    /** The instructions that pay a job's escrow out. */
    method ProcessPayout(s: Step) returns (ok: bool)
      requires Pays(s)
      modifies this
      ensures ok == Succeeds(old(View()), s)
      ensures ok ==> View() == After(old(View()), s)
    {
      match s {
        case AcceptWork(_, _, _) => ok := AcceptWork(s);
        case ResolveTimeoutSettle(_, _, _) => ok := ResolveTimeoutSettle(s);
        case ResolveRefund(_, _, _) => ok := RefundInternal(s);
        case SlashBond(_, _, _) => ok := SlashBond(s);
      }
    }

    /** The other instructions of a job's life. */
    method ProcessJob(s: Step) returns (ok: bool)
      requires s.CreateJob? || s.CloseJob? || Advances(s)
      modifies this
      ensures ok == Succeeds(old(View()), s)
      ensures ok ==> View() == After(old(View()), s)
    {
      match s {
        case CreateJob(_, _, _, _, _, _, _) => ok := CreateJob(s);
        case FundJob(_, _, _) => ok := FundJob(s);
        case AcceptJob(_, _, _) => ok := AcceptJob(s);
        case SubmitReceipt(_, _, _) => ok := SubmitReceipt(s);
        case ChallengeWork(_, _, _) => ok := ChallengeWork(s);
        case ExpireUnfunded(_) => ok := ExpireUnfunded(s);
        case CloseJob(_, _, _) => ok := CloseJob(s);
      }
    }

    /** Dispatch without rollback: after a failure the state is whatever the processor left. */
    method Process(s: Step) returns (ok: bool)
      modifies this
      ensures ok == Succeeds(old(View()), s)
      ensures ok ==> View() == After(old(View()), s)
    {
      if Pays(s) {
        ok := ProcessPayout(s);
      } else if s.CreateJob? || s.CloseJob? || Advances(s) {
        ok := ProcessJob(s);
      } else if s.DepositBond? {
        ok := DepositBond(s);
      } else if s.WithdrawBond? {
        ok := WithdrawBond(s);
      } else if s.UserTransfer? {
        ok := UserTransfer(s);
      } else if s.MintTokens? {
        ok := MintTokens(s);
      } else if s.BurnTokens? {
        ok := BurnTokens(s);
      } else if s.AdvanceClock? || s.OpenTokenAccount? || s.CloseWallet? || s.SendLamports? {
        ok := Outside(s);
      } else {
        ok := Configure(s);
      }
    }

    /** Puts everything back, history included. */
    method Restore(clock0: int, config0: Option<Config>, providers0: map<Key, set<Key>>, bonds0: map<BondId, Bond>,
                   jobs0: map<JobId, Job>, challenges0: map<JobId, Challenge>, tokens0: Ledger, prefunded0: set<Address>,
                   issued0: map<Key, nat>, ghost flows0: map<JobId, Flow>, ghost bondFlows0: map<BondId, BondFlow>)
      modifies this
      ensures View() == World(clock0, config0, providers0, bonds0, jobs0, challenges0, tokens0, prefunded0, issued0,
                              flows0, bondFlows0)
    {
      clock, config, providers, bonds, jobs := clock0, config0, providers0, bonds0, jobs0;
      challenges, tokens, prefunded, issued := challenges0, tokens0, prefunded0, issued0;
      flows, bondFlows := flows0, bondFlows0;
    }

    /** One transaction: a refused instruction leaves the chain exactly as it was. */
    method Execute(s: Step) returns (ok: bool)
      modifies this
      ensures ok == Succeeds(old(View()), s)
      ensures View() == Apply(old(View()), s)
    {
      var clock0, config0, providers0, bonds0, jobs0 := clock, config, providers, bonds, jobs;
      var challenges0, tokens0, prefunded0, issued0 := challenges, tokens, prefunded, issued;
      ghost var flows0, bondFlows0 := flows, bondFlows;
      ok := Process(s);
      if !ok {
        Restore(clock0, config0, providers0, bonds0, jobs0, challenges0, tokens0, prefunded0, issued0, flows0, bondFlows0);
      }
    }
  }
}
