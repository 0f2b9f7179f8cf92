/** Who may do what and when, and what it does, read off the state before and after a step. */
module EscrowLaws {
  import opened Limits
  import opened Options
  import opened Sums
  import opened EscrowModel
  import opened EscrowSpec
  import opened EscrowInvariant
  import opened EscrowTheorems

  // ---- How a job moves ----

  /** The step is about this job, and nothing of the job changes but what is named. */
  predicate Became(j: Job, j': Job, state: JobState, locked: nat) {
    j' == j.(state := state, lockedBond := locked)
  }

  /** Every change of a job, with who must have signed it, when, and what else it does. */
  predicate LawfulMove(w: World, s: Step, w': World, id: JobId)
    requires id in w.jobs && id in w'.jobs && w.config.Some?
  {
    var j, j', c := w.jobs[id], w'.jobs[id], w.config.value;
    match (j.state, j'.state)
    case (Created, Funded) =>
      && s.FundJob? && s.id == id && s.buyer == id.buyer && !c.paused && w.clock < j.fundDeadline
      && Became(j, j', Funded, j.lockedBond)
      && Balance(w.tokens, EscrowOf(id, j)) == 0 && Balance(w'.tokens, EscrowOf(id, j)) == j.amount
    case (Created, Expired) =>
      s.ExpireUnfunded? && s.id == id && j.fundDeadline <= w.clock && Became(j, j', Expired, j.lockedBond)
    case (Funded, Accepted) =>
      && s.AcceptJob? && s.id == id && s.authority == id.provider && id.provider in w.providers
      && !c.paused && w.clock < j.acceptDeadline && Became(j, j', Accepted, c.minBond)
    case (Funded, Refunded) =>
      s.ResolveRefund? && s.id == id && j.acceptDeadline <= w.clock && Became(j, j', Refunded, 0)
    case (Accepted, Refunded) =>
      s.ResolveRefund? && s.id == id && !s.fundedOnly && j.workDeadline < w.clock && Became(j, j', Refunded, 0)
    case (Accepted, Submitted) =>
      && s.SubmitReceipt? && s.id == id && w.clock <= j.workDeadline
      && s.receipt.createdAt <= w.clock <= s.receipt.expiresAt
      && s.receipt.program == PROGRAM_ID && s.receipt.genesis == c.genesis && s.receipt.job == id
      && s.receipt.buyer == id.buyer && s.receipt.provider == id.provider && s.receipt.nonce == id.nonce
      && s.receipt.requestHash == j.requestHash
      && id.provider in w.providers && s.signer in w.providers[id.provider]
      && j' == j.(state := Submitted, receipt := Some(s.receipt))
    case (Submitted, Settled) =>
      && Became(j, j', Settled, 0)
      && ((s.AcceptWork? && s.id == id && s.buyer == id.buyer)
          || (s.ResolveTimeoutSettle? && s.id == id && j.autoSettleDeadline <= w.clock))
    case (Submitted, Challenged) =>
      && s.ChallengeWork? && s.id == id && s.buyer == id.buyer && w.clock < j.autoSettleDeadline
      && Became(j, j', Challenged, j.lockedBond)
      && id in w'.challenges
      && w'.challenges[id] == Challenge(id.buyer, true, s.reasonHash, w.clock + c.challengeDuration)
    case (Challenged, Settled) =>
      && s.ResolveTimeoutSettle? && s.id == id && id in w.challenges && w.challenges[id].deadline <= w.clock
      && Became(j, j', Settled, 0)
    case (Challenged, Slashed) =>
      && s.SlashBond? && s.id == id && s.admin == c.admin && id in w.challenges && w.clock < w.challenges[id].deadline
      && Became(j, j', Slashed, 0)
    case _ => j' == j
  }

  lemma AdvanceIsLawful(w: World, s: Step, id: JobId)
    requires w.config.Some? && id in w.jobs && Succeeds(w, s) && Advances(s)
    ensures id in After(w, s).jobs && LawfulMove(w, s, After(w, s), id)
  {
  }

  lemma BuyerSettlesLawfully(w: World, s: Step, id: JobId)
    requires w.config.Some? && id in w.jobs && s.AcceptWork? && CanAcceptWork(w, s)
    ensures LawfulMove(w, s, Settle(w, s.id, s.bond), id)
  {
  }

  lemma TimeoutSettlesLawfully(w: World, s: Step, id: JobId)
    requires w.config.Some? && id in w.jobs && s.ResolveTimeoutSettle? && CanTimeoutSettle(w, s)
    ensures LawfulMove(w, s, DoTimeoutSettle(w, s), id)
  {
  }

  lemma SettleIsLawful(w: World, s: Step, id: JobId)
    requires w.config.Some? && id in w.jobs && Succeeds(w, s) && (s.AcceptWork? || s.ResolveTimeoutSettle?)
    ensures id in After(w, s).jobs && LawfulMove(w, s, After(w, s), id)
  {
    if s.AcceptWork? {
      BuyerSettlesLawfully(w, s, id);
    } else {
      TimeoutSettlesLawfully(w, s, id);
    }
  }

  lemma ReturnIsLawful(w: World, s: Step, id: JobId)
    requires w.config.Some? && id in w.jobs && Succeeds(w, s) && (s.ResolveRefund? || s.SlashBond?)
    ensures id in After(w, s).jobs && LawfulMove(w, s, After(w, s), id)
  {
  }

  lemma OtherIsLawful(w: World, s: Step, id: JobId)
    requires w.config.Some? && id in w.jobs && Succeeds(w, s) && !Advances(s) && !Pays(s) && id in After(w, s).jobs
    ensures LawfulMove(w, s, After(w, s), id)
  {
  }

  /**
   * Whatever is attempted, a job changes only along these moves. In particular a submitted job is settled before its
   * auto-settle deadline by its buyer alone, a challenged one is slashed by the configured admin alone within the
   * window, and work counts as submitted only under a receipt for this job and a key its provider has registered.
   */
  lemma JobMovesLawfully(w: World, s: Step, id: JobId)
    requires w.config.Some? && id in w.jobs && id in Apply(w, s).jobs
    ensures LawfulMove(w, s, Apply(w, s), id)
  {
    if Succeeds(w, s) {
      if Advances(s) {
        AdvanceIsLawful(w, s, id);
      } else if s.AcceptWork? || s.ResolveTimeoutSettle? {
        SettleIsLawful(w, s, id);
      } else if s.ResolveRefund? || s.SlashBond? {
        ReturnIsLawful(w, s, id);
      } else {
        OtherIsLawful(w, s, id);
      }
    }
  }

  lemma JobStepsCreateNone(w: World, s: Step, id: JobId)
    requires Succeeds(w, s) && (Advances(s) || Pays(s)) && id !in w.jobs
    ensures id !in After(w, s).jobs
  {
  }

  lemma NoJobAppears(w: World, s: Step, id: JobId)
    requires Succeeds(w, s) && !Advances(s) && !Pays(s) && !s.CreateJob? && id !in w.jobs
    ensures id !in After(w, s).jobs
  {
  }

  /** A job appears only by a creation with ordered future deadlines, and is exactly what was asked for. */
  lemma JobAppears(w: World, s: Step, id: JobId)
    requires id !in w.jobs && id in Apply(w, s).jobs
    ensures s.CreateJob? && s.id == id && w.config.Some? && !w.config.value.paused && id.provider in w.providers
    ensures 0 < s.amount <= U64_MAX && s.requestHash != 0
    ensures w.clock < s.fundDeadline < s.acceptDeadline < s.workDeadline < s.autoSettleDeadline
    ensures Apply(w, s).jobs[id] == Job(Created, w.config.value.mint, s.amount, s.fundDeadline, s.acceptDeadline,
                                        s.workDeadline, s.autoSettleDeadline, s.requestHash, None, 0)
  {
    if Advances(s) || Pays(s) {
      JobStepsCreateNone(w, s, id);
    } else if !s.CreateJob? {
      NoJobAppears(w, s, id);
    }
  }

  // ---- The right party can act in time ----

  lemma BalanceFits(t: Ledger, a: TokenAccount)
    requires a in t
    ensures t[a] <= Supply(t, a.Mint())
  {
    SumRemove(Holdings(t, a.Mint()), a);
  }

  lemma CreationWorks(w: World, s: Step)
    requires s.CreateJob? && w.config.Some? && !w.config.value.paused && s.id !in w.jobs && s.id.provider in w.providers
    requires 0 < s.amount <= U64_MAX && s.requestHash != 0 && JobAddress(s.id) !in w.prefunded
    requires w.clock < s.fundDeadline < s.acceptDeadline < s.workDeadline < s.autoSettleDeadline <= I64_MAX
    ensures Succeeds(w, s) && s.id in After(w, s).jobs
  {
  }

  lemma JobMint(w: World, id: JobId)
    requires JobsOk(w) && id in w.jobs
    ensures w.config.Some? && w.jobs[id].mint == w.config.value.mint
  {
    JobAt(w, id);
  }

  /** In time, the buyer can fund from any wallet of its own that holds the amount, while the escrow is empty. */
  lemma FundingWorks(w: World, id: JobId, wallet: nat)
    requires Inv(w) && id in w.jobs && w.jobs[id].state.Created? && w.clock < w.jobs[id].fundDeadline
    requires w.config.Some? && !w.config.value.paused
    requires EscrowOf(id, w.jobs[id]) in w.tokens && w.tokens[EscrowOf(id, w.jobs[id])] == 0
    requires var from := Wallet(id.buyer, w.jobs[id].mint, wallet); from in w.tokens && w.jobs[id].amount <= w.tokens[from]
    ensures Succeeds(w, FundJob(id.buyer, id, wallet))
  {
    var j := w.jobs[id];
    JobMint(w, id);
    SupplyFits(w, j.mint);
    MoveFits(w.tokens, Wallet(id.buyer, j.mint, wallet), EscrowOf(id, j), j.amount);
  }

  /** In time, the registered provider can accept when its bond has one minimum bond free. */
  lemma AcceptanceWorks(w: World, id: JobId)
    requires Inv(w) && id in w.jobs && w.jobs[id].state.Funded? && w.clock < w.jobs[id].acceptDeadline
    requires w.config.Some? && !w.config.value.paused && id.provider in w.providers
    requires var b := BondOf(id, w.jobs[id]);
             b in w.bonds && w.config.value.minBond <= w.bonds[b].deposited - w.bonds[b].locked
    ensures Succeeds(w, AcceptJob(id.provider, id, BondOf(id, w.jobs[id])))
  {
    DepositFits(w, BondOf(id, w.jobs[id]));
  }

  lemma DepositFits(w: World, b: BondId)
    requires SupplyOk(w) && BooksOk(w) && b in w.bonds
    ensures w.bonds[b].Loads() && w.bonds[b].deposited <= U64_MAX
    ensures Vault(b) in w.tokens && w.bonds[b].deposited <= w.tokens[Vault(b)]
  {
    assert BookOk(b, w.bonds[b], w.bondFlows[b], w.tokens);
    BalanceFits(w.tokens, Vault(b));
    SupplyFits(w, b.mint);
  }

  /** In time, a receipt for exactly this job under a registered key is taken. */
  lemma SubmissionWorks(w: World, id: JobId, r: Receipt, key: Key)
    requires id in w.jobs && w.jobs[id].state.Accepted? && w.clock <= w.jobs[id].workDeadline && w.config.Some?
    requires id.provider in w.providers && key in w.providers[id.provider]
    requires r.createdAt <= w.clock <= r.expiresAt
    requires r == Receipt(PROGRAM_ID, w.config.value.genesis, id, id.buyer, id.provider, w.jobs[id].requestHash,
                          r.resultHash, id.nonce, r.createdAt, r.expiresAt)
    ensures Succeeds(w, SubmitReceipt(id, r, key))
  {
  }

  /** In every reachable state the buyer can settle a submitted job at any time, paused or not. */
  lemma BuyerCanAlwaysSettle(w: World, id: JobId)
    requires Inv(w) && id in w.jobs && w.jobs[id].state.Submitted? && RecipientsUsable(w, id)
    ensures Succeeds(w, AcceptWork(id.buyer, id, BondOf(id, w.jobs[id])))
  {
    SupplyFits(w, w.jobs[id].mint);
    SettleReady(w, id);
  }

  lemma BurnReady(w: World, id: JobId)
    requires ConfigOk(w) && JobsOk(w) && BooksOk(w) && LocksOk(w) && id in w.jobs && w.jobs[id].state.Challenged?
    requires Supply(w.tokens, w.jobs[id].mint) <= U64_MAX && BuyerWallet(id, w.jobs[id]) in w.tokens
    ensures CanBurn(w, id, BondOf(id, w.jobs[id]))
  {
    ChallengedShare(w, id);
    ShareIsThere(w, id);
    VaultCovers(w, BondOf(id, w.jobs[id]));
    SlashFits(w.tokens, id, w.jobs[id]);
  }

  /** With the supply in 64 bits both payments of a slash go through. */
  lemma SlashFits(t: Ledger, id: JobId, j: Job)
    requires Supply(t, j.mint) <= U64_MAX && EscrowOf(id, j) in t && BuyerWallet(id, j) in t && Vault(BondOf(id, j)) in t
    requires j.amount <= t[EscrowOf(id, j)] && j.lockedBond <= t[Vault(BondOf(id, j))]
    ensures CanPaySlash(t, id, j, BondOf(id, j))
  {
    var e, bw := EscrowOf(id, j), BuyerWallet(id, j);
    MoveFits(t, e, bw, t[e]);
    MoveConserves(t, e, bw, t[e], j.mint);
    MoveFits(PayBuyer(t, id, j), Vault(BondOf(id, j)), bw, j.lockedBond);
  }

  lemma ChallengedShare(w: World, id: JobId)
    requires ConfigOk(w) && JobsOk(w) && id in w.jobs && w.jobs[id].state.Challenged?
    ensures w.jobs[id].lockedBond > 0
    ensures EscrowOf(id, w.jobs[id]) in w.tokens && w.jobs[id].amount <= w.tokens[EscrowOf(id, w.jobs[id])]
  {
    JobAt(w, id);
  }

  lemma VaultCovers(w: World, b: BondId)
    requires BooksOk(w) && b in w.bonds
    ensures w.bonds[b].Loads() && Vault(b) in w.tokens && w.bonds[b].deposited <= w.tokens[Vault(b)]
  {
    assert BookOk(b, w.bonds[b], w.bondFlows[b], w.tokens);
  }

  /** Within the window the admin can slash. */
  lemma SlashWorks(w: World, id: JobId)
    requires Inv(w) && id in w.jobs && w.jobs[id].state.Challenged? && BuyerWallet(id, w.jobs[id]) in w.tokens
    requires id in w.challenges && w.clock < w.challenges[id].deadline
    ensures w.config.Some? && Succeeds(w, SlashBond(w.config.value.admin, id, BondOf(id, w.jobs[id])))
  {
    SupplyFits(w, w.jobs[id].mint);
    BurnReady(w, id);
    OpenChallenge(w, id);
  }

  lemma OpenChallenge(w: World, id: JobId)
    requires JobsOk(w) && id in w.jobs && w.jobs[id].state.Challenged?
    ensures w.config.Some? && id in w.challenges && w.challenges[id].open && w.challenges[id].buyer == id.buyer
  {
    JobAt(w, id);
  }

  lemma StateShare(w: World, id: JobId)
    requires JobsOk(w) && id in w.jobs
    ensures w.config.Some?
    ensures w.jobs[id].state.Funded? ==> w.jobs[id].lockedBond == 0
    ensures w.jobs[id].state.Accepted? ==> w.jobs[id].lockedBond == w.config.value.minBond
  {
    JobAt(w, id);
  }

  lemma RefundGuard(w: World, id: JobId, bond: Option<BondId>, fundedOnly: bool)
    requires id in w.jobs && (w.jobs[id].state.Funded? || w.jobs[id].state.Accepted?)
    requires CanPayBuyer(w.tokens, id, w.jobs[id]) && RefundBondOk(w, id, Some(BondOf(id, w.jobs[id])))
    requires w.jobs[id].state.Funded? <==> w.jobs[id].lockedBond == 0
    requires bond.Some? && bond.value in w.bonds ==> w.bonds[bond.value].Loads()
    ensures var j := w.jobs[id];
            Succeeds(w, ResolveRefund(id, bond, fundedOnly)) <==>
              || (j.state.Funded? && j.acceptDeadline <= w.clock)
              || (j.state.Accepted? && !fundedOnly && j.workDeadline < w.clock && bond == Some(BondOf(id, j)))
  {
  }

  /**
   * Exactly when anyone can have a job refunded: overdue and not accepted, whatever bond account is named, or overdue
   * and accepted, under its own bond.
   */
  lemma RefundWorksIff(w: World, id: JobId, bond: Option<BondId>, fundedOnly: bool)
    requires Inv(w) && id in w.jobs && RecipientsUsable(w, id)
    ensures var j := w.jobs[id];
            Succeeds(w, ResolveRefund(id, bond, fundedOnly)) <==>
              || (j.state.Funded? && j.acceptDeadline <= w.clock)
              || (j.state.Accepted? && !fundedOnly && j.workDeadline < w.clock && bond == Some(BondOf(id, j)))
  {
    if w.jobs[id].state.Funded? || w.jobs[id].state.Accepted? {
      ReturnReady(w, id);
      if bond.Some? && bond.value in w.bonds {
        DepositFits(w, bond.value);
      }
      RefundGuard(w, id, bond, fundedOnly);
    } else {
      NoRefundOtherwise(w, id, bond, fundedOnly);
    }
  }

  lemma ReturnReady(w: World, id: JobId)
    requires Inv(w) && id in w.jobs && RecipientsUsable(w, id) && (w.jobs[id].state.Funded? || w.jobs[id].state.Accepted?)
    ensures CanPayBuyer(w.tokens, id, w.jobs[id]) && RefundBondOk(w, id, Some(BondOf(id, w.jobs[id])))
    ensures w.jobs[id].state.Funded? <==> w.jobs[id].lockedBond == 0
  {
    SupplyFits(w, w.jobs[id].mint);
    RefundReady(w, id);
    StateShare(w, id);
    MinBondIsPositive(w);
  }

  lemma NoRefundOtherwise(w: World, id: JobId, bond: Option<BondId>, fundedOnly: bool)
    requires id in w.jobs && !w.jobs[id].state.Funded? && !w.jobs[id].state.Accepted?
    ensures !Succeeds(w, ResolveRefund(id, bond, fundedOnly))
  {
  }

  lemma MinBondIsPositive(w: World)
    requires ConfigOk(w) && w.config.Some?
    ensures w.config.value.minBond > 0
  {
  }

  lemma SettlementReady(w: World, id: JobId)
    requires Inv(w) && id in w.jobs && RecipientsUsable(w, id)
    requires w.jobs[id].state.Submitted? || w.jobs[id].state.Challenged?
    ensures CanSettle(w, id, BondOf(id, w.jobs[id]))
    ensures w.jobs[id].state.Challenged? ==> id in w.challenges && w.challenges[id].open && w.challenges[id].buyer == id.buyer
  {
    SupplyFits(w, w.jobs[id].mint);
    SettleReady(w, id);
    if w.jobs[id].state.Challenged? {
      OpenChallenge(w, id);
    }
  }

  lemma NoTimeoutOtherwise(w: World, id: JobId, bond: BondId, challenge: Option<JobId>)
    requires id in w.jobs && !w.jobs[id].state.Submitted? && !w.jobs[id].state.Challenged?
    ensures !Succeeds(w, ResolveTimeoutSettle(id, bond, challenge))
  {
  }

  /** Exactly when anyone can have a job settled by timeout: overdue, under its own bond, and its own expired challenge. */
  lemma TimeoutWorksIff(w: World, id: JobId, bond: BondId, challenge: Option<JobId>)
    requires Inv(w) && id in w.jobs && RecipientsUsable(w, id)
    ensures var j := w.jobs[id];
            Succeeds(w, ResolveTimeoutSettle(id, bond, challenge)) <==>
              && bond == BondOf(id, j)
              && (|| (j.state.Submitted? && j.autoSettleDeadline <= w.clock)
                  || (j.state.Challenged? && challenge == Some(id) && id in w.challenges && w.challenges[id].deadline <= w.clock))
  {
    if w.jobs[id].state.Submitted? || w.jobs[id].state.Challenged? {
      SettlementReady(w, id);
      TimeoutGuard(w, id, bond, challenge);
    } else {
      NoTimeoutOtherwise(w, id, bond, challenge);
    }
  }

  lemma TimeoutGuard(w: World, id: JobId, bond: BondId, challenge: Option<JobId>)
    requires id in w.jobs && CanSettle(w, id, BondOf(id, w.jobs[id]))
    requires w.jobs[id].state.Challenged? ==> id in w.challenges && w.challenges[id].open && w.challenges[id].buyer == id.buyer
    ensures var j := w.jobs[id];
            Succeeds(w, ResolveTimeoutSettle(id, bond, challenge)) <==>
              && bond == BondOf(id, j)
              && (|| (j.state.Submitted? && j.autoSettleDeadline <= w.clock)
                  || (j.state.Challenged? && challenge == Some(id) && id in w.challenges && w.challenges[id].deadline <= w.clock))
  {
  }

  /** A finished job can be closed by its buyer at any time, and its empty escrow with it. */
  lemma ClosingWorks(w: World, id: JobId, e: TokenAccount)
    requires id in w.jobs && w.jobs[id].state.Terminal()
    ensures Succeeds(w, CloseJob(id.buyer, id, None)) && id !in After(w, CloseJob(id.buyer, id, None)).jobs
    ensures e.Escrow? && e.job == id && Balance(w.tokens, e) == 0 ==>
              && Succeeds(w, CloseJob(id.buyer, id, Some(e)))
              && After(w, CloseJob(id.buyer, id, Some(e))).jobs == w.jobs - {id}
              && After(w, CloseJob(id.buyer, id, Some(e))).tokens == w.tokens - {e}
  {
  }

  lemma AdvancesCloseNothing(w: World, s: Step, a: TokenAccount)
    requires Succeeds(w, s) && Advances(s) && a in w.tokens
    ensures a in After(w, s).tokens
  {
  }

  lemma PayoutsCloseNothing(w: World, s: Step, a: TokenAccount)
    requires Succeeds(w, s) && Pays(s) && a in w.tokens
    ensures a in After(w, s).tokens
  {
  }

  lemma ClosesLawfully(w: World, s: Step, a: TokenAccount)
    requires Succeeds(w, s) && !Advances(s) && !Pays(s) && a in w.tokens && a !in After(w, s).tokens
    ensures w.tokens[a] == 0
    ensures (s.CloseWallet? && s.account == a && a.Wallet?)
            || (s.CloseJob? && s.escrow == Some(a) && a.Escrow? && a.job == s.id && s.buyer == s.id.buyer)
  {
  }

  /** A token account disappears only empty: a wallet closed by itself, an escrow with its own job by the job's buyer. */
  lemma AccountsCloseLawfully(w: World, s: Step, a: TokenAccount)
    requires a in w.tokens && a !in Apply(w, s).tokens
    ensures w.tokens[a] == 0
    ensures (s.CloseWallet? && s.account == a && a.Wallet?)
            || (s.CloseJob? && s.escrow == Some(a) && a.Escrow? && a.job == s.id && s.buyer == s.id.buyer)
  {
    if Advances(s) {
      AdvancesCloseNothing(w, s, a);
    } else if Pays(s) {
      PayoutsCloseNothing(w, s, a);
    } else {
      ClosesLawfully(w, s, a);
    }
  }

  /** A provider can take out any unlocked amount to any wallet of its own, paused or not. */
  lemma WithdrawalWorks(w: World, b: BondId, wallet: nat, amount: nat)
    requires Inv(w) && b in w.bonds && Wallet(b.provider, b.mint, wallet) in w.tokens
    requires 0 < amount <= w.bonds[b].deposited - w.bonds[b].locked
    ensures Succeeds(w, WithdrawBond(b.provider, b, wallet, amount))
  {
    DepositFits(w, b);
    SupplyFits(w, b.mint);
    MoveFits(w.tokens, Vault(b), Wallet(b.provider, b.mint, wallet), amount);
  }

  /** A registered provider can deposit what a wallet of its own holds. */
  lemma DepositWorks(w: World, provider: Key, wallet: nat, amount: nat)
    requires Inv(w) && w.config.Some? && !w.config.value.paused && provider in w.providers && amount > 0
    requires var b := BondId(provider, w.config.value.mint);
             && (b in w.bonds || BondAddress(b) !in w.prefunded) && Vault(b) in w.tokens
             && Wallet(provider, b.mint, wallet) in w.tokens && amount <= w.tokens[Wallet(provider, b.mint, wallet)]
    ensures Succeeds(w, DepositBond(provider, wallet, amount))
  {
    var b := BondId(provider, w.config.value.mint);
    var from := Wallet(provider, b.mint, wallet);
    SupplyFits(w, b.mint);
    BalanceFits(w.tokens, from);
    MoveFits(w.tokens, from, Vault(b), amount);
    if b in w.bonds {
      DepositFits(w, b);
    }
  }

  // ---- Whose tokens move ----

  /** A step that lowers a wallet's balance is one its owner signed. */
  predicate SignedByOwner(s: Step, a: TokenAccount)
    requires a.Wallet?
  {
    || (s.FundJob? && s.buyer == a.owner) || (s.DepositBond? && s.authority == a.owner)
    || (s.UserTransfer? && s.from == a) || (s.BurnTokens? && s.from == a)
  }

  lemma PayoutsTakeFromNoWallet(w: World, s: Step, a: TokenAccount)
    requires Succeeds(w, s) && Pays(s) && a.Wallet?
    ensures Balance(w.tokens, a) <= Balance(After(w, s).tokens, a)
  {
    if s.AcceptWork? || s.ResolveTimeoutSettle? {
      ProviderIsPaid(w.tokens, s.id, w.jobs[s.id]);
    } else if s.ResolveRefund? {
      BuyerIsPaid(w.tokens, s.id, w.jobs[s.id]);
    } else {
      SlashIsPaid(w.tokens, s.id, w.jobs[s.id]);
    }
  }

  lemma AdvancesTakeFromNoWallet(w: World, s: Step, a: TokenAccount)
    requires Succeeds(w, s) && Advances(s) && a.Wallet? && !SignedByOwner(s, a)
    ensures Balance(w.tokens, a) <= Balance(After(w, s).tokens, a)
  {
  }

  lemma OthersTakeFromNoWallet(w: World, s: Step, a: TokenAccount)
    requires Succeeds(w, s) && !Pays(s) && !Advances(s) && a.Wallet? && !SignedByOwner(s, a)
    ensures Balance(w.tokens, a) <= Balance(After(w, s).tokens, a)
  {
  }

  /** Nobody's wallet is ever debited without its owner's signature. */
  lemma NobodyElseSpends(w: World, s: Step, a: TokenAccount)
    requires a.Wallet? && Balance(Apply(w, s).tokens, a) < Balance(w.tokens, a)
    ensures SignedByOwner(s, a)
  {
    if !SignedByOwner(s, a) && Succeeds(w, s) {
      if Pays(s) {
        PayoutsTakeFromNoWallet(w, s, a);
      } else if Advances(s) {
        AdvancesTakeFromNoWallet(w, s, a);
      } else {
        OthersTakeFromNoWallet(w, s, a);
      }
      assert false;
    }
  }
}
