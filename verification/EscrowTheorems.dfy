/** What holds over whole runs of the escrow and bond protocol. */
module EscrowTheorems {
  import opened Limits
  import opened Options
  import opened Sums
  import opened EscrowModel
  import opened EscrowSpec
  import opened EscrowInvariant

  /** Before the protocol is used: any wallets, any clock, no protocol account. */
  ghost predicate Genesis(w: World) {
    && w.clock <= I64_MAX && w.config.None? && SupplyOk(w)
    && w.providers == map[] && w.bonds == map[] && w.jobs == map[] && w.challenges == map[]
    && w.flows == map[] && w.bondFlows == map[]
  }

  lemma {:induction false} RunKeepsInv(w: World, steps: seq<Step>)
    requires Inv(w)
    ensures Inv(Run(w, steps))
  {
    if steps == [] {
    } else {
      RunKeepsInv(w, steps[..|steps| - 1]);
      StepKeepsInv(Run(w, steps[..|steps| - 1]), steps[|steps| - 1]);
    }
  }

  lemma ReachableInv(w: World, steps: seq<Step>)
    requires Genesis(w)
    ensures Inv(Run(w, steps))
  {
    RunKeepsInv(w, steps);
  }

  // ---- Bond accounting ----

  /** The shares of the jobs that are accepted, submitted or challenged against bond `b`. */
  ghost function ActiveLocks(jobs: map<JobId, Job>, b: BondId): map<JobId, nat> {
    map id | id in jobs && BondOf(id, jobs[id]) == b && jobs[id].state.HoldsBond() :: jobs[id].lockedBond
  }

  lemma {:induction false} DropZeros<K>(big: map<K, nat>, small: map<K, nat>)
    requires forall k :: k in small ==> k in big && small[k] == big[k]
    requires forall k :: k in big && k !in small ==> big[k] == 0
    ensures Sum(big) == Sum(small)
    decreases |big|
  {
    if big == map[] {
      assert small == map[];
    } else {
      var k := Pick(big);
      assert (big - {k}).Keys == big.Keys - {k};
      DropZeros(big - {k}, small - {k});
      if k in small {
        SumRemove(small, k);
      } else {
        assert small - {k} == small;
      }
    }
  }

  /**
   * In every reachable state a bond's `locked` is the sum of the shares of its live jobs, every other job
   * holds nothing, and locked <= deposited <= vault.
   */
  lemma BondAccounting(w: World, steps: seq<Step>, b: BondId)
    requires Genesis(w) && b in Run(w, steps).bonds
    ensures var r := Run(w, steps);
            && r.bonds[b].locked == Sum(ActiveLocks(r.jobs, b))
            && (forall id :: id in r.jobs && !r.jobs[id].state.HoldsBond() ==> r.jobs[id].lockedBond == 0)
            && r.bonds[b].locked <= r.bonds[b].deposited <= Balance(r.tokens, Vault(b))
  {
    ReachableInv(w, steps);
    var r := Run(w, steps);
    assert BookOk(b, r.bonds[b], r.bondFlows[b], r.tokens);
    DropZeros(Locks(r.jobs, b), ActiveLocks(r.jobs, b));
  }

  /**
   * `deposited` is all deposits minus all withdrawals and slashes, and the rest of the vault is exactly what
   * was given to it: gifts can never be withdrawn or slashed away.
   */
  lemma BondLedger(w: World, steps: seq<Step>, b: BondId)
    requires Genesis(w) && b in Run(w, steps).bonds
    ensures var r := Run(w, steps);
            && b in r.bondFlows
            && r.bonds[b].deposited == r.bondFlows[b].deposits - r.bondFlows[b].withdrawals - r.bondFlows[b].slashes
            && Balance(r.tokens, Vault(b)) == r.bonds[b].deposited + r.bondFlows[b].donated
  {
    ReachableInv(w, steps);
    var r := Run(w, steps);
    assert BookOk(b, r.bonds[b], r.bondFlows[b], r.tokens);
  }

  lemma NoBondEntryAdvance(w: World, s: Step)
    requires Succeeds(w, s) && Advances(s)
    ensures After(w, s).bondFlows == w.bondFlows && After(w, s).bonds.Keys >= w.bonds.Keys
  {
  }

  lemma NoBondEntrySettle(w: World, s: Step)
    requires Succeeds(w, s) && (s.AcceptWork? || s.ResolveTimeoutSettle?)
    ensures After(w, s).bondFlows == w.bondFlows && After(w, s).bonds.Keys >= w.bonds.Keys
  {
  }

  lemma NoBondEntryRefund(w: World, s: Step)
    requires Succeeds(w, s) && s.ResolveRefund?
    ensures After(w, s).bondFlows == w.bondFlows && After(w, s).bonds.Keys >= w.bonds.Keys
  {
  }

  lemma NoBondEntryRest(w: World, s: Step)
    requires Succeeds(w, s) && !Advances(s) && !Pays(s) && !s.DepositBond? && !s.WithdrawBond? && !s.UserTransfer? && !s.MintTokens?
    ensures After(w, s).bondFlows == w.bondFlows && After(w, s).bonds == w.bonds
  {
  }

  lemma GiftStep(w: World, s: Step, b: BondId)
    requires w.bondFlows.Keys == w.bonds.Keys && b in w.bonds && Succeeds(w, s)
    ensures b in After(w, s).bonds && b in After(w, s).bondFlows
    ensures w.bondFlows[b].donated <= After(w, s).bondFlows[b].donated
  {
    if Advances(s) {
      NoBondEntryAdvance(w, s);
    } else if s.AcceptWork? || s.ResolveTimeoutSettle? {
      NoBondEntrySettle(w, s);
    } else if s.ResolveRefund? {
      NoBondEntryRefund(w, s);
    } else if !s.SlashBond? && !s.DepositBond? && !s.WithdrawBond? && !s.UserTransfer? && !s.MintTokens? {
      NoBondEntryRest(w, s);
    }
  }

  lemma {:induction false} GiftRecordGrows(w: World, steps: seq<Step>, b: BondId)
    requires Inv(w) && b in w.bonds
    ensures b in Run(w, steps).bonds && b in Run(w, steps).bondFlows
    ensures w.bondFlows[b].donated <= Run(w, steps).bondFlows[b].donated
  {
    if steps == [] {
    } else {
      var init := steps[..|steps| - 1];
      GiftRecordGrows(w, init, b);
      RunKeepsInv(w, init);
      if Succeeds(Run(w, init), steps[|steps| - 1]) {
        GiftStep(Run(w, init), steps[|steps| - 1], b);
      }
    }
  }

  /** What a vault holds above `deposited` never shrinks: no run takes a gift out of it. */
  lemma GiftsNeverShrink(w: World, steps: seq<Step>, b: BondId)
    requires Inv(w) && b in w.bonds
    ensures var r := Run(w, steps);
            && b in r.bonds
            && 0 <= Balance(w.tokens, Vault(b)) - w.bonds[b].deposited
                 <= Balance(r.tokens, Vault(b)) - r.bonds[b].deposited
  {
    GiftRecordGrows(w, steps, b);
    RunKeepsInv(w, steps);
    VaultExcess(w, b);
    VaultExcess(Run(w, steps), b);
  }

  lemma VaultExcess(w: World, b: BondId)
    requires BooksOk(w) && b in w.bonds
    ensures b in w.bondFlows && Balance(w.tokens, Vault(b)) - w.bonds[b].deposited == w.bondFlows[b].donated
  {
    assert BookOk(b, w.bonds[b], w.bondFlows[b], w.tokens);
  }

  lemma SlashOnBonds(w: World, id: JobId, b: BondId)
    requires CanBurn(w, id, b)
    ensures var w' := Slash(w, id, b);
            && w'.bonds.Keys == w.bonds.Keys
            && (forall x :: x in w.bonds ==>
                  w'.bonds[x].deposited - w'.bonds[x].locked == w.bonds[x].deposited - w.bonds[x].locked)
            && w'.bonds[b].locked + w.jobs[id].lockedBond == w.bonds[b].locked
  {
  }

  lemma SlashOnJobs(w: World, id: JobId, b: BondId)
    requires CanBurn(w, id, b)
    ensures Slash(w, id, b).jobs == w.jobs[id := w.jobs[id].(state := Slashed, lockedBond := 0)]
  {
  }

  /** A slash burns only the job's own share: the provider's free amount and all other locks stay. */
  lemma SlashIsLocal(w: World, s: Step)
    requires JobsOk(w) && s.SlashBond? && CanSlash(w, s)
    ensures var w' := Slash(w, s.id, s.bond);
            && w'.bonds.Keys == w.bonds.Keys && w'.jobs.Keys == w.jobs.Keys
            && (forall b :: b in w.bonds ==>
                  w'.bonds[b].deposited - w'.bonds[b].locked == w.bonds[b].deposited - w.bonds[b].locked)
            && (forall id :: id in w.jobs && id != s.id ==> w'.jobs[id].lockedBond == w.jobs[id].lockedBond)
            && w'.bonds[s.bond].locked + w.config.value.minBond == w.bonds[s.bond].locked
  {
    SlashOnBonds(w, s.id, s.bond);
    SlashOnJobs(w, s.id, s.bond);
    JobAt(w, s.id);
  }

  // ---- Tokens are conserved ----

  /** The steps that issue or destroy tokens of a mint. */
  predicate Issues(s: Step, m: Key) {
    (s.MintTokens? && s.to.Mint() == m) || (s.BurnTokens? && s.from.Mint() == m)
  }

  lemma {:induction false} IssuedOverRun(w: World, steps: seq<Step>, m: Key)
    requires forall i :: 0 <= i < |steps| ==> !Issues(steps[i], m)
    ensures Issued(Run(w, steps), m) == Issued(w, m)
  {
    if steps == [] {
    } else {
      var u, s := Run(w, steps[..|steps| - 1]), steps[|steps| - 1];
      IssuedOverRun(w, steps[..|steps| - 1], m);
      if Succeeds(u, s) && !s.MintTokens? && !s.BurnTokens? {
        SameIssue(u, s);
      }
    }
  }

  lemma {:induction false} HoldingsFollowIssue(w: World, steps: seq<Step>, m: Key)
    ensures Supply(Run(w, steps).tokens, m) - Issued(Run(w, steps), m) == Supply(w.tokens, m) - Issued(w, m)
  {
    if steps == [] {
    } else {
      HoldingsFollowIssue(w, steps[..|steps| - 1], m);
      StepConserves(Run(w, steps[..|steps| - 1]), steps[|steps| - 1], m);
    }
  }

  /**
   * Over any run the tokens of a mint that accounts hold change exactly as its recorded supply does, and not at all
   * unless its authority issues or a holder destroys some: no instruction of the program creates or destroys a token.
   */
  lemma TokensConserved(w: World, steps: seq<Step>, m: Key)
    ensures Supply(Run(w, steps).tokens, m) - Issued(Run(w, steps), m) == Supply(w.tokens, m) - Issued(w, m)
    ensures (forall i :: 0 <= i < |steps| ==> !Issues(steps[i], m)) ==>
              Supply(Run(w, steps).tokens, m) == Supply(w.tokens, m)
  {
    HoldingsFollowIssue(w, steps, m);
    if forall i :: 0 <= i < |steps| ==> !Issues(steps[i], m) {
      IssuedOverRun(w, steps, m);
    }
  }

  // ---- One incarnation of a job ----

  /** The terms fixed at creation. */
  predicate SameTerms(j: Job, j': Job) {
    && j'.mint == j.mint && j'.amount == j.amount && j'.requestHash == j.requestHash
    && j'.fundDeadline == j.fundDeadline && j'.acceptDeadline == j.acceptDeadline
    && j'.workDeadline == j.workDeadline && j'.autoSettleDeadline == j.autoSettleDeadline
  }

  predicate SamePayouts(f: Flow, f': Flow) {
    f' == f.(donated := f'.donated)
  }

  /** The part of the transition table that instructions use: Challenged never becomes Refunded. */
  predicate TakenTransition(from: JobState, to: JobState) {
    ValidTransition(from, to) && !(from.Challenged? && to.Refunded?)
  }

  ghost predicate JobStepOk(w: World, w': World, s: Step, id: JobId)
    requires id in w.jobs && id in w.flows
  {
    if id !in w'.jobs then s.CloseJob? && s.buyer == id.buyer && w.jobs[id].state.Terminal()
    else
      && SameTerms(w.jobs[id], w'.jobs[id]) && id in w'.flows
      && (w'.jobs[id].state != w.jobs[id].state ==> TakenTransition(w.jobs[id].state, w'.jobs[id].state))
      && (w.jobs[id].state.Terminal() ==>
            w'.jobs[id] == w.jobs[id] && SamePayouts(w.flows[id], w'.flows[id]))
  }

  /** Rewriting one job along the table without touching its terms. */
  lemma MovedJob(w: World, w': World, s: Step, moved: JobId, id: JobId)
    requires id in w.jobs && id in w.flows && moved in w.jobs && !w.jobs[moved].state.Terminal()
    requires moved in w'.jobs && w'.jobs == w.jobs[moved := w'.jobs[moved]] && SameTerms(w.jobs[moved], w'.jobs[moved])
    requires TakenTransition(w.jobs[moved].state, w'.jobs[moved].state)
    requires w'.flows == w.flows || (moved in w'.flows && w'.flows == w.flows[moved := w'.flows[moved]])
    ensures JobStepOk(w, w', s, id)
  {
  }

  lemma AdvanceMoves(w: World, s: Step)
    requires Succeeds(w, s) && Advances(s)
    ensures var w' := After(w, s);
            && s.id in w.jobs && !w.jobs[s.id].state.Terminal()
            && s.id in w'.jobs && w'.jobs == w.jobs[s.id := w'.jobs[s.id]] && SameTerms(w.jobs[s.id], w'.jobs[s.id])
            && TakenTransition(w.jobs[s.id].state, w'.jobs[s.id].state)
            && (w'.flows == w.flows || (s.id in w'.flows && w'.flows == w.flows[s.id := w'.flows[s.id]]))
  {
  }

  lemma AdvanceStep(w: World, s: Step, id: JobId)
    requires id in w.jobs && id in w.flows && Succeeds(w, s) && Advances(s)
    ensures JobStepOk(w, After(w, s), s, id)
  {
    AdvanceMoves(w, s);
    MovedJob(w, After(w, s), s, s.id, id);
  }

  lemma SettleStep(w: World, s: Step, id: JobId)
    requires id in w.jobs && id in w.flows && (s.AcceptWork? || s.ResolveTimeoutSettle?)
    requires CanSettle(w, s.id, s.bond) && (w.jobs[s.id].state.Submitted? || w.jobs[s.id].state.Challenged?)
    ensures JobStepOk(w, SettledWorld(w, s.id, s.bond), s, id)
  {
  }

  lemma ReturnStep(w: World, s: Step, id: JobId)
    requires id in w.jobs && id in w.flows && Succeeds(w, s) && (s.ResolveRefund? || s.SlashBond?)
    ensures JobStepOk(w, After(w, s), s, id)
  {
  }

  /** One step takes a job along the table or closes it when terminal; a terminal job is frozen. */
  lemma JobStep(w: World, s: Step, id: JobId)
    requires id in w.jobs && id in w.flows
    ensures JobStepOk(w, Apply(w, s), s, id)
  {
    if Succeeds(w, s) {
      if Advances(s) {
        AdvanceStep(w, s, id);
      } else if Pays(s) {
        if s.AcceptWork? || s.ResolveTimeoutSettle? {
          SettleStep(w, s, id);
        } else {
          ReturnStep(w, s, id);
        }
      }
    }
  }

  lemma ConfigStep(w: World, s: Step)
    requires w.config.Some?
    ensures Apply(w, s).config.Some?
    ensures Apply(w, s).config.value == w.config.value.(paused := Apply(w, s).config.value.paused)
  {
    if Succeeds(w, s) {
      if !s.InitializeConfig? && !s.SetPaused? && !s.AdvanceClock? {
        SameConfig(w, s);
      }
    }
  }

  /** Once written, the configuration never changes but for its pause flag. */
  lemma {:induction false} ConfigIsFixed(w: World, steps: seq<Step>)
    requires w.config.Some?
    ensures Run(w, steps).config.Some?
    ensures Run(w, steps).config.value == w.config.value.(paused := Run(w, steps).config.value.paused)
  {
    if steps == [] {
    } else {
      ConfigIsFixed(w, steps[..|steps| - 1]);
      ConfigStep(Run(w, steps[..|steps| - 1]), steps[|steps| - 1]);
    }
  }

  /** The job is present at every point of the run, so the run stays within one incarnation. */
  predicate Present(w: World, steps: seq<Step>, id: JobId) {
    forall k :: 0 <= k <= |steps| ==> id in Run(w, steps[..k]).jobs
  }

  /** Once terminal, a job's account and everything it ever paid out stay as they are until it is closed. */
  lemma {:induction false} TerminalIsFinal(w: World, steps: seq<Step>, id: JobId)
    requires Inv(w) && id in w.jobs && Present(w, steps, id) && w.jobs[id].state.Terminal()
    ensures id in Run(w, steps).jobs && id in Run(w, steps).flows
    ensures Run(w, steps).jobs[id] == w.jobs[id]
    ensures SamePayouts(w.flows[id], Run(w, steps).flows[id])
  {
    assert steps[..|steps|] == steps;
    if steps == [] {
    } else {
      var init := steps[..|steps| - 1];
      forall k | 0 <= k <= |init| ensures id in Run(w, init[..k]).jobs {
        assert init[..k] == steps[..k];
      }
      TerminalIsFinal(w, init, id);
      RunKeepsInv(w, init);
      JobStep(Run(w, init), steps[|steps| - 1], id);
    }
  }

  lemma {:induction false} TermsAreFixed(w: World, steps: seq<Step>, id: JobId)
    requires Inv(w) && id in w.jobs && Present(w, steps, id)
    ensures id in Run(w, steps).jobs && SameTerms(w.jobs[id], Run(w, steps).jobs[id])
    ensures w.config.Some? && Run(w, steps).config.Some?
    ensures Run(w, steps).config.value == w.config.value.(paused := Run(w, steps).config.value.paused)
  {
    assert steps[..|steps|] == steps;
    if steps == [] {
    } else {
      var init := steps[..|steps| - 1];
      forall k | 0 <= k <= |init| ensures id in Run(w, init[..k]).jobs {
        assert init[..k] == steps[..k];
      }
      TermsAreFixed(w, init, id);
      RunKeepsInv(w, init);
      assert id in Run(w, init).flows;
      JobStep(Run(w, init), steps[|steps| - 1], id);
      ConfigStep(Run(w, init), steps[|steps| - 1]);
    }
  }

  /**
   * In every reachable state: the escrow covers the principal while the job is live; a finished job has paid
   * it exactly once, to the provider if Settled and to the buyer if Refunded or Slashed; all that is not
   * principal is still in the escrow or went to the buyer.
   */
  lemma PrincipalPaidOnce(w: World, steps: seq<Step>, id: JobId)
    requires Genesis(w) && id in Run(w, steps).jobs
    ensures id in Run(w, steps).flows
    ensures var r := Run(w, steps);
            var j, f := r.jobs[id], r.flows[id];
            var held := Balance(r.tokens, EscrowOf(id, j));
            && (j.state.HoldsPrincipal() ==> held == j.amount + f.donated && f.toProvider == f.toBuyer == f.surplus == 0)
            && (j.state.Settled? ==> f.toProvider == j.amount && f.toBuyer == 0 && f.slashed == 0)
            && (j.state.Refunded? ==> f.toBuyer == j.amount && f.toProvider == 0 && f.slashed == 0)
            && (j.state.Slashed? ==> f.toBuyer == j.amount && f.toProvider == 0 && f.slashed > 0)
            && (j.state.Settled? || j.state.Refunded? || j.state.Slashed? ==> held + f.surplus == f.donated)
            && (j.state.Created? || j.state.Expired? ==> f.funded == f.toProvider == f.toBuyer == f.surplus == 0)
  {
    ReachableInv(w, steps);
    var r := Run(w, steps);
    assert JobOk(id, r.jobs[id], r.flows[id], r.tokens, r.challenges, r.config.value);
  }

  /** Where one payout of `provider`, `buyer` and `slashed` tokens of a job went, account by account. */
  ghost predicate Paid(t: Ledger, t': Ledger, id: JobId, j: Job, provider: int, buyer: int, slashed: int) {
    && (forall a: TokenAccount :: a.Wallet? ==>
          Balance(t', a) == Balance(t, a) + (if a == ProviderWallet(id, j) then provider else 0)
                                          + (if a == BuyerWallet(id, j) then buyer + slashed else 0))
    && (forall a: TokenAccount :: a.Vault? ==>
          Balance(t', a) == Balance(t, a) - (if a == Vault(BondOf(id, j)) then slashed else 0))
    && (forall a: TokenAccount :: a.Escrow? ==>
          Balance(t', a) == Balance(t, a) - (if a == EscrowOf(id, j) then provider + buyer else 0))
  }

  lemma ProviderIsPaid(t: Ledger, id: JobId, j: Job)
    requires CanPayProvider(t, id, j)
    ensures Paid(t, PayProvider(t, id, j), id, j, j.amount, t[EscrowOf(id, j)] - j.amount, 0)
  {
  }

  lemma BuyerIsPaid(t: Ledger, id: JobId, j: Job)
    requires CanPayBuyer(t, id, j)
    ensures Paid(t, PayBuyer(t, id, j), id, j, 0, t[EscrowOf(id, j)], 0)
  {
  }

  lemma SlashIsPaid(t: Ledger, id: JobId, j: Job)
    requires CanPaySlash(t, id, j, BondOf(id, j))
    ensures Paid(t, PaySlash(t, id, j, BondOf(id, j)), id, j, 0, t[EscrowOf(id, j)], j.lockedBond)
  {
    BuyerIsPaid(t, id, j);
  }

  /** The counters of the job moved as its tokens did. */
  ghost predicate Counted(w: World, w': World, id: JobId)
    requires id in w.jobs && id in w.flows
  {
    && id in w'.flows
    && var f, f' := w.flows[id], w'.flows[id];
    Paid(w.tokens, w'.tokens, id, w.jobs[id], f'.toProvider - f.toProvider,
         f'.toBuyer - f.toBuyer + f'.surplus - f.surplus, f'.slashed - f.slashed)
  }

  lemma SettleCounted(w: World, id: JobId, b: BondId)
    requires CanSettle(w, id, b) && id in w.flows
    ensures Counted(w, Settle(w, id, b), id)
  {
    ProviderIsPaid(w.tokens, id, w.jobs[id]);
  }

  lemma RefundCounted(w: World, s: Step)
    requires s.ResolveRefund? && CanRefund(w, s) && s.id in w.flows
    ensures Counted(w, DoRefund(w, s), s.id)
  {
    BuyerIsPaid(w.tokens, s.id, w.jobs[s.id]);
  }

  lemma SlashCounted(w: World, id: JobId, b: BondId)
    requires CanBurn(w, id, b) && id in w.flows
    ensures Counted(w, Slash(w, id, b), id)
  {
    SlashIsPaid(w.tokens, id, w.jobs[id]);
  }

  /**
   * The counters of a job are what the ledger did: every payout moves exactly the counted principal to the provider's
   * account, the counted principal, surplus and slash to the buyer's, and touches no other account.
   */
  lemma CountersAreReal(w: World, s: Step)
    requires Succeeds(w, s) && Pays(s) && s.id in w.flows
    ensures s.id in w.jobs && Counted(w, After(w, s), s.id)
  {
    if s.AcceptWork? || s.ResolveTimeoutSettle? {
      SettleCounted(w, s.id, s.bond);
    } else if s.ResolveRefund? {
      RefundCounted(w, s);
    } else {
      SlashCounted(w, s.id, s.bond);
    }
  }

  /** A step that pays out leaves the escrow empty: no dust stays behind. */
  lemma PayoutEmptiesEscrow(w: World, s: Step, id: JobId)
    requires id in w.jobs && w.jobs[id].state.HoldsPrincipal()
    requires id in Apply(w, s).jobs && Apply(w, s).jobs[id].state.Terminal()
    ensures Balance(Apply(w, s).tokens, EscrowOf(id, w.jobs[id])) == 0
  {
    PaysWhenFinishing(w, s, id);
    var j := w.jobs[id];
    if s.SlashBond? {
      AfterPaySlash(w.tokens, id, j, s.bond);
    } else if s.ResolveRefund? {
      AfterPayBuyer(w.tokens, id, j);
    } else {
      AfterPayProvider(w.tokens, id, j);
    }
  }

  lemma PaysWhenFinishing(w: World, s: Step, id: JobId)
    requires id in w.jobs && w.jobs[id].state.HoldsPrincipal()
    requires id in Apply(w, s).jobs && Apply(w, s).jobs[id].state.Terminal()
    ensures Succeeds(w, s) && Pays(s) && s.id == id
  {
    if Succeeds(w, s) && Advances(s) {
      AdvanceIsNoEnd(w, s, id);
    } else if Succeeds(w, s) && Pays(s) && s.id != id {
      PayHitsOneJob(w, s, id);
    }
  }

  lemma AdvanceIsNoEnd(w: World, s: Step, id: JobId)
    requires id in w.jobs && w.jobs[id].state.HoldsPrincipal() && Succeeds(w, s) && Advances(s)
    ensures id in After(w, s).jobs && !After(w, s).jobs[id].state.Terminal()
  {
  }

  lemma PayHitsOneJob(w: World, s: Step, id: JobId)
    requires id in w.jobs && Succeeds(w, s) && Pays(s) && s.id != id
    ensures id in After(w, s).jobs && After(w, s).jobs[id] == w.jobs[id]
  {
  }

  // ---- Challenges ----

  /** A challenge account exists exactly while its job is Challenged, is open, and names the job's buyer. */
  lemma ChallengeExactlyWhileChallenged(w: World, steps: seq<Step>, id: JobId)
    requires Genesis(w)
    ensures var r := Run(w, steps);
            && (id in r.challenges <==> id in r.jobs && r.jobs[id].state.Challenged?)
            && (id in r.challenges ==> r.challenges[id].open && r.challenges[id].buyer == id.buyer)
  {
    ReachableInv(w, steps);
    var r := Run(w, steps);
    if id in r.jobs {
      assert JobOk(id, r.jobs[id], r.flows[id], r.tokens, r.challenges, r.config.value);
    }
  }

  /**
   * So, in time, the buyer of a submitted job can challenge it, re-created or not, if and only if the challenge
   * deadline fits 64 bits and nobody has sent lamports to the challenge address.
   */
  lemma ChallengeableIff(w: World, id: JobId, reason: Key)
    requires JobsOk(w) && id in w.jobs && w.jobs[id].state.Submitted?
    requires w.clock < w.jobs[id].autoSettleDeadline
    ensures Succeeds(w, ChallengeWork(id.buyer, id, reason))
            <==> w.clock + w.config.value.challengeDuration <= I64_MAX && ChallengeAddress(id) !in w.prefunded
  {
    assert JobOk(id, w.jobs[id], w.flows[id], w.tokens, w.challenges, w.config.value);
  }

  // ---- Prefunded addresses ----

  lemma CreationsAvoidPrefunded(w: World, s: Step, a: Address)
    requires Succeeds(w, s) && a in w.prefunded && !Exists(w, a)
    requires !Advances(s) && !Pays(s)
    ensures !Exists(After(w, s), a) && a in After(w, s).prefunded
  {
  }

  lemma AdvancesAvoidPrefunded(w: World, s: Step, a: Address)
    requires Succeeds(w, s) && a in w.prefunded && !Exists(w, a) && Advances(s)
    ensures !Exists(After(w, s), a) && After(w, s).prefunded == w.prefunded
  {
  }

  lemma PayoutsAvoidPrefunded(w: World, s: Step, a: Address)
    requires Succeeds(w, s) && a in w.prefunded && !Exists(w, a) && Pays(s)
    ensures !Exists(After(w, s), a) && After(w, s).prefunded == w.prefunded
  {
  }

  /** Lamports at an address without an account close it for good: no run ever creates the account. */
  lemma {:induction false} PrefundedStaysClosed(w: World, steps: seq<Step>, a: Address)
    requires a in w.prefunded && !Exists(w, a)
    ensures a in Run(w, steps).prefunded && !Exists(Run(w, steps), a)
  {
    if steps == [] {
    } else {
      var u, s := Run(w, steps[..|steps| - 1]), steps[|steps| - 1];
      PrefundedStaysClosed(w, steps[..|steps| - 1], a);
      if Succeeds(u, s) {
        if Advances(s) {
          AdvancesAvoidPrefunded(u, s, a);
        } else if Pays(s) {
          PayoutsAvoidPrefunded(u, s, a);
        } else {
          CreationsAvoidPrefunded(u, s, a);
        }
      }
    }
  }

  // ---- No stuck funds ----

  /** The first clock value at which the job can be resolved without its parties. */
  function Due(w: World, id: JobId): int
    requires id in w.jobs
  {
    var j := w.jobs[id];
    match j.state
    case Created => j.fundDeadline
    case Funded => j.acceptDeadline
    case Accepted => j.workDeadline + 1
    case Submitted => j.autoSettleDeadline
    case Challenged => if id in w.challenges then w.challenges[id].deadline else 0
    case _ => 0
  }

  /** The recipients the resolution pays have their associated token accounts. */
  predicate RecipientsUsable(w: World, id: JobId)
    requires id in w.jobs
  {
    var j := w.jobs[id];
    && (j.state.HoldsPrincipal() ==> BuyerWallet(id, j) in w.tokens)
    && (j.state.Submitted? || j.state.Challenged? ==> ProviderWallet(id, j) in w.tokens)
  }

  /** The instruction the host plans for an overdue job, or nothing. */
  function BuildTimeoutPlan(w: World, id: JobId, mint: Key): Option<Step> {
    if id !in w.jobs || w.jobs[id].mint != mint || w.jobs[id].state.Terminal() then None
    else
      var j := w.jobs[id];
      var bond := BondId(id.provider, mint);
      match j.state
      case Created => if j.fundDeadline <= w.clock then Some(ExpireUnfunded(id)) else None
      case Funded => if j.acceptDeadline <= w.clock then Some(ResolveRefund(id, Some(bond), false)) else None
      case Accepted => if j.workDeadline < w.clock then Some(ResolveRefund(id, Some(bond), false)) else None
      case Submitted =>
        if j.autoSettleDeadline <= w.clock then Some(ResolveTimeoutSettle(id, bond, None)) else None
      case Challenged =>
        if id in w.challenges && w.challenges[id].deadline <= w.clock
        then Some(ResolveTimeoutSettle(id, bond, Some(id))) else None
      case _ => None
  }

  lemma PaymentFits(t: Ledger, id: JobId, j: Job)
    requires Supply(t, j.mint) <= U64_MAX
    requires EscrowOf(id, j) in t && BuyerWallet(id, j) in t && ProviderWallet(id, j) in t
    requires j.amount <= t[EscrowOf(id, j)]
    ensures CanPayProvider(t, id, j)
  {
    var e, bw, pw := EscrowOf(id, j), BuyerWallet(id, j), ProviderWallet(id, j);
    MoveFits(t, e, bw, t[e] - j.amount);
    MoveConserves(t, e, bw, t[e] - j.amount, j.mint);
    MoveFits(Move(t, e, bw, t[e] - j.amount), e, pw, j.amount);
  }

  /** The bond of a job that holds a share is there, and holds at least that share. */
  lemma ShareIsThere(w: World, id: JobId)
    requires BooksOk(w) && LocksOk(w) && id in w.jobs
    ensures var b := BondOf(id, w.jobs[id]);
            if b in w.bonds then w.bonds[b].Loads() && Unlockable(w.jobs[id], w.bonds[b])
            else w.jobs[id].lockedBond == 0
  {
    var b := BondOf(id, w.jobs[id]);
    if b in w.bonds {
      assert BookOk(b, w.bonds[b], w.bondFlows[b], w.tokens);
      LockAtMostSum(w.jobs, id);
    }
  }

  lemma SettleReady(w: World, id: JobId)
    requires ConfigOk(w) && JobsOk(w) && BooksOk(w) && LocksOk(w) && id in w.jobs && RecipientsUsable(w, id)
    requires Supply(w.tokens, w.jobs[id].mint) <= U64_MAX
    requires w.jobs[id].state.Submitted? || w.jobs[id].state.Challenged?
    ensures CanSettle(w, id, BondOf(id, w.jobs[id]))
  {
    assert JobOk(id, w.jobs[id], w.flows[id], w.tokens, w.challenges, w.config.value);
    PaymentFits(w.tokens, id, w.jobs[id]);
    ShareIsThere(w, id);
  }

  lemma RefundReady(w: World, id: JobId)
    requires JobsOk(w) && BooksOk(w) && LocksOk(w) && id in w.jobs && RecipientsUsable(w, id)
    requires Supply(w.tokens, w.jobs[id].mint) <= U64_MAX
    requires w.jobs[id].state.Funded? || w.jobs[id].state.Accepted?
    ensures CanPayBuyer(w.tokens, id, w.jobs[id])
    ensures RefundBondOk(w, id, Some(BondOf(id, w.jobs[id])))
  {
    var j, t := w.jobs[id], w.tokens;
    assert JobOk(id, j, w.flows[id], t, w.challenges, w.config.value);
    MoveFits(t, EscrowOf(id, j), BuyerWallet(id, j), t[EscrowOf(id, j)]);
    ShareIsThere(w, id);
  }

  lemma PlanLandsSettling(w: World, id: JobId)
    requires id in w.jobs && CanSettle(w, id, BondOf(id, w.jobs[id]))
    requires || (w.jobs[id].state.Submitted? && w.jobs[id].autoSettleDeadline <= w.clock)
             || (w.jobs[id].state.Challenged? && ChallengeExpired(w, id))
    ensures BuildTimeoutPlan(w, id, w.jobs[id].mint).Some?
    ensures Finishes(w, BuildTimeoutPlan(w, id, w.jobs[id].mint).value, id)
  {
    var s := BuildTimeoutPlan(w, id, w.jobs[id].mint).value;
    assert CanTimeoutSettle(w, s);
  }

  lemma PlanLandsRefunding(w: World, id: JobId)
    requires id in w.jobs && Due(w, id) <= w.clock
    requires w.jobs[id].state.Funded? || w.jobs[id].state.Accepted?
    requires CanPayBuyer(w.tokens, id, w.jobs[id]) && RefundBondOk(w, id, Some(BondOf(id, w.jobs[id])))
    ensures BuildTimeoutPlan(w, id, w.jobs[id].mint).Some?
    ensures Finishes(w, BuildTimeoutPlan(w, id, w.jobs[id].mint).value, id)
  {
    var s := BuildTimeoutPlan(w, id, w.jobs[id].mint).value;
    assert CanRefund(w, s);
  }

  lemma SettlingPlanWorks(w: World, id: JobId)
    requires ConfigOk(w) && JobsOk(w) && BooksOk(w) && LocksOk(w) && id in w.jobs && RecipientsUsable(w, id)
    requires Supply(w.tokens, w.jobs[id].mint) <= U64_MAX && Due(w, id) <= w.clock
    requires w.jobs[id].state.Submitted? || w.jobs[id].state.Challenged?
    ensures BuildTimeoutPlan(w, id, w.jobs[id].mint).Some?
    ensures Finishes(w, BuildTimeoutPlan(w, id, w.jobs[id].mint).value, id)
  {
    SettleReady(w, id);
    OverdueChallenge(w, id);
    PlanLandsSettling(w, id);
  }

  lemma OverdueChallenge(w: World, id: JobId)
    requires JobsOk(w) && id in w.jobs && Due(w, id) <= w.clock
    requires w.jobs[id].state.Submitted? || w.jobs[id].state.Challenged?
    ensures (w.jobs[id].state.Submitted? && w.jobs[id].autoSettleDeadline <= w.clock) || ChallengeExpired(w, id)
  {
    JobAt(w, id);
  }

  lemma ExpiryPlanWorks(w: World, id: JobId)
    requires id in w.jobs && w.jobs[id].state.Created? && Due(w, id) <= w.clock
    ensures BuildTimeoutPlan(w, id, w.jobs[id].mint).Some?
    ensures Finishes(w, BuildTimeoutPlan(w, id, w.jobs[id].mint).value, id)
  {
  }

  lemma PlanWorks(w: World, id: JobId)
    requires ConfigOk(w) && JobsOk(w) && BooksOk(w) && LocksOk(w) && id in w.jobs && RecipientsUsable(w, id)
    requires Supply(w.tokens, w.jobs[id].mint) <= U64_MAX && Due(w, id) <= w.clock && !w.jobs[id].state.Terminal()
    ensures BuildTimeoutPlan(w, id, w.jobs[id].mint).Some?
    ensures Finishes(w, BuildTimeoutPlan(w, id, w.jobs[id].mint).value, id)
  {
    if w.jobs[id].state.Submitted? || w.jobs[id].state.Challenged? {
      SettlingPlanWorks(w, id);
    } else if w.jobs[id].state.Created? {
      ExpiryPlanWorks(w, id);
    } else {
      RefundReady(w, id);
      PlanLandsRefunding(w, id);
    }
  }

  /** In reachable states the planned instruction always succeeds on chain, whatever `paused` says. */
  lemma PlanSucceeds(w: World, id: JobId)
    requires Inv(w) && id in w.jobs && RecipientsUsable(w, id)
    requires !w.jobs[id].state.Terminal() && Due(w, id) <= w.clock
    ensures BuildTimeoutPlan(w, id, w.jobs[id].mint).Some?
    ensures Finishes(w, BuildTimeoutPlan(w, id, w.jobs[id].mint).value, id)
  {
    SupplyFits(w, w.jobs[id].mint);
    PlanWorks(w, id);
  }

  lemma SupplyFits(w: World, m: Key)
    requires SupplyOk(w)
    ensures Supply(w.tokens, m) <= U64_MAX
  {
    assert Supply(w.tokens, m) == Issued(w, m) <= U64_MAX;
  }

  /** The step succeeds and ends the job. */
  predicate Finishes(w: World, s: Step, id: JobId) {
    Succeeds(w, s) && id in Apply(w, s).jobs && Apply(w, s).jobs[id].state.Terminal()
  }

  /** A resolution of job `id` that needs no signature. */
  predicate Permissionless(s: Step, id: JobId) {
    (s.ResolveTimeoutSettle? || s.ResolveRefund? || s.ExpireUnfunded?) && s.id == id
  }

  lemma SettlesWhenDue(w: World, s: Step)
    requires s.ResolveTimeoutSettle? && CanTimeoutSettle(w, s)
    ensures !w.jobs[s.id].state.Terminal() && Due(w, s.id) <= w.clock
  {
  }

  lemma RefundsWhenDue(w: World, s: Step)
    requires s.ResolveRefund? && CanRefund(w, s)
    ensures !w.jobs[s.id].state.Terminal() && Due(w, s.id) <= w.clock
  {
  }

  lemma NothingBeforeDue(w: World, id: JobId, s: Step)
    requires id in w.jobs && Permissionless(s, id) && Succeeds(w, s)
    ensures !w.jobs[id].state.Terminal() && Due(w, id) <= w.clock
  {
    if s.ResolveTimeoutSettle? {
      SettlesWhenDue(w, s);
    } else if s.ResolveRefund? {
      RefundsWhenDue(w, s);
    }
  }

  /** The plan exists exactly when the job is due, and refuses only when every timeout instruction would fail. */
  lemma PlanExact(w: World, id: JobId)
    requires JobsOk(w) && id in w.jobs
    ensures BuildTimeoutPlan(w, id, w.jobs[id].mint).Some?
            <==> !w.jobs[id].state.Terminal() && Due(w, id) <= w.clock
    ensures BuildTimeoutPlan(w, id, w.jobs[id].mint).None? ==>
              forall s :: Permissionless(s, id) ==> !Succeeds(w, s)
  {
    assert JobOk(id, w.jobs[id], w.flows[id], w.tokens, w.challenges, w.config.value);
    forall s | Permissionless(s, id) && Succeeds(w, s)
      ensures !w.jobs[id].state.Terminal() && Due(w, id) <= w.clock
    {
      NothingBeforeDue(w, id, s);
    }
  }

  /** From creation on: by this clock value, which the chain can reach, every stage is overdue. */
  function ResolutionTime(j: Job, c: Config): int {
    if j.autoSettleDeadline + c.challengeDuration <= I64_MAX then j.autoSettleDeadline + c.challengeDuration
    else I64_MAX
  }

  /**
   * No stuck funds. Fix a job in any reachable state. Whatever anyone does afterwards, within this incarnation
   * the job is finished or, from `ResolutionTime` on, a permissionless instruction finishes it.
   */
  lemma NoStuckFunds(w: World, before: seq<Step>, after: seq<Step>, id: JobId)
    requires Genesis(w) && id in Run(w, before).jobs
    requires Present(Run(w, before), after, id)
    ensures Run(w, before).config.Some?
    ensures ResolutionTime(Run(w, before).jobs[id], Run(w, before).config.value) <= I64_MAX
    ensures var r := Run(Run(w, before), after);
            && id in r.jobs
            && (|| r.jobs[id].state.Terminal()
                || (ResolutionTime(Run(w, before).jobs[id], Run(w, before).config.value) <= r.clock
                    && RecipientsUsable(r, id) ==>
                    exists s :: Permissionless(s, id) && Finishes(r, s, id)))
  {
    var u := Run(w, before);
    ReachableInv(w, before);
    RunKeepsInv(u, after);
    TermsAreFixed(u, after, id);
    var r := Run(u, after);
    assert ResolutionTime(r.jobs[id], r.config.value) == ResolutionTime(u.jobs[id], u.config.value);
    if !r.jobs[id].state.Terminal() && ResolutionTime(u.jobs[id], u.config.value) <= r.clock && RecipientsUsable(r, id) {
      OverdueIsResolvable(r, id);
    }
  }

  lemma OverdueIsResolvable(w: World, id: JobId)
    requires Inv(w) && id in w.jobs && !w.jobs[id].state.Terminal() && RecipientsUsable(w, id)
    requires ResolutionTime(w.jobs[id], w.config.value) <= w.clock
    ensures exists s :: Permissionless(s, id) && Finishes(w, s, id)
  {
    DueByResolutionTime(w, id);
    PlanSucceeds(w, id);
    PlanIsPermissionless(w, id, w.jobs[id].mint);
    var s := BuildTimeoutPlan(w, id, w.jobs[id].mint).value;
    assert Permissionless(s, id) && Finishes(w, s, id);
  }

  lemma PlanIsPermissionless(w: World, id: JobId, mint: Key)
    requires BuildTimeoutPlan(w, id, mint).Some?
    ensures Permissionless(BuildTimeoutPlan(w, id, mint).value, id)
  {
  }

  lemma DueByResolutionTime(w: World, id: JobId)
    requires ConfigOk(w) && JobsOk(w) && id in w.jobs && !w.jobs[id].state.Terminal()
    ensures Due(w, id) <= ResolutionTime(w.jobs[id], w.config.value)
  {
    assert JobOk(id, w.jobs[id], w.flows[id], w.tokens, w.challenges, w.config.value);
  }
}
