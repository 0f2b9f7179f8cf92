/** Who may touch bonds, vaults, configuration and keys, and what that does, read off the state before and after a step. */
module EscrowBondLaws {
  import opened Limits
  import opened Options
  import opened EscrowModel
  import opened EscrowSpec
  import opened EscrowInvariant
  import opened EscrowTheorems
  import opened EscrowLaws

  function DepositedOf(w: World, b: BondId): nat {
    if b in w.bonds then w.bonds[b].deposited else 0
  }

  function LockedOf(w: World, b: BondId): nat {
    if b in w.bonds then w.bonds[b].locked else 0
  }

  // ---- Bonds ----

  /** The provider takes unlocked bond out of its vault into a wallet of its own. */
  predicate Withdraws(w: World, s: Step, w': World, b: BondId) {
    && s.WithdrawBond? && s.bond == b && s.authority == b.provider && s.amount > 0
    && s.amount <= DepositedOf(w, b) - LockedOf(w, b)
    && DepositedOf(w', b) == DepositedOf(w, b) - s.amount && LockedOf(w', b) == LockedOf(w, b)
    && Balance(w'.tokens, Vault(b)) == Balance(w.tokens, Vault(b)) - s.amount
    && var to := Wallet(b.provider, b.mint, s.wallet);
    Balance(w'.tokens, to) == Balance(w.tokens, to) + s.amount
  }

  /** The admin burns the share of a challenged job of this bond. */
  predicate Slashes(w: World, s: Step, w': World, b: BondId) {
    && s.SlashBond? && w.config.Some? && s.admin == w.config.value.admin
    && s.id in w.jobs && BondOf(s.id, w.jobs[s.id]) == b
    && var share := w.jobs[s.id].lockedBond;
    && DepositedOf(w', b) == DepositedOf(w, b) - share && LockedOf(w', b) == LockedOf(w, b) - share
    && Balance(w'.tokens, Vault(b)) == Balance(w.tokens, Vault(b)) - share
  }

  /** The registered provider pays into its bond of the configured mint from a wallet of its own. */
  predicate Deposits(w: World, s: Step, w': World, b: BondId) {
    && s.DepositBond? && s.authority == b.provider && b.provider in w.providers && s.amount > 0
    && w.config.Some? && !w.config.value.paused && b.mint == w.config.value.mint
    && DepositedOf(w', b) == DepositedOf(w, b) + s.amount && LockedOf(w', b) == LockedOf(w, b)
    && Balance(w'.tokens, Vault(b)) == Balance(w.tokens, Vault(b)) + s.amount
    && var from := Wallet(b.provider, b.mint, s.wallet);
    Balance(w'.tokens, from) == Balance(w.tokens, from) - s.amount
  }

  /** The provider locks one minimum bond for a job of its own. */
  predicate Locking(w: World, s: Step, w': World, b: BondId) {
    && s.AcceptJob? && s.authority == b.provider && s.id in w.jobs && BondOf(s.id, w.jobs[s.id]) == b
    && w.config.Some? && w.config.value.minBond <= DepositedOf(w, b) - LockedOf(w, b)
    && DepositedOf(w', b) == DepositedOf(w, b) && LockedOf(w', b) == LockedOf(w, b) + w.config.value.minBond
  }

  /** A settlement or a refund releases the share of a job of this bond. */
  predicate Releases(w: World, s: Step, w': World, b: BondId) {
    && (s.AcceptWork? || s.ResolveTimeoutSettle? || s.ResolveRefund?) && s.id in w.jobs && BondOf(s.id, w.jobs[s.id]) == b
    && DepositedOf(w', b) == DepositedOf(w, b) && LockedOf(w', b) == LockedOf(w, b) - w.jobs[s.id].lockedBond
  }

  predicate LawfulBond(w: World, s: Step, w': World, b: BondId) {
    || (DepositedOf(w', b) == DepositedOf(w, b) && LockedOf(w', b) == LockedOf(w, b))
    || Withdraws(w, s, w', b) || Slashes(w, s, w', b) || Deposits(w, s, w', b) || Locking(w, s, w', b)
    || Releases(w, s, w', b)
  }

  lemma SlashIsLawful(w: World, s: Step, b: BondId)
    requires s.SlashBond? && CanSlash(w, s)
    ensures LawfulBond(w, s, Slash(w, s.id, s.bond), b)
  {
    if b == s.bond {
      SlashIsPaid(w.tokens, s.id, w.jobs[s.id]);
    }
  }

  lemma SettleReleases(w: World, s: Step, b: BondId)
    requires (s.AcceptWork? || s.ResolveTimeoutSettle?) && CanSettle(w, s.id, s.bond)
    ensures LawfulBond(w, s, Settle(w, s.id, s.bond), b)
  {
  }

  lemma RefundReleases(w: World, s: Step, b: BondId)
    requires s.ResolveRefund? && CanRefund(w, s)
    ensures LawfulBond(w, s, DoRefund(w, s), b)
  {
  }

  lemma PayIsLawful(w: World, s: Step, b: BondId)
    requires Succeeds(w, s) && Pays(s)
    ensures LawfulBond(w, s, After(w, s), b)
  {
    if s.SlashBond? {
      SlashIsLawful(w, s, b);
    } else if s.ResolveRefund? {
      RefundReleases(w, s, b);
    } else {
      SettleReleases(w, s, b);
    }
  }

  lemma DepositIsLawful(w: World, s: Step, b: BondId)
    requires s.DepositBond? && CanDeposit(w, s)
    ensures LawfulBond(w, s, DoDeposit(w, s), b)
  {
  }

  lemma WithdrawIsLawful(w: World, s: Step, b: BondId)
    requires s.WithdrawBond? && CanWithdraw(w, s)
    ensures LawfulBond(w, s, DoWithdraw(w, s), b)
  {
  }

  lemma AcceptIsLawful(w: World, s: Step, b: BondId)
    requires s.AcceptJob? && CanAccept(w, s)
    ensures LawfulBond(w, s, DoAccept(w, s), b)
  {
  }

  lemma OthersTouchNoBond(w: World, s: Step, b: BondId)
    requires Succeeds(w, s) && !Pays(s) && !s.DepositBond? && !s.WithdrawBond? && !s.AcceptJob?
    ensures After(w, s).bonds == w.bonds
  {
  }

  /** A bond changes only so: nobody but its provider takes tokens out by withdrawal, nobody but the admin slashes. */
  lemma BondsChangeLawfully(w: World, s: Step, b: BondId)
    ensures LawfulBond(w, s, Apply(w, s), b)
  {
    if Succeeds(w, s) {
      if Pays(s) {
        PayIsLawful(w, s, b);
      } else if s.DepositBond? {
        DepositIsLawful(w, s, b);
      } else if s.WithdrawBond? {
        WithdrawIsLawful(w, s, b);
      } else if s.AcceptJob? {
        AcceptIsLawful(w, s, b);
      } else {
        OthersTouchNoBond(w, s, b);
      }
    }
  }

  /** A bond exists from its first deposit on, with exactly that. */
  lemma BondAppears(w: World, s: Step, b: BondId)
    requires b !in w.bonds && b in Apply(w, s).bonds
    ensures Deposits(w, s, Apply(w, s), b) && Apply(w, s).bonds[b] == Bond(s.amount, 0)
  {
    if Pays(s) {
      PayoutsOpenNoBond(w, s, b);
    } else if s.DepositBond? {
      DepositIsLawful(w, s, b);
    } else if s.WithdrawBond? {
      WithdrawIsLawful(w, s, b);
    } else if !s.AcceptJob? {
      OthersTouchNoBond(w, s, b);
    }
  }

  lemma PayoutsOpenNoBond(w: World, s: Step, b: BondId)
    requires Succeeds(w, s) && Pays(s) && b !in w.bonds
    ensures b !in After(w, s).bonds
  {
  }

  /** Nothing is deposited or withdrawn by an amount of zero. */
  lemma ZeroIsRefused(w: World, s: Step)
    requires (s.DepositBond? || s.WithdrawBond?) && Succeeds(w, s)
    ensures s.amount > 0
  {
  }

  // ---- Vaults and escrows ----

  lemma PayoutsAndVaults(w: World, s: Step, b: BondId)
    requires Succeeds(w, s) && Pays(s) && Balance(After(w, s).tokens, Vault(b)) < Balance(w.tokens, Vault(b))
    ensures s.SlashBond? && Slashes(w, s, After(w, s), b)
  {
    if s.AcceptWork? || s.ResolveTimeoutSettle? {
      ProviderIsPaid(w.tokens, s.id, w.jobs[s.id]);
    } else if s.ResolveRefund? {
      BuyerIsPaid(w.tokens, s.id, w.jobs[s.id]);
    } else {
      SlashIsPaid(w.tokens, s.id, w.jobs[s.id]);
    }
  }

  lemma AdvancesAndVaults(w: World, s: Step, b: BondId)
    requires Succeeds(w, s) && Advances(s)
    ensures Balance(w.tokens, Vault(b)) <= Balance(After(w, s).tokens, Vault(b))
  {
  }

  lemma OthersAndVaults(w: World, s: Step, b: BondId)
    requires Succeeds(w, s) && !Pays(s) && !Advances(s) && !s.WithdrawBond?
    ensures Balance(w.tokens, Vault(b)) <= Balance(After(w, s).tokens, Vault(b))
  {
  }

  lemma WithdrawalsAndVaults(w: World, s: Step, b: BondId)
    requires s.WithdrawBond? && CanWithdraw(w, s) && Balance(DoWithdraw(w, s).tokens, Vault(b)) < Balance(w.tokens, Vault(b))
    ensures Withdraws(w, s, DoWithdraw(w, s), b)
  {
  }

  /** Tokens leave a vault only to its own provider by withdrawal, or by the admin's slash. */
  lemma VaultsPayLawfully(w: World, s: Step, b: BondId)
    requires Balance(Apply(w, s).tokens, Vault(b)) < Balance(w.tokens, Vault(b))
    ensures Withdraws(w, s, Apply(w, s), b) || Slashes(w, s, Apply(w, s), b)
  {
    if Pays(s) {
      PayoutsAndVaults(w, s, b);
    } else if Advances(s) {
      AdvancesAndVaults(w, s, b);
    } else if s.WithdrawBond? {
      WithdrawalsAndVaults(w, s, b);
    } else {
      OthersAndVaults(w, s, b);
    }
  }

  /** Tokens leave an escrow only by a payout of its job. */
  lemma EscrowsPayLawfully(w: World, s: Step, e: TokenAccount)
    requires e.Escrow? && Balance(Apply(w, s).tokens, e) < Balance(w.tokens, e)
    ensures Pays(s) && s.id == e.job
  {
    if Pays(s) {
      PayoutsAndEscrows(w, s, e);
    } else if Advances(s) {
      AdvancesAndEscrows(w, s, e);
    } else {
      OthersAndEscrows(w, s, e);
    }
  }

  lemma PayoutsAndEscrows(w: World, s: Step, e: TokenAccount)
    requires Succeeds(w, s) && Pays(s) && e.Escrow? && Balance(After(w, s).tokens, e) < Balance(w.tokens, e)
    ensures s.id == e.job
  {
    if s.AcceptWork? || s.ResolveTimeoutSettle? {
      ProviderIsPaid(w.tokens, s.id, w.jobs[s.id]);
    } else if s.ResolveRefund? {
      BuyerIsPaid(w.tokens, s.id, w.jobs[s.id]);
    } else {
      SlashIsPaid(w.tokens, s.id, w.jobs[s.id]);
    }
  }

  lemma AdvancesAndEscrows(w: World, s: Step, e: TokenAccount)
    requires Succeeds(w, s) && Advances(s) && e.Escrow?
    ensures Balance(w.tokens, e) <= Balance(After(w, s).tokens, e)
  {
  }

  lemma OthersAndEscrows(w: World, s: Step, e: TokenAccount)
    requires Succeeds(w, s) && !Advances(s) && !Pays(s) && e.Escrow?
    ensures Balance(w.tokens, e) <= Balance(After(w, s).tokens, e)
  {
  }

  // ---- Configuration ----

  /** The configuration is written once, as given, and then only paused or resumed by its admin. */
  predicate LawfulConfig(w: World, s: Step, w': World) {
    || w'.config == w.config
    || (&& w.config.None? && s.InitializeConfig? && s.minBond > 0 && s.challengeDuration > 0 && s.mint != 0 && s.genesis != 0
        && w'.config == Some(Config(s.admin, false, s.genesis, s.mint, s.minBond, s.challengeDuration)))
    || (&& w.config.Some? && s.SetPaused? && s.admin == w.config.value.admin
        && w'.config == Some(w.config.value.(paused := s.paused)))
  }

  lemma ConfigChangesLawfully(w: World, s: Step)
    ensures LawfulConfig(w, s, Apply(w, s))
  {
    if Succeeds(w, s) && !s.InitializeConfig? && !s.SetPaused? && !s.AdvanceClock? {
      SameConfig(w, s);
    }
  }

  lemma InitializationWorks(w: World, s: Step)
    requires s.InitializeConfig? && w.config.None? && ConfigAddress !in w.prefunded
    ensures 0 < s.minBond <= U64_MAX && 0 < s.challengeDuration <= I64_MAX && s.mint != 0 && s.genesis != 0 <==> Succeeds(w, s)
  {
  }

  /** The admin can always pause and resume. */
  lemma PausingWorks(w: World, paused: bool)
    requires w.config.Some?
    ensures Succeeds(w, SetPaused(w.config.value.admin, paused))
    ensures Apply(w, SetPaused(w.config.value.admin, paused)).config == Some(w.config.value.(paused := paused))
  {
  }

  // ---- Providers and keys ----

  /** A provider registers itself, once and without keys, and alone changes its keys, one at a time. */
  predicate LawfulKeys(w: World, s: Step, w': World, p: Key) {
    if p !in w.providers then
      p in w'.providers ==>
        s.RegisterProvider? && s.authority == p && w.config.Some? && !w.config.value.paused && w'.providers[p] == {}
    else
      && p in w'.providers
      && (|| w'.providers[p] == w.providers[p]
          || (s.AddExecutionKey? && s.authority == p && s.key != 0 && s.key !in w.providers[p] && |w.providers[p]| < 4
              && w'.providers[p] == w.providers[p] + {s.key})
          || (s.RevokeExecutionKey? && s.authority == p && s.key in w.providers[p]
              && w'.providers[p] == w.providers[p] - {s.key}))
  }

  lemma AdvancesKeepProviders(w: World, s: Step)
    requires Succeeds(w, s) && Advances(s)
    ensures After(w, s).providers == w.providers
  {
  }

  lemma PayoutsKeepProviders(w: World, s: Step)
    requires Succeeds(w, s) && Pays(s)
    ensures After(w, s).providers == w.providers
  {
  }

  lemma KeysChangeLawfully(w: World, s: Step, p: Key)
    ensures LawfulKeys(w, s, Apply(w, s), p)
  {
    if Succeeds(w, s) {
      if Advances(s) {
        AdvancesKeepProviders(w, s);
      } else if Pays(s) {
        PayoutsKeepProviders(w, s);
      } else {
        OthersKeepKeys(w, s, p);
      }
    }
  }

  lemma OthersKeepKeys(w: World, s: Step, p: Key)
    requires Succeeds(w, s) && !Advances(s) && !Pays(s)
    ensures LawfulKeys(w, s, After(w, s), p)
  {
  }

  /** While unpaused anyone can register, and a provider with room can always add a key and drop one of its own. */
  lemma KeysWork(w: World, p: Key, key: Key)
    ensures p !in w.providers && ProviderAddress(p) !in w.prefunded && w.config.Some? && !w.config.value.paused ==>
              Succeeds(w, RegisterProvider(p))
    ensures p in w.providers && key != 0 && key !in w.providers[p] && |w.providers[p]| < 4 ==>
              Succeeds(w, AddExecutionKey(p, key))
    ensures p in w.providers && key in w.providers[p] ==> Succeeds(w, RevokeExecutionKey(p, key))
  {
  }

  // ---- The challenge window ----

  lemma ChallengeStays(w: World, s: Step, id: JobId)
    requires Succeeds(w, s) && id in w.challenges && id in w.jobs && w.jobs[id].state.Challenged?
    requires id in After(w, s).jobs && After(w, s).jobs[id].state.Challenged?
    ensures id in After(w, s).challenges && After(w, s).challenges[id] == w.challenges[id]
  {
    if Pays(s) {
      PayoutsKeepChallenge(w, s, id);
    } else if Advances(s) {
      AdvancesKeepChallenge(w, s, id);
    }
  }

  lemma PayoutsKeepChallenge(w: World, s: Step, id: JobId)
    requires Succeeds(w, s) && Pays(s) && id in w.challenges && id in After(w, s).jobs && After(w, s).jobs[id].state.Challenged?
    ensures id in After(w, s).challenges && After(w, s).challenges[id] == w.challenges[id]
  {
  }

  lemma AdvancesKeepChallenge(w: World, s: Step, id: JobId)
    requires Succeeds(w, s) && Advances(s) && id in w.challenges
    ensures id in After(w, s).challenges && After(w, s).challenges[id] == w.challenges[id]
  {
  }

  lemma WindowStep(w: World, s: Step, id: JobId)
    requires w.config.Some? && id in w.jobs && id in Apply(w, s).jobs
    requires w.jobs[id].state.Challenged? || w.jobs[id].state.Terminal()
    requires w.jobs[id].state.Challenged? ==> id in w.challenges
    ensures var j' := Apply(w, s).jobs[id];
            && (j'.state.Challenged? || j'.state.Terminal())
            && (j'.state.Challenged? ==>
                  && w.jobs[id].state.Challenged?
                  && id in Apply(w, s).challenges && Apply(w, s).challenges[id] == w.challenges[id])
  {
    JobMovesLawfully(w, s, id);
    if Succeeds(w, s) && w.jobs[id].state.Challenged? && After(w, s).jobs[id].state.Challenged? {
      ChallengeStays(w, s, id);
    }
  }

  /** From its challenge on, a job is challenged with the same window, or finished. */
  lemma {:induction false} WindowStays(w: World, steps: seq<Step>, id: JobId)
    requires w.config.Some? && id in w.jobs && id in w.challenges && w.jobs[id].state.Challenged? && Present(w, steps, id)
    ensures var r := Run(w, steps);
            && id in r.jobs && (r.jobs[id].state.Challenged? || r.jobs[id].state.Terminal())
            && (r.jobs[id].state.Challenged? ==> id in r.challenges && r.challenges[id] == w.challenges[id])
  {
    if steps == [] {
    } else {
      var init, s := steps[..|steps| - 1], steps[|steps| - 1];
      forall k | 0 <= k <= |init| ensures id in Run(w, init[..k]).jobs {
        assert init[..k] == steps[..k];
      }
      WindowStays(w, init, id);
      ConfigIsFixed(w, init);
      assert steps[..|steps|] == steps;
      WindowStep(Run(w, init), s, id);
    }
  }

  /** The admin's slash of a job, on its own bond. */
  function SlashOf(w: World, id: JobId): Step
    requires id in w.jobs && w.config.Some?
  {
    SlashBond(w.config.value.admin, id, BondOf(id, w.jobs[id]))
  }

  /** Below its deadline a challenge can be slashed and not settled; from it on the reverse. */
  ghost predicate OpenWindow(r: World, id: JobId)
    requires id in r.jobs && r.config.Some?
  {
    Succeeds(r, SlashOf(r, id)) && forall s: Step :: s.ResolveTimeoutSettle? && s.id == id ==> !Succeeds(r, s)
  }

  ghost predicate ClosedWindow(r: World, id: JobId)
    requires id in r.jobs
  {
    && (RecipientsUsable(r, id) ==> Succeeds(r, ResolveTimeoutSettle(id, BondOf(id, r.jobs[id]), Some(id))))
    && forall s: Step :: s.SlashBond? && s.id == id ==> !Succeeds(r, s)
  }

  lemma WindowAt(r: World, id: JobId)
    requires Inv(r) && id in r.jobs && r.jobs[id].state.Challenged? && BuyerWallet(id, r.jobs[id]) in r.tokens
    requires id in r.challenges && r.config.Some?
    ensures if r.clock < r.challenges[id].deadline then OpenWindow(r, id) else ClosedWindow(r, id)
  {
    if r.clock < r.challenges[id].deadline {
      SlashWorks(r, id);
      NoSettlementWithin(r, id);
    } else {
      if RecipientsUsable(r, id) {
        SettlementAfter(r, id);
      }
      NoSlashAfter(r, id);
    }
  }

  lemma ChallengeOpens(w: World, id: JobId, reason: Key)
    requires id in w.jobs && w.config.Some? && Succeeds(w, ChallengeWork(id.buyer, id, reason))
    ensures var v := Apply(w, ChallengeWork(id.buyer, id, reason));
            && id in v.jobs && v.jobs[id].state.Challenged? && id in v.challenges && v.config == w.config
            && v.challenges[id].deadline == w.clock + w.config.value.challengeDuration
  {
  }

  /**
   * The challenge window over runs. After a challenge at clock c, as long as the job stays challenged: below
   * c + duration the admin's slash succeeds and no timeout settlement does; from c + duration on it is the reverse.
   */
  lemma ChallengeWindow(w: World, id: JobId, reason: Key, steps: seq<Step>)
    requires Inv(w) && id in w.jobs && Succeeds(w, ChallengeWork(id.buyer, id, reason)) && w.config.Some?
    requires Present(Apply(w, ChallengeWork(id.buyer, id, reason)), steps, id)
    requires var r := Run(Apply(w, ChallengeWork(id.buyer, id, reason)), steps);
             id in r.jobs && r.jobs[id].state.Challenged? && BuyerWallet(id, r.jobs[id]) in r.tokens
    ensures var r := Run(Apply(w, ChallengeWork(id.buyer, id, reason)), steps);
            && r.config.Some? && r.config.value.admin == w.config.value.admin
            && if r.clock < w.clock + w.config.value.challengeDuration then OpenWindow(r, id) else ClosedWindow(r, id)
  {
    var v := Apply(w, ChallengeWork(id.buyer, id, reason));
    StepKeepsInv(w, ChallengeWork(id.buyer, id, reason));
    ChallengeOpens(w, id, reason);
    WindowStays(v, steps, id);
    ConfigIsFixed(v, steps);
    RunKeepsInv(v, steps);
    WindowAt(Run(v, steps), id);
  }

  lemma NoSettlementWithin(r: World, id: JobId)
    requires id in r.jobs && r.jobs[id].state.Challenged? && id in r.challenges && r.clock < r.challenges[id].deadline
    ensures forall s: Step :: s.ResolveTimeoutSettle? && s.id == id ==> !Succeeds(r, s)
  {
    forall s: Step | s.ResolveTimeoutSettle? && s.id == id ensures !Succeeds(r, s) {
      assert !CanTimeoutSettle(r, s);
    }
  }

  lemma NoSlashAfter(r: World, id: JobId)
    requires id in r.challenges && r.challenges[id].deadline <= r.clock
    ensures forall s: Step :: s.SlashBond? && s.id == id ==> !Succeeds(r, s)
  {
    forall s: Step | s.SlashBond? && s.id == id ensures !Succeeds(r, s) {
      assert !CanSlash(r, s);
    }
  }

  lemma SettlementAfter(r: World, id: JobId)
    requires Inv(r) && id in r.jobs && r.jobs[id].state.Challenged? && RecipientsUsable(r, id)
    requires id in r.challenges && r.challenges[id].deadline <= r.clock
    ensures Succeeds(r, ResolveTimeoutSettle(id, BondOf(id, r.jobs[id]), Some(id)))
  {
    SupplyFits(r, r.jobs[id].mint);
    SettleReady(r, id);
    OpenChallenge(r, id);
  }
}
