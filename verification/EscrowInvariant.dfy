/** The inductive invariant of the escrow and bond protocol, kept by every step. */
module EscrowInvariant {
  import opened Limits
  import opened Options
  import opened Sums
  import opened EscrowModel
  import opened EscrowSpec

  // ---- Sums across accounts ----

  /** The locks held against bond `b`, job by job. */
  ghost function Locks(jobs: map<JobId, Job>, b: BondId): map<JobId, nat> {
    map id | id in jobs && BondOf(id, jobs[id]) == b :: jobs[id].lockedBond
  }

  /** The token balances of one mint. */
  ghost function Holdings(t: Ledger, m: Key): map<TokenAccount, nat> {
    map a | a in t && a.Mint() == m :: t[a]
  }

  ghost function Supply(t: Ledger, m: Key): nat {
    Sum(Holdings(t, m))
  }

  /** Rewriting one job moves the sum of locks of its own bond by the difference, and no other sum. */
  lemma LocksUpdate(jobs: map<JobId, Job>, id: JobId, j: Job, b: BondId)
    requires id in jobs ==> jobs[id].mint == j.mint
    ensures BondOf(id, j) == b ==>
              Sum(Locks(jobs[id := j], b)) + (if id in jobs then jobs[id].lockedBond else 0)
              == Sum(Locks(jobs, b)) + j.lockedBond
    ensures BondOf(id, j) != b ==> Sum(Locks(jobs[id := j], b)) == Sum(Locks(jobs, b))
  {
    if BondOf(id, j) == b {
      assert Locks(jobs[id := j], b) == Locks(jobs, b)[id := j.lockedBond];
      SumUpdate(Locks(jobs, b), id, j.lockedBond);
    } else {
      assert Locks(jobs[id := j], b) == Locks(jobs, b);
    }
  }

  lemma LocksClose(jobs: map<JobId, Job>, id: JobId, b: BondId)
    requires id in jobs && jobs[id].lockedBond == 0
    ensures Sum(Locks(jobs - {id}, b)) == Sum(Locks(jobs, b))
  {
    var all := Locks(jobs, b);
    if id in all {
      SumRemove(all, id);
      assert Locks(jobs - {id}, b) == all - {id};
    } else {
      assert Locks(jobs - {id}, b) == all;
    }
  }

  lemma LockAtMostSum(jobs: map<JobId, Job>, id: JobId)
    requires id in jobs
    ensures jobs[id].lockedBond <= Sum(Locks(jobs, BondOf(id, jobs[id])))
  {
    SumRemove(Locks(jobs, BondOf(id, jobs[id])), id);
  }

  lemma SetBalance(t: Ledger, a: TokenAccount, v: nat, m: Key)
    requires a in t
    ensures a.Mint() == m ==> Supply(t[a := v], m) + t[a] == Supply(t, m) + v
    ensures a.Mint() != m ==> Supply(t[a := v], m) == Supply(t, m)
  {
    if a.Mint() == m {
      assert Holdings(t[a := v], m) == Holdings(t, m)[a := v];
      SumUpdate(Holdings(t, m), a, v);
    } else {
      assert Holdings(t[a := v], m) == Holdings(t, m);
    }
  }

  /** A transfer within one mint conserves the supply of every mint. */
  lemma MoveConserves(t: Ledger, from: TokenAccount, to: TokenAccount, amount: nat, m: Key)
    requires from in t && to in t && amount <= t[from] && from.Mint() == to.Mint()
    ensures Supply(Move(t, from, to, amount), m) == Supply(t, m)
  {
    SetBalance(t, from, t[from] - amount, m);
    var debited := t[from := t[from] - amount];
    SetBalance(debited, to, debited[to] + amount, m);
  }

  lemma OpenConserves(t: Ledger, a: TokenAccount, m: Key)
    requires a !in t
    ensures Supply(t[a := 0], m) == Supply(t, m)
  {
    if a.Mint() == m {
      assert Holdings(t[a := 0], m) == Holdings(t, m)[a := 0];
      SumUpdate(Holdings(t, m), a, 0);
    } else {
      assert Holdings(t[a := 0], m) == Holdings(t, m);
    }
  }

  lemma DropConserves(t: Ledger, a: TokenAccount, m: Key)
    requires a in t ==> t[a] == 0
    ensures Supply(t - {a}, m) == Supply(t, m)
  {
    if a in t && a.Mint() == m {
      SumRemove(Holdings(t, m), a);
      assert Holdings(t - {a}, m) == Holdings(t, m) - {a};
    } else {
      assert Holdings(t - {a}, m) == Holdings(t, m);
    }
  }

  /** With the whole supply in 64 bits no recipient can overflow. */
  lemma MoveFits(t: Ledger, from: TokenAccount, to: TokenAccount, amount: nat)
    requires from in t && to in t && amount <= t[from] && from.Mint() == to.Mint()
    requires Supply(t, from.Mint()) <= U64_MAX
    ensures CanMove(t, from, to, amount)
  {
    if from != to {
      SumTwo(Holdings(t, from.Mint()), from, to);
    }
  }

  // ---- The invariant ----

  predicate Ordered(j: Job) {
    j.fundDeadline < j.acceptDeadline < j.workDeadline < j.autoSettleDeadline <= I64_MAX
  }

  /** How much of the principal has entered and left, state by state: in once, out once, to one side. */
  predicate PrincipalOk(j: Job, f: Flow, c: Config) {
    match j.state
    case Created => f.funded == f.toProvider == f.toBuyer == f.surplus == f.slashed == 0
    case Expired => f.funded == f.toProvider == f.toBuyer == f.surplus == f.slashed == 0
    case Settled => f.carried == 0 && f.funded == f.toProvider == j.amount && f.toBuyer == f.slashed == 0
    case Refunded => f.carried == 0 && f.funded == f.toBuyer == j.amount && f.toProvider == f.slashed == 0
    case Slashed =>
      && f.carried == 0 && f.funded == f.toBuyer == j.amount && f.toProvider == 0
      && f.slashed == c.minBond
    case _ => f.carried == 0 && f.funded == j.amount && f.toProvider == f.toBuyer == f.surplus == f.slashed == 0
  }

  predicate ReceiptOk(id: JobId, j: Job, c: Config) {
    if j.state.Submitted? || j.state.Challenged? || j.state.Settled? || j.state.Slashed? then
      j.receipt.Some? && BoundTo(j.receipt.value, id, j, c.genesis)
    else j.receipt.None?
  }

  /** The challenge account exists exactly while the job is challenged, for the job's own buyer. */
  predicate ChallengeOk(id: JobId, j: Job, challenges: map<JobId, Challenge>, c: Config) {
    && (id in challenges <==> j.state.Challenged?)
    && (id in challenges ==>
          && challenges[id].open && challenges[id].buyer == id.buyer
          && challenges[id].deadline <= I64_MAX
          && challenges[id].deadline < j.autoSettleDeadline + c.challengeDuration)
  }

  predicate JobOk(id: JobId, j: Job, f: Flow, t: Ledger, challenges: map<JobId, Challenge>, c: Config) {
    && j.mint == c.mint && 0 < j.amount <= U64_MAX && Ordered(j)
    && j.lockedBond == (if j.state.HoldsBond() then c.minBond else 0)
    && Balance(t, EscrowOf(id, j)) + f.toProvider + f.toBuyer + f.surplus == f.carried + f.donated + f.funded
    && (j.state.HoldsPrincipal() ==> EscrowOf(id, j) in t)
    && PrincipalOk(j, f, c) && ReceiptOk(id, j, c) && ChallengeOk(id, j, challenges, c)
  }

  /** A bond's own ledger: what came in, what went out, and what the vault must hold. */
  predicate BookOk(b: BondId, bond: Bond, bf: BondFlow, t: Ledger) {
    && bond.locked <= bond.deposited
    && bond.deposited + bf.withdrawals + bf.slashes == bf.deposits
    && Vault(b) in t && t[Vault(b)] == bond.deposited + bf.donated
  }

  /** Every mint records exactly the tokens that accounts hold, within 64 bits. */
  ghost predicate SupplyOk(w: World) {
    forall m :: Supply(w.tokens, m) == Issued(w, m) <= U64_MAX
  }

  ghost predicate JobsOk(w: World) {
    && w.flows.Keys == w.jobs.Keys && w.challenges.Keys <= w.jobs.Keys
    && (w.config.None? ==> w.jobs == map[])
    && (forall id :: id in w.jobs ==>
          JobOk(id, w.jobs[id], w.flows[id], w.tokens, w.challenges, w.config.value))
  }

  ghost predicate BooksOk(w: World) {
    && w.bondFlows.Keys == w.bonds.Keys
    && (forall b :: b in w.bonds ==> BookOk(b, w.bonds[b], w.bondFlows[b], w.tokens))
  }

  /** Each bond's running total is the sum of the shares held by the separate job accounts. */
  ghost predicate LocksOk(w: World) {
    && (forall b :: b in w.bonds ==> w.bonds[b].locked == Sum(Locks(w.jobs, b)))
    && (forall id :: id in w.jobs && w.jobs[id].lockedBond > 0 ==> BondOf(id, w.jobs[id]) in w.bonds)
  }

  predicate ConfigOk(w: World) {
    && w.clock <= I64_MAX
    && (w.config.Some? ==> 0 < w.config.value.minBond <= U64_MAX && 0 < w.config.value.challengeDuration <= I64_MAX)
  }

  ghost predicate Inv(w: World) {
    ConfigOk(w) && SupplyOk(w) && JobsOk(w) && BooksOk(w) && LocksOk(w)
  }

  // ---- Supply: every step conserves it ----

  lemma ProviderPaymentConserves(t: Ledger, id: JobId, j: Job, m: Key)
    requires CanPayProvider(t, id, j)
    ensures Supply(PayProvider(t, id, j), m) == Supply(t, m)
  {
    var e, bw := EscrowOf(id, j), BuyerWallet(id, j);
    MoveConserves(t, e, bw, t[e] - j.amount, m);
    MoveConserves(Move(t, e, bw, t[e] - j.amount), e, ProviderWallet(id, j), j.amount, m);
  }

  lemma BuyerPaymentConserves(t: Ledger, id: JobId, j: Job, m: Key)
    requires CanPayBuyer(t, id, j)
    ensures Supply(PayBuyer(t, id, j), m) == Supply(t, m)
  {
    MoveConserves(t, EscrowOf(id, j), BuyerWallet(id, j), t[EscrowOf(id, j)], m);
  }

  lemma SlashPaymentConserves(t: Ledger, id: JobId, j: Job, b: BondId, m: Key)
    requires CanPaySlash(t, id, j, b)
    ensures Supply(PaySlash(t, id, j, b), m) == Supply(t, m)
  {
    BuyerPaymentConserves(t, id, j, m);
    MoveConserves(PayBuyer(t, id, j), Vault(b), BuyerWallet(id, j), j.lockedBond, m);
  }

  lemma PaymentsConserve(w: World, s: Step, m: Key)
    requires Succeeds(w, s) && Pays(s)
    ensures Supply(After(w, s).tokens, m) == Supply(w.tokens, m)
  {
    var t, id, j := w.tokens, s.id, w.jobs[s.id];
    if s.AcceptWork? || s.ResolveTimeoutSettle? {
      ProviderPaymentConserves(t, id, j, m);
    } else if s.ResolveRefund? {
      BuyerPaymentConserves(t, id, j, m);
    } else {
      SlashPaymentConserves(t, id, j, s.bond, m);
    }
  }

  /** Only minting and burning change what a mint records. */
  lemma SameIssue(w: World, s: Step)
    requires Succeeds(w, s) && !s.MintTokens? && !s.BurnTokens?
    ensures After(w, s).issued == w.issued
  {
    if Advances(s) {
      SameIssueAdvance(w, s);
    } else if Pays(s) {
      SameIssuePay(w, s);
    } else {
      SameIssueRest(w, s);
    }
  }

  lemma SameIssueAdvance(w: World, s: Step)
    requires Succeeds(w, s) && Advances(s)
    ensures After(w, s).issued == w.issued
  {
  }

  lemma SameIssuePay(w: World, s: Step)
    requires Succeeds(w, s) && Pays(s)
    ensures After(w, s).issued == w.issued
  {
  }

  lemma SameIssueRest(w: World, s: Step)
    requires Succeeds(w, s) && !Advances(s) && !Pays(s) && !s.MintTokens? && !s.BurnTokens?
    ensures After(w, s).issued == w.issued
  {
  }

  /** Every step but minting and burning conserves the supply of every mint. */
  lemma MovesConserve(w: World, s: Step, m: Key)
    requires Succeeds(w, s) && !s.MintTokens? && !s.BurnTokens?
    ensures Supply(After(w, s).tokens, m) == Supply(w.tokens, m)
  {
    var t := w.tokens;
    match s
    case DepositBond(a, i, x) =>
      var b := DepositTarget(w, s);
      MoveConserves(t, Wallet(a, b.mint, i), Vault(b), x, m);
    case WithdrawBond(a, b, i, x) => MoveConserves(t, Vault(b), Wallet(a, b.mint, i), x, m);
    case FundJob(buyer, id, i) =>
      MoveConserves(t, Wallet(buyer, w.jobs[id].mint, i), EscrowOf(id, w.jobs[id]), w.jobs[id].amount, m);
    case AcceptWork(_, _, _) => PaymentsConserve(w, s, m);
    case ResolveTimeoutSettle(_, _, _) => PaymentsConserve(w, s, m);
    case ResolveRefund(_, _, _) => PaymentsConserve(w, s, m);
    case SlashBond(_, _, _) => PaymentsConserve(w, s, m);
    case CloseJob(_, _, Some(e)) => DropConserves(t, e, m);
    case OpenTokenAccount(a) => OpenConserves(t, a, m);
    case CloseWallet(a) => DropConserves(t, a, m);
    case UserTransfer(from, to, x) => MoveConserves(t, from, to, x, m);
    case _ =>
  }

  /** What accounts hold and what the mint records change by the same amount. */
  lemma StepConserves(w: World, s: Step, m: Key)
    ensures Supply(Apply(w, s).tokens, m) - Issued(Apply(w, s), m) == Supply(w.tokens, m) - Issued(w, m)
  {
    if Succeeds(w, s) {
      if s.MintTokens? {
        SetBalance(w.tokens, s.to, w.tokens[s.to] + s.amount, m);
      } else if s.BurnTokens? {
        SetBalance(w.tokens, s.from, w.tokens[s.from] - s.amount, m);
      } else {
        MovesConserve(w, s, m);
        SameIssue(w, s);
      }
    }
  }

  lemma IssueFits(w: World, s: Step, m: Key)
    requires Issued(w, m) <= U64_MAX
    ensures Issued(Apply(w, s), m) <= U64_MAX
  {
    if Succeeds(w, s) && !s.MintTokens? && !s.BurnTokens? {
      SameIssue(w, s);
    }
  }

  lemma KeepSupply(w: World, s: Step)
    requires SupplyOk(w)
    ensures SupplyOk(Apply(w, s))
  {
    forall m ensures Supply(Apply(w, s).tokens, m) == Issued(Apply(w, s), m) <= U64_MAX {
      assert Supply(w.tokens, m) == Issued(w, m) <= U64_MAX;
      StepConserves(w, s, m);
      IssueFits(w, s, m);
    }
  }

  // ---- What the payments do to escrows and vaults ----

  /** Escrows other than `e` are untouched. */
  ghost predicate SameEscrows(t: Ledger, t': Ledger, e: TokenAccount) {
    forall a: TokenAccount :: a.Escrow? && a != e ==> (a in t <==> a in t') && Balance(t, a) == Balance(t', a)
  }

  /** Vaults other than `v` are untouched. */
  ghost predicate SameVaults(t: Ledger, t': Ledger, v: TokenAccount) {
    forall a: TokenAccount :: a.Vault? && a != v ==> (a in t <==> a in t') && Balance(t, a) == Balance(t', a)
  }

  /** A settled escrow is empty; no other escrow and no vault has moved. */
  lemma AfterPayProvider(t: Ledger, id: JobId, j: Job)
    requires CanPayProvider(t, id, j)
    ensures Balance(PayProvider(t, id, j), EscrowOf(id, j)) == 0
    ensures SameEscrows(t, PayProvider(t, id, j), EscrowOf(id, j))
    ensures SameVaults(t, PayProvider(t, id, j), EscrowOf(id, j))
  {
  }

  lemma AfterPayBuyer(t: Ledger, id: JobId, j: Job)
    requires CanPayBuyer(t, id, j)
    ensures Balance(PayBuyer(t, id, j), EscrowOf(id, j)) == 0
    ensures SameEscrows(t, PayBuyer(t, id, j), EscrowOf(id, j))
    ensures SameVaults(t, PayBuyer(t, id, j), EscrowOf(id, j))
  {
  }

  lemma AfterPaySlash(t: Ledger, id: JobId, j: Job, b: BondId)
    requires CanPaySlash(t, id, j, b)
    ensures Balance(PaySlash(t, id, j, b), EscrowOf(id, j)) == 0
    ensures SameEscrows(t, PaySlash(t, id, j, b), EscrowOf(id, j))
    ensures SameVaults(t, PaySlash(t, id, j, b), Vault(b))
    ensures Vault(b) in t && Vault(b) in PaySlash(t, id, j, b)
    ensures PaySlash(t, id, j, b)[Vault(b)] == t[Vault(b)] - j.lockedBond
  {
  }

  lemma SlashEscrows(t: Ledger, id: JobId, j: Job, b: BondId)
    requires CanPaySlash(t, id, j, b)
    ensures Balance(PaySlash(t, id, j, b), EscrowOf(id, j)) == 0
    ensures SameEscrows(t, PaySlash(t, id, j, b), EscrowOf(id, j))
  {
    AfterPaySlash(t, id, j, b);
  }

  // ---- One job, step by step, on values ----

  lemma SubmittedOk(id: JobId, j: Job, f: Flow, t: Ledger, ch: map<JobId, Challenge>, c: Config, r: Receipt)
    requires JobOk(id, j, f, t, ch, c) && j.state.Accepted? && BoundTo(r, id, j, c.genesis)
    ensures JobOk(id, j.(state := Submitted, receipt := Some(r)), f, t, ch, c)
  {
  }

  lemma ChallengedOk(id: JobId, j: Job, f: Flow, t: Ledger, ch: map<JobId, Challenge>, c: Config, x: Challenge)
    requires JobOk(id, j, f, t, ch, c) && j.state.Submitted?
    requires x.open && x.buyer == id.buyer && x.deadline <= I64_MAX
    requires x.deadline < j.autoSettleDeadline + c.challengeDuration
    ensures JobOk(id, j.(state := Challenged), f, t, ch[id := x], c)
  {
  }

  lemma AcceptedOk(id: JobId, j: Job, f: Flow, t: Ledger, ch: map<JobId, Challenge>, c: Config)
    requires JobOk(id, j, f, t, ch, c) && j.state.Funded?
    ensures JobOk(id, j.(state := Accepted, lockedBond := c.minBond), f, t, ch, c)
  {
  }

  /** A job that has paid out: the escrow is empty, the whole surplus went to the buyer. */
  lemma PaidOutOk(id: JobId, j: Job, f: Flow, t: Ledger, t': Ledger,
                  ch: map<JobId, Challenge>, ch': map<JobId, Challenge>, c: Config, to: JobState, f': Flow)
    requires JobOk(id, j, f, t, ch, c) && j.state.HoldsPrincipal() && id !in ch'
    requires to.Settled? ==> j.state.Submitted? || j.state.Challenged?
    requires to.Refunded? ==> j.state.Funded? || j.state.Accepted?
    requires to.Slashed? ==> j.state.Challenged?
    requires to.Settled? || to.Refunded? || to.Slashed?
    requires Balance(t', EscrowOf(id, j)) == 0
    requires f' == f.(toProvider := if to.Settled? then j.amount else 0,
                      toBuyer := if to.Settled? then 0 else j.amount,
                      surplus := t[EscrowOf(id, j)] - j.amount,
                      slashed := if to.Slashed? then j.lockedBond else 0)
    ensures JobOk(id, j.(state := to, lockedBond := 0), f', t', ch', c)
  {
  }

  // ---- Jobs: every step keeps them in order ----

  predicate OneChallenge(before: map<JobId, Challenge>, after: map<JobId, Challenge>, id: JobId) {
    || after == before
    || after == before - {id}
    || (id in after && after == before[id := after[id]])
  }

  lemma SameJob(id: JobId, j: Job, f: Flow, t: Ledger, t': Ledger,
                ch: map<JobId, Challenge>, ch': map<JobId, Challenge>, c: Config)
    requires JobOk(id, j, f, t, ch, c)
    requires EscrowOf(id, j) in t <==> EscrowOf(id, j) in t'
    requires Balance(t, EscrowOf(id, j)) == Balance(t', EscrowOf(id, j))
    requires id in ch <==> id in ch'
    requires id in ch ==> ch[id] == ch'[id]
    ensures JobOk(id, j, f, t', ch', c)
  {
  }

  /** Rewriting one job, its flow, its challenge and its escrow leaves all other jobs in order. */
  lemma OneJob(w: World, w': World, id: JobId)
    requires JobsOk(w) && w.config.Some? && w'.config == w.config
    requires id in w'.jobs && w'.jobs == w.jobs[id := w'.jobs[id]]
    requires id in w'.flows && w'.flows == w.flows[id := w'.flows[id]]
    requires OneChallenge(w.challenges, w'.challenges, id)
    requires SameEscrows(w.tokens, w'.tokens, EscrowOf(id, w'.jobs[id]))
    requires JobOk(id, w'.jobs[id], w'.flows[id], w'.tokens, w'.challenges, w.config.value)
    ensures JobsOk(w')
  {
    forall i | i in w'.jobs
      ensures JobOk(i, w'.jobs[i], w'.flows[i], w'.tokens, w'.challenges, w'.config.value)
    {
      if i != id {
        OtherJob(w, w', id, i);
      }
    }
  }

  lemma OtherJob(w: World, w': World, id: JobId, i: JobId)
    requires JobsOk(w) && w.config.Some? && i in w.jobs && i != id
    requires OneChallenge(w.challenges, w'.challenges, id)
    requires SameEscrows(w.tokens, w'.tokens, Escrow(id, w.config.value.mint))
    ensures JobOk(i, w.jobs[i], w.flows[i], w'.tokens, w'.challenges, w.config.value)
  {
    assert EscrowOf(i, w.jobs[i]) != Escrow(id, w.config.value.mint);
    SameJob(i, w.jobs[i], w.flows[i], w.tokens, w'.tokens, w.challenges, w'.challenges, w.config.value);
  }

  lemma JobAt(w: World, id: JobId)
    requires JobsOk(w) && id in w.jobs
    ensures id in w.flows && w.config.Some?
    ensures JobOk(id, w.jobs[id], w.flows[id], w.tokens, w.challenges, w.config.value)
  {
  }

  lemma CreateJobs(w: World, s: Step)
    requires JobsOk(w) && s.CreateJob? && CanCreate(w, s)
    ensures JobsOk(DoCreate(w, s))
  {
    OneJob(w, DoCreate(w, s), s.id);
  }

  lemma FundedOk(id: JobId, j: Job, f: Flow, t: Ledger, t': Ledger, ch: map<JobId, Challenge>, c: Config)
    requires JobOk(id, j, f, t, ch, c) && j.state.Created? && Balance(t, EscrowOf(id, j)) == 0
    requires EscrowOf(id, j) in t' && t'[EscrowOf(id, j)] == j.amount
    ensures JobOk(id, j.(state := Funded), f.(funded := f.funded + j.amount), t', ch, c)
  {
  }

  lemma FundEscrows(t: Ledger, from: TokenAccount, escrow: TokenAccount, amount: nat)
    requires from.Wallet? && escrow.Escrow? && CanMove(t, from, escrow, amount) && t[escrow] == 0
    ensures escrow in Move(t, from, escrow, amount) && Move(t, from, escrow, amount)[escrow] == amount
    ensures SameEscrows(t, Move(t, from, escrow, amount), escrow)
  {
  }

  lemma FundJobs(w: World, s: Step)
    requires JobsOk(w) && s.FundJob? && CanFund(w, s)
    ensures JobsOk(DoFund(w, s))
  {
    var j, w' := w.jobs[s.id], DoFund(w, s);
    JobAt(w, s.id);
    FundEscrows(w.tokens, Wallet(s.buyer, j.mint, s.wallet), EscrowOf(s.id, j), j.amount);
    FundedOk(s.id, w.jobs[s.id], w.flows[s.id], w.tokens, w'.tokens, w.challenges, w.config.value);
    OneJob(w, w', s.id);
  }

  lemma AcceptJobs(w: World, s: Step)
    requires JobsOk(w) && s.AcceptJob? && CanAccept(w, s)
    ensures JobsOk(DoAccept(w, s))
  {
    JobAt(w, s.id);
    AcceptedOk(s.id, w.jobs[s.id], w.flows[s.id], w.tokens, w.challenges, w.config.value);
    OneJob(w, DoAccept(w, s), s.id);
  }

  lemma SubmitJobs(w: World, s: Step)
    requires JobsOk(w) && s.SubmitReceipt? && CanSubmit(w, s)
    ensures JobsOk(DoSubmit(w, s))
  {
    JobAt(w, s.id);
    SubmittedOk(s.id, w.jobs[s.id], w.flows[s.id], w.tokens, w.challenges, w.config.value, s.receipt);
    OneJob(w, DoSubmit(w, s), s.id);
  }

  lemma ChallengeJobs(w: World, s: Step)
    requires JobsOk(w) && s.ChallengeWork? && CanChallenge(w, s)
    ensures JobsOk(DoChallenge(w, s))
  {
    JobAt(w, s.id);
    var w' := DoChallenge(w, s);
    ChallengedOk(s.id, w.jobs[s.id], w.flows[s.id], w.tokens, w.challenges, w.config.value, w'.challenges[s.id]);
    OneJob(w, w', s.id);
  }

  lemma ExpiredOk(id: JobId, j: Job, f: Flow, t: Ledger, ch: map<JobId, Challenge>, c: Config)
    requires JobOk(id, j, f, t, ch, c) && j.state.Created?
    ensures JobOk(id, j.(state := Expired), f, t, ch, c)
  {
  }

  lemma ExpireJobs(w: World, s: Step)
    requires JobsOk(w) && s.ExpireUnfunded? && CanExpire(w, s)
    ensures JobsOk(DoExpire(w, s))
  {
    JobAt(w, s.id);
    ExpiredOk(s.id, w.jobs[s.id], w.flows[s.id], w.tokens, w.challenges, w.config.value);
    OneJob(w, DoExpire(w, s), s.id);
  }

  /** Settlement, with the challenge account gone if there was one. */
  ghost function SettledWorld(w: World, id: JobId, b: BondId): World requires CanSettle(w, id, b) {
    var settled := Settle(w, id, b);
    if w.jobs[id].state.Challenged? then settled.(challenges := w.challenges - {id}) else settled
  }

  lemma SettleJobs(w: World, id: JobId, b: BondId)
    requires JobsOk(w) && CanSettle(w, id, b)
    requires w.jobs[id].state.Submitted? || w.jobs[id].state.Challenged?
    ensures JobsOk(SettledWorld(w, id, b))
  {
    var j, w' := w.jobs[id], SettledWorld(w, id, b);
    JobAt(w, id);
    AfterPayProvider(w.tokens, id, j);
    PaidOutOk(id, j, w.flows[id], w.tokens, w'.tokens, w.challenges, w'.challenges, w.config.value, Settled, w'.flows[id]);
    OneJob(w, w', id);
  }

  lemma RefundJobs(w: World, s: Step)
    requires JobsOk(w) && s.ResolveRefund? && CanRefund(w, s)
    ensures JobsOk(DoRefund(w, s))
  {
    var id, j, w' := s.id, w.jobs[s.id], DoRefund(w, s);
    JobAt(w, id);
    AfterPayBuyer(w.tokens, id, j);
    PaidOutOk(id, j, w.flows[id], w.tokens, w'.tokens, w.challenges, w'.challenges, w.config.value, Refunded, w'.flows[id]);
    OneJob(w, w', id);
  }

  lemma SlashedOk(id: JobId, j: Job, f: Flow, t: Ledger, t': Ledger,
                  ch: map<JobId, Challenge>, ch': map<JobId, Challenge>, c: Config)
    requires JobOk(id, j, f, t, ch, c) && j.state.Challenged? && id !in ch' && Balance(t', EscrowOf(id, j)) == 0
    ensures var f' := f.(toBuyer := f.toBuyer + j.amount, surplus := f.surplus + (t[EscrowOf(id, j)] - j.amount),
                         slashed := f.slashed + j.lockedBond);
            JobOk(id, j.(state := Slashed, lockedBond := 0), f', t', ch', c)
  {
  }

  lemma SlashJobs(w: World, id: JobId, b: BondId)
    requires JobsOk(w) && CanBurn(w, id, b) && w.jobs[id].state.Challenged?
    ensures JobsOk(Slash(w, id, b))
  {
    var j, w' := w.jobs[id], Slash(w, id, b);
    JobAt(w, id);
    SlashEscrows(w.tokens, id, j, b);
    SlashedOk(id, j, w.flows[id], w.tokens, w'.tokens, w.challenges, w'.challenges, w.config.value);
    OneJob(w, w', id);
  }

  lemma CloseJobs(w: World, s: Step)
    requires JobsOk(w) && s.CloseJob? && CanClose(w, s)
    ensures JobsOk(DoClose(w, s))
  {
    var w' := DoClose(w, s);
    JobAt(w, s.id);
    forall i | i in w'.jobs
      ensures JobOk(i, w'.jobs[i], w'.flows[i], w'.tokens, w'.challenges, w'.config.value)
    {
      SameJob(i, w.jobs[i], w.flows[i], w.tokens, w'.tokens, w.challenges, w'.challenges, w.config.value);
    }
  }

  /** Steps that leave all escrows, jobs and challenges alone. */
  lemma JobsUntouched(w: World, w': World)
    requires JobsOk(w) && w'.jobs == w.jobs && w'.flows == w.flows && w'.challenges == w.challenges
    requires w'.config == w.config || w.config.None?
             || (w'.config.Some? && w'.config.value == w.config.value.(paused := w'.config.value.paused))
    requires forall a: TokenAccount :: a.Escrow? ==> (a in w.tokens ==> a in w'.tokens) && Balance(w.tokens, a) == Balance(w'.tokens, a)
    ensures JobsOk(w')
  {
    forall i | i in w'.jobs
      ensures JobOk(i, w'.jobs[i], w'.flows[i], w'.tokens, w'.challenges, w'.config.value)
    {
      assert JobOk(i, w.jobs[i], w.flows[i], w.tokens, w.challenges, w.config.value);
    }
  }

  lemma DonatedOk(id: JobId, j: Job, f: Flow, t: Ledger, t': Ledger, ch: map<JobId, Challenge>, c: Config, gift: nat)
    requires JobOk(id, j, f, t, ch, c)
    requires EscrowOf(id, j) in t && EscrowOf(id, j) in t' && t'[EscrowOf(id, j)] == t[EscrowOf(id, j)] + gift
    ensures JobOk(id, j, f.(donated := f.donated + gift), t', ch, c)
  {
  }

  /** Tokens arrive at one account; escrows and vaults otherwise stay. */
  ghost predicate Receives(t: Ledger, t': Ledger, to: TokenAccount, amount: nat) {
    forall a: TokenAccount :: !a.Wallet? ==>
      (a in t <==> a in t') && Balance(t', a) == Balance(t, a) + (if a == to then amount else 0)
  }

  lemma GiftJob(w: World, w': World, to: TokenAccount, amount: nat, i: JobId)
    requires JobsOk(w) && i in w.jobs && to in w.tokens && Receives(w.tokens, w'.tokens, to, amount)
    requires w' == Gifted(w, w'.tokens, to, amount).(issued := w'.issued)
    ensures i in w'.flows && w.config.Some? && JobOk(i, w.jobs[i], w'.flows[i], w'.tokens, w.challenges, w.config.value)
  {
    JobAt(w, i);
    if to == EscrowOf(i, w.jobs[i]) {
      DonatedOk(i, w.jobs[i], w.flows[i], w.tokens, w'.tokens, w.challenges, w.config.value, amount);
    } else {
      assert w'.flows[i] == w.flows[i];
      SameJob(i, w.jobs[i], w.flows[i], w.tokens, w'.tokens, w.challenges, w'.challenges, w.config.value);
    }
  }

  lemma GiftJobs(w: World, w': World, to: TokenAccount, amount: nat)
    requires JobsOk(w) && to in w.tokens && Receives(w.tokens, w'.tokens, to, amount)
    requires w' == Gifted(w, w'.tokens, to, amount).(issued := w'.issued)
    ensures JobsOk(w')
  {
    forall i | i in w'.jobs
      ensures JobOk(i, w'.jobs[i], w'.flows[i], w'.tokens, w'.challenges, w'.config.value)
    {
      GiftJob(w, w', to, amount, i);
    }
  }

  lemma UserTransferJobs(w: World, s: Step)
    requires JobsOk(w) && s.UserTransfer? && CanUserTransfer(w, s)
    ensures JobsOk(DoUserTransfer(w, s))
  {
    GiftJobs(w, DoUserTransfer(w, s), s.to, s.amount);
  }

  lemma MintJobs(w: World, s: Step)
    requires JobsOk(w) && s.MintTokens? && CanMint(w, s)
    ensures JobsOk(DoMint(w, s))
  {
    GiftJobs(w, DoMint(w, s), s.to, s.amount);
  }

  lemma AdvanceKeepsJobs(w: World, s: Step)
    requires JobsOk(w) && Succeeds(w, s) && Advances(s)
    ensures JobsOk(After(w, s))
  {
    if s.FundJob? {
      FundJobs(w, s);
    } else if s.AcceptJob? {
      AcceptJobs(w, s);
    } else if s.SubmitReceipt? {
      SubmitJobs(w, s);
    } else if s.ChallengeWork? {
      ChallengeJobs(w, s);
    } else {
      ExpireJobs(w, s);
    }
  }

  lemma PayKeepsJobs(w: World, s: Step)
    requires JobsOk(w) && Succeeds(w, s) && Pays(s)
    ensures JobsOk(After(w, s))
  {
    if s.ResolveRefund? {
      RefundJobs(w, s);
    } else if s.SlashBond? {
      SlashJobs(w, s.id, s.bond);
    } else {
      SettleJobs(w, s.id, s.bond);
    }
  }

  lemma RestKeepsJobs(w: World, s: Step)
    requires JobsOk(w) && Succeeds(w, s) && !Advances(s) && !Pays(s)
    ensures JobsOk(After(w, s))
  {
    if s.CreateJob? {
      CreateJobs(w, s);
    } else if s.CloseJob? {
      CloseJobs(w, s);
    } else if s.UserTransfer? {
      UserTransferJobs(w, s);
    } else if s.MintTokens? {
      MintJobs(w, s);
    } else {
      OthersKeepJobs(w, s);
    }
  }

  lemma OthersKeepJobs(w: World, s: Step)
    requires JobsOk(w) && Succeeds(w, s) && !Advances(s) && !Pays(s)
    requires !s.CreateJob? && !s.CloseJob? && !s.UserTransfer? && !s.MintTokens?
    ensures JobsOk(After(w, s))
  {
    JobsUntouched(w, After(w, s));
  }

  lemma KeepJobs(w: World, s: Step)
    requires JobsOk(w) && Succeeds(w, s)
    ensures JobsOk(After(w, s))
  {
    if Advances(s) {
      AdvanceKeepsJobs(w, s);
    } else if Pays(s) {
      PayKeepsJobs(w, s);
    } else {
      RestKeepsJobs(w, s);
    }
  }

  // ---- Books: every step keeps each bond's ledger ----

  /** At most one bond, its record and its vault change, and they still balance. */
  lemma OneBook(w: World, w': World, b: BondId)
    requires BooksOk(w)
    requires (w'.bonds == w.bonds && w'.bondFlows == w.bondFlows)
             || (&& b in w'.bonds && w'.bonds == w.bonds[b := w'.bonds[b]]
                 && b in w'.bondFlows && w'.bondFlows == w.bondFlows[b := w'.bondFlows[b]])
    requires SameVaults(w.tokens, w'.tokens, Vault(b))
    requires b in w'.bonds && b in w'.bondFlows ==> BookOk(b, w'.bonds[b], w'.bondFlows[b], w'.tokens)
    ensures BooksOk(w')
  {
    forall c | c in w'.bonds ensures BookOk(c, w'.bonds[c], w'.bondFlows[c], w'.tokens) {
      if c != b {
        assert BookOk(c, w.bonds[c], w.bondFlows[c], w.tokens);
        assert Balance(w'.tokens, Vault(c)) == Balance(w.tokens, Vault(c));
      }
    }
  }

  lemma DepositBooks(w: World, s: Step)
    requires BooksOk(w) && s.DepositBond? && CanDeposit(w, s)
    ensures BooksOk(DoDeposit(w, s))
  {
    OneBook(w, DoDeposit(w, s), DepositTarget(w, s));
  }

  lemma WithdrawBooks(w: World, s: Step)
    requires BooksOk(w) && s.WithdrawBond? && CanWithdraw(w, s)
    ensures BooksOk(DoWithdraw(w, s))
  {
    OneBook(w, DoWithdraw(w, s), s.bond);
  }

  lemma AcceptBooks(w: World, s: Step)
    requires BooksOk(w) && s.AcceptJob? && CanAccept(w, s)
    ensures BooksOk(DoAccept(w, s))
  {
  }

  lemma SettleBooks(w: World, id: JobId, b: BondId)
    requires BooksOk(w) && CanSettle(w, id, b)
    ensures BooksOk(SettledWorld(w, id, b))
  {
    AfterPayProvider(w.tokens, id, w.jobs[id]);
    ReleaseBooks(w, SettledWorld(w, id, b), b);
  }

  /** Only the lock of one bond falls; no vault moves. */
  lemma ReleaseBooks(w: World, w': World, b: BondId)
    requires BooksOk(w) && w'.bondFlows == w.bondFlows
    requires w'.bonds == w.bonds
             || (b in w.bonds && b in w'.bonds && w'.bonds == w.bonds[b := w'.bonds[b]]
                 && w'.bonds[b].deposited == w.bonds[b].deposited && w'.bonds[b].locked <= w.bonds[b].locked)
    requires forall a: TokenAccount :: a.Vault? ==> (a in w.tokens ==> a in w'.tokens) && Balance(w.tokens, a) == Balance(w'.tokens, a)
    ensures BooksOk(w')
  {
    forall c | c in w'.bonds ensures BookOk(c, w'.bonds[c], w'.bondFlows[c], w'.tokens) {
      assert BookOk(c, w.bonds[c], w.bondFlows[c], w.tokens);
      assert Balance(w'.tokens, Vault(c)) == Balance(w.tokens, Vault(c));
    }
  }

  lemma RefundBooks(w: World, s: Step)
    requires BooksOk(w) && s.ResolveRefund? && CanRefund(w, s)
    ensures BooksOk(DoRefund(w, s))
  {
    AfterPayBuyer(w.tokens, s.id, w.jobs[s.id]);
    ReleaseBooks(w, DoRefund(w, s), BondOf(s.id, w.jobs[s.id]));
  }

  lemma SlashBooks(w: World, id: JobId, b: BondId)
    requires BooksOk(w) && CanBurn(w, id, b)
    ensures BooksOk(Slash(w, id, b))
  {
    AfterPaySlash(w.tokens, id, w.jobs[id], b);
    assert BookOk(b, w.bonds[b], w.bondFlows[b], w.tokens);
    OneBook(w, Slash(w, id, b), b);
  }

  lemma GiftBooks(w: World, w': World, to: TokenAccount, amount: nat)
    requires BooksOk(w) && to in w.tokens && Receives(w.tokens, w'.tokens, to, amount)
    requires w' == Gifted(w, w'.tokens, to, amount).(issued := w'.issued)
    ensures BooksOk(w')
  {
    forall b | b in w'.bonds ensures BookOk(b, w'.bonds[b], w'.bondFlows[b], w'.tokens) {
      assert BookOk(b, w.bonds[b], w.bondFlows[b], w.tokens);
    }
  }

  lemma UserTransferBooks(w: World, s: Step)
    requires BooksOk(w) && s.UserTransfer? && CanUserTransfer(w, s)
    ensures BooksOk(DoUserTransfer(w, s))
  {
    GiftBooks(w, DoUserTransfer(w, s), s.to, s.amount);
  }

  lemma MintBooks(w: World, s: Step)
    requires BooksOk(w) && s.MintTokens? && CanMint(w, s)
    ensures BooksOk(DoMint(w, s))
  {
    GiftBooks(w, DoMint(w, s), s.to, s.amount);
  }

  lemma PayKeepsBooks(w: World, s: Step)
    requires BooksOk(w) && Succeeds(w, s) && Pays(s)
    ensures BooksOk(After(w, s))
  {
    if s.ResolveRefund? {
      RefundBooks(w, s);
    } else if s.SlashBond? {
      SlashBooks(w, s.id, s.bond);
    } else {
      SettleBooks(w, s.id, s.bond);
    }
  }

  lemma FundBooks(w: World, s: Step)
    requires BooksOk(w) && s.FundJob? && CanFund(w, s)
    ensures BooksOk(DoFund(w, s))
  {
    ReleaseBooks(w, DoFund(w, s), BondId(0, 0));
  }

  lemma KeepBooks(w: World, s: Step)
    requires BooksOk(w) && Succeeds(w, s)
    ensures BooksOk(After(w, s))
  {
    if Pays(s) {
      PayKeepsBooks(w, s);
    } else if s.DepositBond? {
      DepositBooks(w, s);
    } else if s.WithdrawBond? {
      WithdrawBooks(w, s);
    } else if s.AcceptJob? {
      AcceptBooks(w, s);
    } else if s.FundJob? {
      FundBooks(w, s);
    } else if s.UserTransfer? {
      UserTransferBooks(w, s);
    } else if s.MintTokens? {
      MintBooks(w, s);
    } else {
      RestKeepsBooks(w, s);
    }
  }

  lemma RestKeepsBooks(w: World, s: Step)
    requires BooksOk(w) && Succeeds(w, s) && !Pays(s)
    requires !s.DepositBond? && !s.WithdrawBond? && !s.AcceptJob? && !s.FundJob? && !s.UserTransfer? && !s.MintTokens?
    ensures BooksOk(After(w, s))
  {
    ReleaseBooks(w, After(w, s), BondId(0, 0));
  }

  // ---- Locks: every step keeps each running total equal to the sum of the shares ----

  /** One job's share and its bond's total move together. */
  lemma OneLock(w: World, w': World, id: JobId, b: BondId)
    requires LocksOk(w) && id in w'.jobs && b == BondOf(id, w'.jobs[id])
    requires w'.jobs == w.jobs[id := w'.jobs[id]]
    requires id in w.jobs ==> w.jobs[id].mint == w'.jobs[id].mint
    requires w'.bonds == w.bonds || (b in w.bonds && b in w'.bonds && w'.bonds == w.bonds[b := w'.bonds[b]])
    requires b in w.bonds ==>
               w'.bonds[b].locked + (if id in w.jobs then w.jobs[id].lockedBond else 0)
               == w.bonds[b].locked + w'.jobs[id].lockedBond
    requires w'.jobs[id].lockedBond > 0 ==> b in w.bonds
    ensures LocksOk(w')
  {
    forall c | c in w'.bonds ensures w'.bonds[c].locked == Sum(Locks(w'.jobs, c)) {
      LocksUpdate(w.jobs, id, w'.jobs[id], c);
    }
  }

  lemma {:induction false} AllZero<K>(m: map<K, nat>)
    requires forall k :: k in m ==> m[k] == 0
    ensures Sum(m) == 0
    decreases |m|
  {
    if m != map[] {
      var k := Pick(m);
      assert (m - {k}).Keys == m.Keys - {k};
      AllZero(m - {k});
    }
  }

  /** A new bond is held by nobody; an existing one keeps its total. */
  /** A bond that is new or keeps its total. */
  lemma SameTotals(w: World, w': World, b: BondId)
    requires LocksOk(w) && w'.jobs == w.jobs && b in w'.bonds && w'.bonds == w.bonds[b := w'.bonds[b]]
    requires w'.bonds[b].locked == if b in w.bonds then w.bonds[b].locked else 0
    ensures LocksOk(w')
  {
    if b !in w.bonds {
      AllZero(Locks(w.jobs, b));
    }
  }

  lemma DepositLocks(w: World, s: Step)
    requires LocksOk(w) && s.DepositBond? && CanDeposit(w, s)
    ensures LocksOk(DoDeposit(w, s))
  {
    SameTotals(w, DoDeposit(w, s), DepositTarget(w, s));
  }

  lemma CloseLocks(w: World, s: Step)
    requires LocksOk(w) && s.CloseJob? && CanClose(w, s) && w.jobs[s.id].lockedBond == 0
    ensures LocksOk(DoClose(w, s))
  {
    var w' := DoClose(w, s);
    forall b | b in w'.bonds ensures w'.bonds[b].locked == Sum(Locks(w'.jobs, b)) {
      LocksClose(w.jobs, s.id, b);
    }
  }

  /** A share is held only between acceptance and the exit. */
  predicate SharesOk(w: World) {
    forall id :: id in w.jobs && w.jobs[id].lockedBond > 0 ==> w.jobs[id].state.HoldsBond()
  }

  lemma SharesFollow(w: World)
    requires JobsOk(w)
    ensures SharesOk(w)
  {
  }

  lemma AdvanceKeepsLocks(w: World, s: Step)
    requires LocksOk(w) && SharesOk(w) && Succeeds(w, s) && Advances(s)
    ensures LocksOk(After(w, s))
  {
    OneLock(w, After(w, s), s.id, BondOf(s.id, w.jobs[s.id]));
  }

  lemma SettleKeepsLocks(w: World, id: JobId, b: BondId)
    requires LocksOk(w) && CanSettle(w, id, b)
    ensures LocksOk(SettledWorld(w, id, b))
  {
    OneLock(w, SettledWorld(w, id, b), id, b);
  }

  lemma RefundKeepsLocks(w: World, s: Step)
    requires LocksOk(w) && s.ResolveRefund? && CanRefund(w, s)
    ensures LocksOk(DoRefund(w, s))
  {
    OneLock(w, DoRefund(w, s), s.id, BondOf(s.id, w.jobs[s.id]));
  }

  lemma SlashKeepsLocks(w: World, id: JobId, b: BondId)
    requires LocksOk(w) && CanBurn(w, id, b)
    ensures LocksOk(Slash(w, id, b))
  {
    OneLock(w, Slash(w, id, b), id, b);
  }

  lemma PayKeepsLocks(w: World, s: Step)
    requires LocksOk(w) && Succeeds(w, s) && Pays(s)
    ensures LocksOk(After(w, s))
  {
    if s.ResolveRefund? {
      RefundKeepsLocks(w, s);
    } else if s.SlashBond? {
      SlashKeepsLocks(w, s.id, s.bond);
    } else {
      SettleKeepsLocks(w, s.id, s.bond);
    }
  }

  lemma CreateLocks(w: World, s: Step)
    requires LocksOk(w) && s.CreateJob? && CanCreate(w, s)
    ensures LocksOk(DoCreate(w, s))
  {
    OneLock(w, DoCreate(w, s), s.id, BondId(s.id.provider, w.config.value.mint));
  }

  lemma KeepLocks(w: World, s: Step)
    requires LocksOk(w) && SharesOk(w) && Succeeds(w, s)
    ensures LocksOk(After(w, s))
  {
    if Advances(s) {
      AdvanceKeepsLocks(w, s);
    } else if Pays(s) {
      PayKeepsLocks(w, s);
    } else if s.DepositBond? {
      DepositLocks(w, s);
    } else if s.CreateJob? {
      CreateLocks(w, s);
    } else if s.CloseJob? {
      CloseLocks(w, s);
    }
  }

  lemma SameConfig(w: World, s: Step)
    requires Succeeds(w, s) && !s.InitializeConfig? && !s.SetPaused? && !s.AdvanceClock?
    ensures After(w, s).config == w.config && After(w, s).clock == w.clock
  {
  }

  lemma KeepConfig(w: World, s: Step)
    requires ConfigOk(w)
    ensures ConfigOk(Apply(w, s))
  {
    if Succeeds(w, s) {
      if !s.InitializeConfig? && !s.SetPaused? && !s.AdvanceClock? {
        SameConfig(w, s);
      }
    }
  }

  /** Whatever is attempted, by anyone, with any accounts, the invariant survives. */
  lemma StepKeepsInv(w: World, s: Step)
    requires Inv(w)
    ensures Inv(Apply(w, s))
  {
    KeepConfig(w, s);
    KeepSupply(w, s);
    if Succeeds(w, s) {
      KeepJobs(w, s);
      KeepBooks(w, s);
      SharesFollow(w);
      KeepLocks(w, s);
    }
  }
}
