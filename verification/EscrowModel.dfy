/** Values of the on-chain escrow and bond protocol: accounts, token ledger and the whole chain state. */
module EscrowModel {
  import opened Limits
  import opened Options

  /** A 32-byte public key or hash; 0 stands for the all-zero key, which several instructions refuse. */
  type Key = nat

  const PROGRAM_ID: Key := 1

  datatype JobState =
    | Created | Funded | Accepted | Submitted | Challenged
    | Settled | Refunded | Expired | Slashed
  {
    predicate Terminal() {
      Settled? || Refunded? || Expired? || Slashed?
    }

    /** States in which the escrow holds the principal. */
    predicate HoldsPrincipal() {
      Funded? || Accepted? || Submitted? || Challenged?
    }

    /** States in which a share of the provider's bond is locked for the job. */
    predicate HoldsBond() {
      Accepted? || Submitted? || Challenged?
    }
  }

  /** The transition table shared by host and chain. */
  predicate ValidTransition(from: JobState, to: JobState) {
    match (from, to)
    case (Created, Funded) => true
    case (Created, Expired) => true
    case (Funded, Accepted) => true
    case (Funded, Refunded) => true
    case (Accepted, Submitted) => true
    case (Accepted, Refunded) => true
    case (Submitted, Settled) => true
    case (Submitted, Challenged) => true
    case (Challenged, Settled) => true
    case (Challenged, Refunded) => true
    case (Challenged, Slashed) => true
    case _ => false
  }

  /** Seeds of a job address; equal seeds mean the same account. */
  datatype JobId = JobId(buyer: Key, provider: Key, nonce: nat)

  /** Seeds of a provider bond address. */
  datatype BondId = BondId(provider: Key, mint: Key)

  /** Addresses at which the program creates its own accounts. */
  datatype Address =
    | ConfigAddress
    | ProviderAddress(authority: Key)
    | BondAddress(bond: BondId)
    | JobAddress(id: JobId)
    | ChallengeAddress(id: JobId)

  /** The fields of a work receipt; the stored digest is represented by the receipt it identifies. */
  datatype Receipt = Receipt(
    program: Key, genesis: Key, job: JobId, buyer: Key, provider: Key,
    requestHash: Key, resultHash: Key, nonce: nat, createdAt: int, expiresAt: int)

  datatype Job = Job(
    state: JobState, mint: Key, amount: nat,
    fundDeadline: int, acceptDeadline: int, workDeadline: int, autoSettleDeadline: int,
    requestHash: Key, receipt: Option<Receipt>, lockedBond: nat)

  datatype Bond = Bond(deposited: nat, locked: nat)
  {
    /** What `decode` and `encode` of the bond account insist on. */
    predicate Loads() {
      locked <= deposited
    }
  }

  datatype Challenge = Challenge(buyer: Key, open: bool, reasonHash: Key, deadline: int)

  datatype Config = Config(
    admin: Key, paused: bool, genesis: Key, mint: Key, minBond: nat, challengeDuration: int)

  /**
   * Token accounts. Index 0 of a wallet is its associated token account, the only one payouts may go to;
   * escrows and vaults are the associated accounts of a job and of a bond.
   */
  datatype TokenAccount =
    | Wallet(owner: Key, walletMint: Key, index: nat)
    | Escrow(job: JobId, escrowMint: Key)
    | Vault(bond: BondId)
  {
    function Mint(): Key {
      match this
      case Wallet(_, m, _) => m
      case Escrow(_, m) => m
      case Vault(b) => b.mint
    }
  }

  type Ledger = map<TokenAccount, nat>

  function Balance(t: Ledger, a: TokenAccount): nat {
    if a in t then t[a] else 0
  }

  /** When the token program performs a transfer. */
  predicate CanMove(t: Ledger, from: TokenAccount, to: TokenAccount, amount: nat) {
    && from in t && to in t
    && from.Mint() == to.Mint()
    && amount <= t[from]
    && (from != to ==> t[to] + amount <= U64_MAX)
  }

  function Move(t: Ledger, from: TokenAccount, to: TokenAccount, amount: nat): Ledger
    requires from in t && to in t && amount <= t[from]
  {
    var debited := t[from := t[from] - amount];
    debited[to := debited[to] + amount]
  }

  /**
   * What one incarnation of a job has seen pass through its escrow, by purpose rather than by recipient
   * (buyer and provider may be the same key). `carried` is the balance found at creation.
   */
  datatype Flow = Flow(
    carried: nat, donated: nat, funded: nat,
    toProvider: nat, toBuyer: nat, surplus: nat, slashed: nat)

  /** All deposits, withdrawals, slashes and gifts of one bond; gifts include what the vault held before. */
  datatype BondFlow = BondFlow(deposits: nat, withdrawals: nat, slashes: nat, donated: nat)

  /**
   * The whole chain as the protocol sees it. `prefunded` are addresses without an account that hold lamports: the
   * system program refuses to create an account there. `issued` is the supply each mint account records. `flows` and
   * `bondFlows` are history, read by no instruction.
   */
  datatype World = World(
    clock: int,
    config: Option<Config>,
    providers: map<Key, set<Key>>,
    bonds: map<BondId, Bond>,
    jobs: map<JobId, Job>,
    challenges: map<JobId, Challenge>,
    tokens: Ledger,
    prefunded: set<Address>,
    issued: map<Key, nat>,
    flows: map<JobId, Flow>,
    bondFlows: map<BondId, BondFlow>)

  function EscrowOf(id: JobId, j: Job): TokenAccount {
    Escrow(id, j.mint)
  }

  function BuyerWallet(id: JobId, j: Job): TokenAccount {
    Wallet(id.buyer, j.mint, 0)
  }

  function ProviderWallet(id: JobId, j: Job): TokenAccount {
    Wallet(id.provider, j.mint, 0)
  }

  function BondOf(id: JobId, j: Job): BondId {
    BondId(id.provider, j.mint)
  }

  /** Everything that can happen: protocol instructions with the accounts they name, and outside events. */
  datatype Step =
    | InitializeConfig(admin: Key, genesis: Key, mint: Key, minBond: nat, challengeDuration: int)
    | SetPaused(admin: Key, paused: bool)
    | RegisterProvider(authority: Key)
    | AddExecutionKey(authority: Key, key: Key)
    | RevokeExecutionKey(authority: Key, key: Key)
    | DepositBond(authority: Key, wallet: nat, amount: nat)
    | WithdrawBond(authority: Key, bond: BondId, wallet: nat, amount: nat)
    | CreateJob(id: JobId, amount: nat, requestHash: Key,
                fundDeadline: int, acceptDeadline: int, workDeadline: int, autoSettleDeadline: int)
    | FundJob(buyer: Key, id: JobId, wallet: nat)
    | AcceptJob(authority: Key, id: JobId, bond: BondId)
    | SubmitReceipt(id: JobId, receipt: Receipt, signer: Key)
    | AcceptWork(buyer: Key, id: JobId, bond: BondId)
    | ChallengeWork(buyer: Key, id: JobId, reasonHash: Key)
    | ResolveTimeoutSettle(id: JobId, bond: BondId, challenge: Option<JobId>)
    | ResolveRefund(id: JobId, bondAccount: Option<BondId>, fundedOnly: bool)
    | ExpireUnfunded(id: JobId)
    | SlashBond(admin: Key, id: JobId, bond: BondId)
    | CloseJob(buyer: Key, id: JobId, escrow: Option<TokenAccount>)
    | AdvanceClock(time: int)
    | OpenTokenAccount(account: TokenAccount)
    | CloseWallet(account: TokenAccount)
    | SendLamports(address: Address)
    | MintTokens(to: TokenAccount, amount: nat)
    | BurnTokens(from: TokenAccount, amount: nat)
    | UserTransfer(from: TokenAccount, to: TokenAccount, amount: nat)
}
